/** Call objects, their pool and the client that waits for answers, as the objects of jrpc/rpc.go,
    memorypool/mempool.go and jrpc/rpcclient.go. Module RpcMachine runs many of them side by side. */
module RpcClients {
  import opened Collections
  import opened CallSpec

  /** Events a service's channel holds before pushing fails. */
  const MAX_SERVICE_EVENT_CHANNEL := 2_000_000

  /** The variable a caller wants its reply in. */
  class ReplyCell {
    var value: Option<nat>

    constructor ()
      ensures value == None
    {
      value := None;
    }
  }

  /** The service that runs the callbacks of finished calls. */
  class Handler {
    var channel: seq<Call>

    constructor ()
      ensures channel == []
    {
      channel := [];
    }

    method PushRpcResponse(call: Call) returns (pushed: bool)
      modifies this
      ensures pushed == (|old(channel)| < 2_000_000)
      ensures channel == if pushed then old(channel) + [call] else old(channel)
    {
      pushed := |channel| < MAX_SERVICE_EVENT_CHANNEL;
      if pushed {
        channel := channel + [call];
      }
    }
  }

  class Call {
    var ref: bool
    var number: nat
    var err: Option<Failure>
    var reply: Option<ReplyCell>
    var callback: Option<Handler>
    var done: seq<Call>

    ghost function View(): (r: Rec<Call, ReplyCell, Handler>)
      reads this
    {
      Rec(ref, number, err, reply, callback, done)
    }

    constructor ()
      ensures View() == Blank()
    {
      ref, number, err, reply, callback, done := false, 0, None, None, None, [];
    }

    method Clear()
      modifies this
      ensures View() == Cleared(old(View()))
      ensures ref == old(ref) && number == 0 && err.None? && reply.None? && callback.None? && done == []
    {
      number := 0;
      reply := None;
      if |done| > 0 {
        done := [];
      }
      err := None;
      callback := None;
    }

    /** The call gets its number and whom to answer. */
    method Fill(number: nat, reply: Option<ReplyCell>, callback: Option<Handler>)
      modifies this
      ensures View() == old(View()).(number := number, reply := reply, callback := callback)
    {
      this.number, this.reply, this.callback := number, reply, callback;
    }

    /** The request of the call failed before it was sent. */
    method Refuse(why: Failure)
      modifies this
      ensures View() == old(View()).(number := 0, err := Some(why))
    {
      number, err := 0, Some(why);
    }

    method Ref()
      modifies this
      ensures View() == old(View()).(ref := true)
    {
      ref := true;
    }

    method UnRef()
      modifies this
      ensures View() == old(View()).(ref := false)
    {
      ref := false;
    }

    /** A send on the done channel, which holds one call; `sent` is false where the sender would block. */
    method Signal() returns (sent: bool)
      modifies this
      ensures sent == (|old(done)| == 0)
      ensures View() == if sent then old(View()).(done := [this]) else old(View())
    {
      sent := |done| == 0;
      if sent {
        done := [this];
      }
    }

    /** A receive from the done channel once something is in it. */
    method Done() returns (call: Call)
      requires done != []
      modifies this
      ensures [call] + View().done == old(done)
      ensures View() == old(View()).(done := old(done)[1..])
    {
      call := done[0];
      done := done[1..];
    }
  }

  /** The pool; `panics` stands for the source's panics about calls that are in use, or freed twice. */
  class PoolEx {
    var free: seq<Call>
    var spare: set<Call>

    ghost function View(): (r: Pool<Call>)
      reads this
    {
      Pool(free, spare)
    }

    /** Everything pooled is unused and cleared, and nothing is pooled twice. */
    ghost predicate Valid()
      reads this, free, spare
    {
      && (forall c :: c in free ==> c.View() == Blank() && c !in spare)
      && (forall c :: c in spare ==> c.View() == Blank())
      && (forall i, j :: 0 <= i < j < |free| ==> free[i] != free[j])
    }

    constructor ()
      ensures Valid() && View() == Pool([], {})
    {
      free, spare := [], {};
    }

    method Get() returns (call: Call, panics: bool)
      requires Valid()
      modifies this, free, spare
      ensures Valid() && !panics
      ensures old(View()).Gives(call, !fresh(call)) && View() == old(View()).Without(call)
      ensures call.View() == Blank<Call, ReplyCell, Handler>().(ref := true) && !View().Holds(call)
      ensures call.ref && call.number == 0 && call.err.None? && call.reply.None? && call.callback.None? && call.done == []
      ensures if |old(free)| > 0 then call == old(free)[0] && free == old(free)[1..] && spare == old(spare)
              else free == [] && spare == old(spare) - {call}
      ensures forall c :: (c in old(free) || c in old(spare)) && c != call ==> c.View() == old(c.View())
      ensures fresh(call) || call in old(free) || call in old(spare)
    {
      if |free| > 0 {
        call := free[0];
        free := free[1..];
      } else {
        var reuse: bool := *;
        if reuse && |spare| > 0 {
          call :| call in spare;
          spare := spare - {call};
        } else {
          call := new Call();
          assert spare - {call} == spare;
        }
      }
      assert call.View() == Blank();
      panics := call.ref;
      if !panics {
        call.Ref();
      }
    }

    method Put(call: Call) returns (panics: bool)
      requires Valid() && (call.ref ==> !View().Holds(call))
      modifies this, call
      ensures panics == !old(call.ref)
      ensures panics ==> View() == old(View()) && call.View() == old(call.View())
      ensures !panics ==> Valid() && View() == old(View()).With(call) && call.View() == Blank()
      ensures !panics ==> if |old(free)| < 10240 then free == old(free) + [call] && spare == old(spare)
                          else free == old(free) && spare == old(spare) + {call}
    {
      panics := !call.ref;
      if !panics {
        call.UnRef();
        call.Clear();
        call.UnRef();
        if |free| < MAX_RPC_CALL_POOL {
          free := free + [call];
        } else {
          spare := spare + {call};
        }
      }
    }
  }

  /** What became of a completion: its number was unknown, it went down the done channel, it was put into the
      handler's channel or did not fit there, or the sender blocks on a full done channel. */
  datatype Delivery = Unknown | Signalled | Pushed | Dropped | Stuck

  /** A completion of `call` with `err` left it like this. */
  ghost predicate Carried(call: Call, was: Rec<Call, ReplyCell, Handler>, err: Option<Failure>, how: Delivery)
    reads call
  {
    if was.callback.Some? then (how.Pushed? || how.Dropped?) && call.View() == Finished(was, call, err)
    else if was.done == [] then how.Signalled? && call.View() == Finished(was, call, err)
    else how.Stuck? && call.View() == was.(err := err)
  }

  /** All of a call but its error and its done channel. */
  function Rest(r: Rec<Call, ReplyCell, Handler>): (rest: (bool, nat, Option<ReplyCell>, Option<Handler>)) {
    (r.ref, r.number, r.reply, r.callback)
  }

  /** A handler's channel went from `was` to `now`. */
  ghost predicate Appended(call: Call, now: seq<Call>, was: seq<Call>, how: Delivery) {
    if |was| < MAX_SERVICE_EVENT_CHANNEL then how.Pushed? && now == was + [call] else how.Dropped? && now == was
  }

  lemma AddedAndRemoved<K, V>(m: map<K, V>, k: K, v: V)
    requires k !in m
    ensures m[k := v] - {k} == m
  {
  }

  class RpcClient {
    var startSeq: nat
    var pending: map<nat, Call>
    var pendingTimer: map<nat, nat>
    /** The scheduled timeouts of this client, by timer id, with the number each was made for. */
    var timers: map<nat, nat>
    var lastTimer: nat
    const calls: PoolEx

    /** No timer id is ever remembered, and the numbers of pending calls were given out. */
    ghost predicate Valid()
      reads this
    {
      && pendingTimer == map[] && (forall n :: n in pending ==> 1 <= n <= startSeq)
      && forall id :: id in timers ==> id <= lastTimer
    }

    constructor (calls: PoolEx)
      ensures Valid() && this.calls == calls && startSeq == 0 && pending == map[] && timers == map[]
    {
      this.calls := calls;
      startSeq, pending, pendingTimer, timers, lastTimer := 0, map[], map[], map[], 0;
    }

    method GenerateSeq() returns (number: nat)
      requires Valid()
      modifies this`startSeq
      ensures Valid() && number == startSeq == old(startSeq) + 1 && number !in pending
    {
      startSeq := startSeq + 1;
      number := startSeq;
    }

    method AddPending(call: Call)
      requires Valid() && 1 <= call.number <= startSeq
      modifies this`pending, this`timers, this`lastTimer
      ensures Valid() && pending == old(pending)[call.number := call]
      ensures lastTimer == old(lastTimer) + 1 && timers == old(timers)[lastTimer := call.number]
      ensures lastTimer !in old(timers)
    {
      pending := pending[call.number := call];
      lastTimer := lastTimer + 1;
      timers := timers[lastTimer := call.number];
    }

    /** A removed call takes its timer along if the timer's id was remembered. */
    method RemoveLocked(number: nat) returns (call: Option<Call>)
      modifies this`pending, this`timers
      ensures call == Lookup(old(pending), number) && pending == old(pending) - {number}
      ensures timers == if number in old(pending) && number in pendingTimer then old(timers) - {pendingTimer[number]}
                        else old(timers)
    {
      if number !in pending {
        return None;
      }
      call := Some(pending[number]);
      if number in pendingTimer {
        timers := timers - {pendingTimer[number]};
      }
      pending := pending - {number};
    }

    method RemovePending(number: nat) returns (call: Option<Call>)
      requires Valid()
      modifies this`pending, this`timers
      ensures Valid() && call == Lookup(old(pending), number)
      ensures pending == old(pending) - {number}
      ensures timers == old(timers)
    {
      if number == 0 {
        return None;
      }
      call := RemoveLocked(number);
    }

    /** Hands a completed call to its handler when it has a callback, else to whoever waits for it. */
    method Deliver(call: Call) returns (how: Delivery)
      modifies call, if call.callback.Some? then {call.callback.value} else {}
      ensures Carried(call, old(call.View()), old(call.err), how)
      ensures call.callback.Some? ==>
                Appended(call, call.callback.value.channel, old(call.callback.value.channel), how)
    {
      if call.callback.Some? {
        var pushed := call.callback.value.PushRpcResponse(call);
        how := if pushed then Pushed else Dropped;
      } else {
        var sent := call.Signal();
        how := if sent then Signalled else Stuck;
      }
    }

    /** The handler of a timeout for `number`. */
    method HandleRpcCallTimeout(number: nat) returns (how: Delivery)
      requires Valid()
      modifies this`pending, this`timers
      modifies if number in pending then {pending[number]} else {}
      modifies if number in pending && pending[number].callback.Some? then {pending[number].callback.value} else {}
      ensures Valid() && timers == old(timers)
      ensures number !in old(pending) ==> how == Unknown && pending == old(pending)
      ensures number in old(pending) ==>
                var call := old(pending)[number];
                && pending == old(pending) - {old(call.number)}
                && Carried(call, old(call.View()), Some(TookTooLong), how) && call.err == Some(TookTooLong)
                && Rest(call.View()) == old(Rest(call.View()))
                && call.done == (if how.Signalled? then [call] else old(call.done))
                && (how.Signalled? <==> call.callback.None? && old(call.done) == [])
                && (call.callback.Some? ==>
                      Appended(call, call.callback.value.channel, old(call.callback.value.channel), how))
    {
      if number !in pending {
        return Unknown;
      }
      var call := pending[number];
      call.err := Some(TookTooLong);
      var _ := RemoveLocked(call.number);
      how := Deliver(call);
    }

    /** The error and the reply of an answer go into the call and the caller's variable. */
    method Decode(call: Call, a: Answer)
      modifies call, if call.reply.Some? then {call.reply.value} else {}
      ensures call.View() == old(call.View()).(err := ErrOf(a))
      ensures call.reply.Some? ==>
                call.reply.value.value == if Written(a.body).Some? then Written(a.body) else old(call.reply.value.value)
      ensures a.err.Some? ==> call.err == Some(Remote(a.err.value))
      ensures a.err.None? ==> call.err == if a.body.Malformed? then Some(Undecodable) else None
      ensures call.reply.Some? ==>
                match a.body
                case Empty => call.reply.value.value == old(call.reply.value.value)
                case Decoded(v) => call.reply.value.value == Some(v)
                case Malformed(Some(v)) => call.reply.value.value == Some(v)
                case Malformed(None) => call.reply.value.value == old(call.reply.value.value)
    {
      call.err := None;
      match a.body {
        case Empty =>
        case Decoded(v) =>
          if call.reply.Some? {
            call.reply.value.value := Some(v);
          }
        case Malformed(partial) =>
          if call.reply.Some? && partial.Some? {
            call.reply.value.value := partial;
          }
          call.err := Some(Undecodable);
      }
      if a.err.Some? {
        call.err := Some(Remote(a.err.value));
      }
    }

    /** The reader's step for a decoded answer frame. */
    method Respond(a: Answer) returns (how: Delivery)
      requires Valid()
      modifies this`pending, this`timers
      modifies if a.number in pending then {pending[a.number]} else {}
      modifies if a.number in pending && pending[a.number].reply.Some? then {pending[a.number].reply.value} else {}
      modifies if a.number in pending && pending[a.number].callback.Some? then {pending[a.number].callback.value} else {}
      ensures Valid() && timers == old(timers)
      ensures a.number !in old(pending) ==> how == Unknown && pending == old(pending)
      ensures a.number in old(pending) ==>
                var call := old(pending)[a.number];
                && pending == old(pending) - {a.number}
                && Carried(call, old(call.View()), ErrOf(a), how)
                && (call.reply.Some? ==>
                      call.reply.value.value
                      == if Written(a.body).Some? then Written(a.body) else old(call.reply.value.value))
                && (call.callback.Some? ==>
                      Appended(call, call.callback.value.channel, old(call.callback.value.channel), how))
      ensures a.number in old(pending) ==>
                var call := old(pending)[a.number];
                && (a.err.Some? ==> call.err == Some(Remote(a.err.value)))
                && (a.err.None? ==> call.err == if a.body.Malformed? then Some(Undecodable) else None)
                && Rest(call.View()) == old(Rest(call.View()))
                && call.done == (if how.Signalled? then [call] else old(call.done))
                && (how.Signalled? <==> call.callback.None? && old(call.done) == [])
      ensures a.number in old(pending) && old(pending)[a.number].reply.Some? ==>
                var cell := old(pending)[a.number].reply.value;
                match a.body
                case Empty => cell.value == old(pending[a.number].reply.value.value)
                case Decoded(v) => cell.value == Some(v)
                case Malformed(Some(v)) => cell.value == Some(v)
                case Malformed(None) => cell.value == old(pending[a.number].reply.value.value)
    {
      var found := RemovePending(a.number);
      if found.None? {
        return Unknown;
      }
      Decode(found.value, a);
      how := Deliver(found.value);
    }

    /** A call from the pool, with its number and whom to answer. */
    method Checkout(number: nat, reply: Option<ReplyCell>, callback: Option<Handler>) returns (call: Call)
      requires calls.Valid()
      modifies calls, calls.free, calls.spare
      ensures calls.Valid() && calls.View() == old(calls.View()).Without(call) && !calls.View().Holds(call)
      ensures call.View() == Rec(true, number, None, reply, callback, [])
      ensures fresh(call) || call in old(calls.free) || call in old(calls.spare)
    {
      var panics;
      call, panics := calls.Get();
      call.Fill(number, reply, callback);
    }

    /** `AsyncCall`: the request is encoded, numbered, registered and written. `encodesArgs`, `encodesRequest`,
        `connected` and `accepted` say how those steps go. */
    method AsyncCall(handler: Handler, reply: ReplyCell,
                     encodesArgs: bool, encodesRequest: bool, connected: bool, accepted: bool)
      returns (err: Option<Failure>, ghost used: Option<Call>)
      requires Valid() && calls.Valid()
      modifies this, calls, calls.free, calls.spare
      ensures Valid() && calls.Valid()
      ensures startSeq == old(startSeq) + if encodesArgs then 1 else 0
      ensures used.Some? <==> encodesArgs && encodesRequest && connected
      ensures used.None? ==>
                && pending == old(pending) && timers == old(timers) && calls.View() == old(calls.View())
                && err == Some(if encodesArgs && encodesRequest then Disconnected else Unencodable)
      ensures used.Some? ==> lastTimer !in old(timers) && timers == old(timers)[lastTimer := startSeq]
      ensures used.Some? && accepted ==>
                && err == None && pending == old(pending)[startSeq := used.value]
                && calls.View() == old(calls.View()).Without(used.value)
                && used.value.View() == Rec(true, startSeq, None, Some(reply), Some(handler), [])
      ensures used.Some? && !accepted ==>
                && err == Some(Unsent) && pending == old(pending)
                && calls.View() == old(calls.View()).Without(used.value).With(used.value)
    {
      hide calls.Valid, Pool.With, Pool.Without;
      used := None;
      if !encodesArgs {
        return Some(Unencodable), None;
      }
      var number := GenerateSeq();
      if !encodesRequest {
        return Some(Unencodable), None;
      }
      if !connected {
        return Some(Disconnected), None;
      }
      var call := Checkout(number, Some(reply), Some(handler));
      used := Some(call);
      AddPending(call);
      err := None;
      if !accepted {
        var _ := RemovePending(call.number);
        var twice := calls.Put(call);
        AddedAndRemoved(old(pending), startSeq, call);
        err := Some(Unsent);
      }
    }

    /** `RawGo`: as `AsyncCall`, but the caller gets the call itself, and a failure in it. */
    method RawGo(noReply: bool, reply: Option<ReplyCell>, encodesRequest: bool, connected: bool, accepted: bool)
      returns (call: Call)
      requires Valid() && calls.Valid()
      modifies this, calls, calls.free, calls.spare
      ensures Valid() && calls.Valid() && startSeq == old(startSeq) + 1
      ensures calls.View() == old(calls.View()).Without(call)
      ensures var n := startSeq;
              call.View() == if encodesRequest && connected && accepted then Rec(true, n, None, reply, None, [])
                             else Rec(true, 0, Some(if !encodesRequest then Unencodable
                                                    else if !connected then Disconnected else Unsent),
                                      reply, None, [])
      ensures pending == if encodesRequest && connected && accepted && !noReply then old(pending)[startSeq := call]
                         else old(pending)
      ensures encodesRequest && connected && !noReply ==>
                lastTimer !in old(timers) && timers == old(timers)[lastTimer := startSeq]
      ensures !encodesRequest || !connected || noReply ==> timers == old(timers)
    {
      hide calls.Valid, Pool.Without;
      var number := GenerateSeq();
      call := Checkout(number, reply, None);
      if !encodesRequest {
        call.Refuse(Unencodable);
        return;
      }
      if !connected {
        call.Refuse(Disconnected);
        return;
      }
      if !noReply {
        AddPending(call);
      }
      if !accepted {
        var _ := RemovePending(call.number);
        AddedAndRemoved(old(pending), startSeq, call);
        call.Refuse(Unsent);
      }
    }
  }
}
