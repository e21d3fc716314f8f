/** All the remote calls of a process as one state machine (jrpc/rpcclient.go, jrpc/rpchandler.go,
    memorypool/mempool.go): callers, answers of the peers, timeouts, failing writes and handlers interleave
    freely, and call objects go back to a shared pool and come out again under new numbers. */
module RpcMachine {
  import opened Collections
  import opened CallSpec

  /** Which client, and which of its numbers. */
  datatype Key = Key(client: nat, number: nat)

  type CallId = nat

  /** A reply variable and a callback are named by the key of the call they were passed to. */
  type CallRec = Rec<CallId, Key, Key>

  /** What the caller learns: the error, and what the reply variable holds by then. */
  datatype Outcome = Outcome(err: Option<Failure>, value: Option<nat>)

  /** The history of a registered call: its completions and what its caller was told, in order. */
  datatype Past = Past(owner: CallId, ends: seq<Outcome>, told: seq<Outcome>)

  /** In whose hands a checked-out call is. `Registered`: between `AddPending` and the result of `WriteMsg`.
      `Returned`: the synchronous caller has it and is about to look at its error. `Blocked`: that caller waits
      for the done channel. `Outstanding`: only `pending` knows it. `Queued`: it waits for its handler.
      `Lost`: the handler's channel was full or the callback panicked, and nothing will ever release it. */
  datatype Hold =
    | Refused(refused: Option<Key>)
    | Posted
    | Registered(key: Key)
    | Returned(key: Key)
    | Blocked(key: Key)
    | Outstanding(key: Key)
    | Queued(key: Key)
    | Lost(key: Key)

  datatype State = State(
    next: map<nat, nat>, pending: map<Key, CallId>, timers: set<Key>,
    pool: Pool<CallId>, recs: map<CallId, CallRec>, queue: seq<CallId>, cells: map<Key, nat>,
    hold: map<CallId, Hold>, past: map<Key, Past>)

  /** `Skip`: a number is generated for a request that then fails. `Refuse`: `Go` or `RawGo` returns a call
      that failed before anything was registered. `Post`: a request that wants no reply.
      `Register`: number, call object and `AddPending`. `Write` and `FailWrite`: the two results of `WriteMsg`.
      `Respond`: the client's reader gets an answer frame. `Expire`: the timer of a call fires.
      `Look`, `Collect`: the synchronous caller tests `Err`, then waits on the done channel.
      `Dismiss`: a call whose request failed, or wanted no reply, is released. `RunCallback`: a handler takes a
      finished call off its channel. `DropSpare`: the overflow part of the pool forgets an object. */
  datatype Step =
    | Skip(client: nat)
    | Refuse(call: CallId, why: Failure)
    | Post(client: nat, call: CallId, err: Option<Failure>)
    | Register(client: nat, call: CallId, wantsCallback: bool)
    | Write(call: CallId)
    | FailWrite(call: CallId)
    | Respond(client: nat, answer: Answer, pushed: bool)
    | Expire(key: Key, pushed: bool)
    | Look(call: CallId)
    | Collect(call: CallId)
    | Dismiss(call: CallId)
    | RunCallback(at: nat, finishes: bool)
    | DropSpare(call: CallId)

  function Init(): (r: State) {
    State(map[], map[], {}, Pool([], {}), map[], [], map[], map[], map[])
  }

  /** The last number a client gave out. */
  function LastNumber(s: State, client: nat): (r: nat) {
    if client in s.next then s.next[client] else 0
  }

  function RecOf(s: State, c: CallId): (r: CallRec) {
    if c in s.recs then s.recs[c] else Blank()
  }

  function PastOf(s: State, k: Key): (r: Past) {
    if k in s.past then s.past[k] else Past(0, [], [])
  }

  /** The call is registered but `WriteMsg` has not returned. */
  ghost predicate BeingWritten(s: State, k: Key) {
    exists c :: c in s.hold && s.hold[c] == Registered(k)
  }

  /** What the surroundings promise: peers answer only what was written to them, and a request is written long
      before its own timeout. Answers are otherwise arbitrary: late, repeated or made up. */
  ghost predicate Enabled(s: State, step: Step) {
    match step
    case Skip(_) => true
    case Refuse(c, _) => s.pool.Gives(c, c in s.recs)
    case Post(_, c, _) => s.pool.Gives(c, c in s.recs)
    case Register(_, c, _) => s.pool.Gives(c, c in s.recs)
    case Write(c) => c in s.hold && s.hold[c].Registered?
    case FailWrite(c) => c in s.hold && s.hold[c].Registered?
    case Respond(client, a, _) => !BeingWritten(s, Key(client, a.number))
    case Expire(k, _) => k in s.timers && !BeingWritten(s, k)
    case Look(c) => c in s.hold && s.hold[c].Returned?
    case Collect(c) => c in s.hold && s.hold[c].Blocked? && RecOf(s, c).done != []
    case Dismiss(c) => c in s.hold && (s.hold[c].Refused? || s.hold[c].Posted?)
    case RunCallback(at, _) => at < |s.queue|
    case DropSpare(c) => c in s.pool.spare
  }

  /** `Get` marks the call as used and hands it out. */
  function Take(s: State, c: CallId, hold: Hold): (t: State)
    ensures t.past == s.past && t.pending == s.pending && t.next == s.next && t.timers == s.timers
    ensures t.hold == s.hold[c := hold] && c in t.recs
  {
    s.(pool := s.pool.Without(c), recs := s.recs[c := RecOf(s, c).(ref := true)], hold := s.hold[c := hold])
  }

  /** `Put` unmarks and clears the call and keeps it. */
  function GiveBack(s: State, c: CallId): (t: State)
    ensures t.past == s.past && t.pending == s.pending && t.next == s.next && t.timers == s.timers
    ensures t.hold == s.hold - {c}
  {
    s.(pool := s.pool.With(c), recs := s.recs[c := Cleared(RecOf(s, c).(ref := false))], hold := s.hold - {c})
  }

  /** A completed call goes down its done channel, or to its handler when the handler's channel has room. */
  function HandOver(s: State, c: CallId, err: Option<Failure>, pushed: bool): (t: State)
    ensures t.past == s.past && t.pending == s.pending && t.next == s.next && t.timers == s.timers
    ensures pushed ==> forall d :: d in t.hold && t.hold[d].Lost? ==> d in s.hold && s.hold[d].Lost?
  {
    var r := RecOf(s, c);
    var out := s.(recs := s.recs[c := Finished(r, c, err)]);
    if r.callback.None? then out
    else if pushed then out.(queue := s.queue + [c], hold := s.hold[c := Queued(r.callback.value)])
    else out.(hold := s.hold[c := Lost(r.callback.value)])
  }

  function Ended(s: State, k: Key, err: Option<Failure>): (t: State)
    ensures t.pending == s.pending && t.hold == s.hold && t.next == s.next
  {
    s.(past := s.past[k := PastOf(s, k).(ends := PastOf(s, k).ends + [Outcome(err, Lookup(s.cells, k))])])
  }

  function Told(s: State, k: Key, o: Outcome): (t: State)
    ensures t.pending == s.pending && t.hold == s.hold && t.next == s.next
  {
    s.(past := s.past[k := PastOf(s, k).(told := PastOf(s, k).told + [o])])
  }

  /** The reader's branch for an answer whose number is pending. */
  function Answered(s: State, k: Key, a: Answer, pushed: bool): (r: State)
    requires k in s.pending
  {
    var c := s.pending[k];
    var r := RecOf(s, c);
    var cells := if Written(a.body).Some? && r.reply.Some? then s.cells[r.reply.value := Written(a.body).value]
                 else s.cells;
    Ended(HandOver(s.(pending := s.pending - {k}, cells := cells), c, ErrOf(a), pushed), k, ErrOf(a))
  }

  /** The timeout handler's branch for a number that is pending; it removes the number found in the call. */
  function Expired(s: State, k: Key, pushed: bool): (r: State)
    requires k in s.pending
  {
    var c := s.pending[k];
    var err := Some(TookTooLong);
    Ended(HandOver(s.(pending := s.pending - {Key(k.client, RecOf(s, c).number)}), c, err, pushed), k, err)
  }

  /** The caller of a call held under key `k` sees the error in call `seen` and its own reply variable. */
  function Released(s: State, c: CallId, k: Key, seen: CallId): (r: State) {
    GiveBack(Told(s, k, Outcome(RecOf(s, seen).err, Lookup(s.cells, k))), c)
  }

  /** `WriteMsg` failed: the registration is undone; an asynchronous call is released and its caller told, a
      synchronous one is returned with the error in it. */
  function WriteFailed(s: State, c: CallId, k: Key): (r: State) {
    var r := RecOf(s, c);
    var out := Ended(s.(pending := s.pending - {Key(k.client, r.number)}), k, Some(Unsent));
    if r.callback.Some? then
      GiveBack(Told(out, k, Outcome(Some(Unsent), Lookup(s.cells, k))), c)
    else
      out.(recs := out.recs[c := r.(number := 0, err := Some(Unsent))], hold := out.hold[c := Refused(Some(k))])
  }

  /** The handler takes a finished call off its channel and runs the callback, which may panic. */
  function CalledBack(s: State, at: nat, finishes: bool): (r: State)
    requires at < |s.queue|
  {
    var c := s.queue[at];
    var out := s.(queue := s.queue[..at] + s.queue[at + 1..]);
    var r := RecOf(s, c);
    if r.callback.None? || r.reply.None? then out
    else
      var done := Told(out, r.callback.value, Outcome(r.err, Lookup(s.cells, r.reply.value)));
      if finishes then GiveBack(done, c) else done.(hold := done.hold[c := Lost(r.callback.value)])
  }

  ghost function Apply(s: State, step: Step): (r: State)
    requires Enabled(s, step)
  {
    match step
    case Skip(client) =>
      s.(next := s.next[client := LastNumber(s, client) + 1])
    case Refuse(c, why) =>
      var out := Take(s, c, Refused(None));
      out.(recs := out.recs[c := out.recs[c].(number := 0, err := Some(why))])
    case Post(client, c, err) =>
      var out := Take(s.(next := s.next[client := LastNumber(s, client) + 1]), c, Posted);
      out.(recs := out.recs[c := out.recs[c].(number := if err.Some? then 0 else LastNumber(s, client) + 1, err := err)])
    case Register(client, c, wantsCallback) =>
      var k := Key(client, LastNumber(s, client) + 1);
      var out := Take(s.(next := s.next[client := k.number]), c, Registered(k));
      out.(recs := out.recs[c := out.recs[c].(number := k.number, reply := Some(k),
                                              callback := if wantsCallback then Some(k) else None)],
           pending := s.pending[k := c], timers := s.timers + {k}, past := s.past[k := Past(c, [], [])])
    case Write(c) =>
      var k := s.hold[c].key;
      s.(hold := s.hold[c := if RecOf(s, c).callback.Some? then Outstanding(k) else Returned(k)])
    case FailWrite(c) => WriteFailed(s, c, s.hold[c].key)
    case Respond(client, a, pushed) =>
      var k := Key(client, a.number);
      if k in s.pending then Answered(s, k, a, pushed) else s
    case Expire(k, pushed) =>
      var out := s.(timers := s.timers - {k});
      if k in s.pending then Expired(out, k, pushed) else out
    case Look(c) =>
      var k := s.hold[c].key;
      if RecOf(s, c).err.Some? then Released(s, c, k, c) else s.(hold := s.hold[c := Blocked(k)])
    case Collect(c) =>
      var received := RecOf(s, c).done[0];
      var out := s.(recs := s.recs[c := RecOf(s, c).(done := RecOf(s, c).done[1..])]);
      Released(out, c, s.hold[c].key, received)
    case Dismiss(c) =>
      match s.hold[c] {
        case Refused(Some(k)) => Released(s, c, k, c)
        case _ => GiveBack(s, c)
      }
    case RunCallback(at, finishes) => CalledBack(s, at, finishes)
    case DropSpare(c) =>
      s.(pool := Pool(s.pool.free, s.pool.spare - {c}))
  }
}
