/** What every step of the remote calls keeps, and what follows for every run. */
module RpcSafety {
  import opened Collections
  import opened CallSpec
  import opened RpcMachine

  // Part 1: The invariant.

  /** A call in the pool is unused and carries nothing over from its last use. */
  ghost predicate Idle(s: State, c: CallId) {
    c in s.recs && s.recs[c] == Blank()
  }

  ghost predicate PoolOk(s: State) {
    && (forall i, j :: 0 <= i < j < |s.pool.free| ==> s.pool.free[i] != s.pool.free[j])
    && (forall c :: c in s.pool.free ==> Idle(s, c) && c !in s.pool.spare)
    && (forall c :: c in s.pool.spare ==> Idle(s, c))
    && (forall c :: c in s.hold <==> c in s.recs && s.recs[c].ref)
  }

  ghost predicate QueueOk(s: State) {
    && (forall i, j :: 0 <= i < j < |s.queue| ==> s.queue[i] != s.queue[j])
    && (forall c :: c in s.queue <==> c in s.hold && s.hold[c].Queued?)
  }

  /** Under key `k` the call `c` waits for its completion, with nothing in its done channel. */
  ghost predicate Open(s: State, k: Key, c: CallId) {
    && k in s.pending && s.pending[k] == c
    && var r := RecOf(s, c);
       && r.number == k.number && r.err == None && r.reply == Some(k) && r.done == []
       && (r.callback == None || r.callback == Some(k))
  }

  /** The call `c` carries exactly the one outcome recorded for `k`. */
  ghost predicate Over(s: State, k: Key, c: CallId) {
    k !in s.pending && PastOf(s, k).ends == [Outcome(RecOf(s, c).err, Lookup(s.cells, k))]
  }

  ghost predicate Untold(s: State, k: Key, c: CallId) {
    k in s.past && s.past[k].owner == c && s.past[k].told == []
  }

  ghost predicate HoldOk(s: State, c: CallId)
    requires c in s.hold
  {
    var r := RecOf(s, c);
    match s.hold[c]
    case Refused(None) => r.done == []
    case Refused(Some(k)) => r.done == [] && Over(s, k, c) && Untold(s, k, c)
    case Posted => r.done == []
    case Registered(k) => Open(s, k, c) && Untold(s, k, c)
    case Returned(k) => Untold(s, k, c) && r.callback == None && (Open(s, k, c) || (Over(s, k, c) && r.done == [c]))
    case Blocked(k) => Untold(s, k, c) && r.callback == None && (Open(s, k, c) || (Over(s, k, c) && r.done == [c]))
    case Outstanding(k) => Open(s, k, c) && Untold(s, k, c) && r.callback == Some(k)
    case Queued(k) => Over(s, k, c) && Untold(s, k, c) && r.callback == Some(k) && r.reply == Some(k)
    case Lost(k) => k !in s.pending && k in s.past && s.past[k].owner == c
  }

  ghost predicate Holder(s: State, k: Key, c: CallId) {
    && c in s.hold
    && (s.hold[c] == Registered(k) || s.hold[c] == Returned(k) || s.hold[c] == Blocked(k) || s.hold[c] == Outstanding(k))
  }

  /** A registered call is pending and has no completion, or is not pending and has exactly one. */
  ghost predicate KeyOk(s: State, k: Key) {
    && (k in s.pending ==> Holder(s, k, s.pending[k]) && k in s.timers && k in s.past && k !in s.cells)
    && (k in s.timers ==> k in s.past)
    && (k in s.cells ==> k in s.past)
    && (k in s.past ==>
          && 1 <= k.number <= LastNumber(s, k.client)
          && |s.past[k].ends| == (if k in s.pending then 0 else 1)
          && (s.past[k].told == [] || s.past[k].told == s.past[k].ends))
  }

  ghost predicate Inv(s: State) {
    && PoolOk(s)
    && QueueOk(s)
    && (forall c :: c in s.hold ==> HoldOk(s, c))
    && (forall k :: KeyOk(s, k))
  }

  // Part 2: One step touches one call and one key.

  function KeyOf(h: Hold): (r: Option<Key>) {
    match h
    case Refused(k) => k
    case Posted => None
    case _ => Some(h.key)
  }

  ghost predicate SameKey(s: State, t: State, k: Key) {
    && Lookup(s.pending, k) == Lookup(t.pending, k) && Lookup(s.past, k) == Lookup(t.past, k)
    && Lookup(s.cells, k) == Lookup(t.cells, k)
  }

  ghost predicate SameCall(s: State, t: State, c: CallId) {
    Lookup(s.hold, c) == Lookup(t.hold, c) && RecOf(s, c) == RecOf(t, c)
  }

  ghost predicate TouchesOnly(s: State, t: State, c: CallId, k: Key) {
    && (forall other :: other != c ==> SameCall(s, t, other))
    && (forall other :: other != k ==> SameKey(s, t, other) && (other in s.timers <==> other in t.timers))
    && (forall client :: LastNumber(s, client) <= LastNumber(t, client))
  }

  lemma HoldFrame(s: State, t: State, c: CallId)
    requires c in s.hold && HoldOk(s, c) && SameCall(s, t, c)
    requires KeyOf(s.hold[c]).Some? ==> SameKey(s, t, KeyOf(s.hold[c]).value)
    ensures c in t.hold && HoldOk(t, c)
  {
  }

  lemma KeyFrame(s: State, t: State, k: Key)
    requires KeyOk(s, k) && SameKey(s, t, k) && LastNumber(s, k.client) <= LastNumber(t, k.client)
    requires k in s.pending ==> SameCall(s, t, s.pending[k])
    requires k in s.timers <==> k in t.timers
    ensures KeyOk(t, k)
  {
  }

  lemma HeldKeyIsOwned(s: State, c: CallId)
    requires c in s.hold && HoldOk(s, c) && KeyOf(s.hold[c]).Some?
    requires KeyOk(s, KeyOf(s.hold[c]).value)
    ensures KeyOf(s.hold[c]).value in s.past && s.past[KeyOf(s.hold[c]).value].owner == c
  {
  }

  lemma TouchKeeps(s: State, t: State, c: CallId, k: Key)
    requires Inv(s) && TouchesOnly(s, t, c, k)
    requires k in s.past ==> s.past[k].owner == c
    requires c in s.hold ==> KeyOf(s.hold[c]) in {None, Some(k)}
    requires PoolOk(t) && QueueOk(t) && KeyOk(t, k) && (c in t.hold ==> HoldOk(t, c))
    ensures Inv(t)
  {
    hide PoolOk, QueueOk, HoldOk, KeyOk, SameKey, LastNumber;
    forall other | other in t.hold ensures HoldOk(t, other) {
      if other != c {
        assert SameCall(s, t, other);
        assert HoldOk(s, other);
        if KeyOf(s.hold[other]).Some? {
          assert KeyOk(s, KeyOf(s.hold[other]).value);
          HeldKeyIsOwned(s, other);
        }
        HoldFrame(s, t, other);
      }
    }
    forall other ensures KeyOk(t, other) {
      if other != k {
        assert KeyOk(s, other);
        if other in s.pending { PendingIsHeld(s, other); }
        KeyFrame(s, t, other);
      }
    }
  }

  lemma PendingIsHeld(s: State, k: Key)
    requires KeyOk(s, k) && k in s.pending
    ensures s.pending[k] in s.hold && KeyOf(s.hold[s.pending[k]]) == Some(k)
  {
  }

  lemma TakenPoolOk(s: State, t: State, c: CallId)
    requires PoolOk(s) && s.pool.Gives(c, c in s.recs)
    requires t.pool == s.pool.Without(c) && (c in t.recs && t.recs[c].ref) && c in t.hold
    requires t.recs == s.recs[c := t.recs[c]] && t.hold.Keys == s.hold.Keys + {c}
    ensures PoolOk(t)
    ensures c !in s.hold && RecOf(s, c) == Blank()
  {
    assert c in s.recs ==> s.pool.Holds(c) && Idle(s, c);
    forall other | t.pool.Holds(other) ensures other != c && Idle(t, other) {
      assert s.pool.Holds(other) && Idle(s, other);
    }
    forall other ensures other in t.hold <==> other in t.recs && t.recs[other].ref {
      assert other in t.hold <==> other in t.hold.Keys;
      assert other in s.hold <==> other in s.hold.Keys;
    }
  }

  lemma HeldIsNotPooled(s: State, c: CallId)
    requires PoolOk(s) && c in s.hold
    ensures c in s.recs && s.recs[c].ref && !s.pool.Holds(c)
  {
    assert s.pool.Holds(c) ==> Idle(s, c);
  }

  lemma GivenPoolOk(s: State, t: State, c: CallId)
    requires PoolOk(s) && c in s.hold
    requires t.pool == s.pool.With(c)
    requires t.recs == s.recs[c := Blank()] && t.hold.Keys == s.hold.Keys - {c}
    ensures PoolOk(t)
  {
    HeldIsNotPooled(s, c);
    forall other | t.pool.Holds(other) ensures Idle(t, other) {
      assert other != c ==> s.pool.Holds(other) && Idle(s, other);
    }
    forall other ensures other in t.hold <==> other in t.recs && t.recs[other].ref {
      assert other in t.hold <==> other in t.hold.Keys;
      assert other in s.hold <==> other in s.hold.Keys;
    }
  }

  lemma KeptPoolOk(s: State, t: State, c: CallId)
    requires PoolOk(s) && c in s.hold
    requires t.pool == s.pool && c in t.recs && t.recs[c].ref
    requires t.recs == s.recs[c := t.recs[c]] && t.hold.Keys == s.hold.Keys
    ensures PoolOk(t)
  {
    HeldIsNotPooled(s, c);
    forall other | t.pool.Holds(other) ensures Idle(t, other) {
      assert Idle(s, other);
    }
    forall other ensures other in t.hold <==> other in t.recs && t.recs[other].ref {
      assert other in t.hold <==> other in t.hold.Keys;
      assert other in s.hold <==> other in s.hold.Keys;
    }
  }

  lemma SameQueueOk(s: State, t: State, c: CallId)
    requires QueueOk(s) && t.queue == s.queue
    requires forall other :: other != c ==> Lookup(s.hold, other) == Lookup(t.hold, other)
    requires c in s.hold ==> !s.hold[c].Queued?
    requires c in t.hold ==> !t.hold[c].Queued?
    ensures QueueOk(t)
  {
    forall other ensures other in t.queue <==> other in t.hold && t.hold[other].Queued? {
      assert other != c ==> Lookup(s.hold, other) == Lookup(t.hold, other);
    }
  }

  // Part 3: Every step keeps the invariant.

  const NOBODY := Key(0, 0)

  lemma NobodyIsFine(s: State)
    requires Inv(s)
    ensures KeyOk(s, NOBODY) && NOBODY !in s.past && NOBODY !in s.pending && NOBODY !in s.timers && NOBODY !in s.cells
  {
    assert KeyOk(s, NOBODY);
  }

  lemma RefuseKeeps(s: State, c: CallId, why: Failure)
    requires Inv(s) && Enabled(s, Refuse(c, why))
    ensures Inv(Apply(s, Refuse(c, why)))
  {
    hide QueueOk, PoolOk;
    var t := Apply(s, Refuse(c, why));
    NobodyIsFine(s);
    TakenPoolOk(s, t, c);
    SameQueueOk(s, t, c);
    KeyFrame(s, t, NOBODY);
    TouchKeeps(s, t, c, NOBODY);
  }

  lemma RegisterLocal(s: State, client: nat, c: CallId, wantsCallback: bool)
    requires Inv(s) && Enabled(s, Register(client, c, wantsCallback)) && RecOf(s, c) == Blank()
    ensures var k := Key(client, LastNumber(s, client) + 1);
            var t := Apply(s, Register(client, c, wantsCallback));
            KeyOk(t, k) && c in t.hold && HoldOk(t, c) && k !in s.past
  {
    assert KeyOk(s, Key(client, LastNumber(s, client) + 1));
  }

  lemma RegisterTouches(s: State, client: nat, c: CallId, wantsCallback: bool)
    requires Enabled(s, Register(client, c, wantsCallback))
    ensures TouchesOnly(s, Apply(s, Register(client, c, wantsCallback)), c, Key(client, LastNumber(s, client) + 1))
  {
  }

  lemma RegisterKeeps(s: State, client: nat, c: CallId, wantsCallback: bool)
    requires Inv(s) && Enabled(s, Register(client, c, wantsCallback))
    ensures Inv(Apply(s, Register(client, c, wantsCallback)))
  {
    hide QueueOk, PoolOk, HoldOk, KeyOk, TouchesOnly;
    var t := Apply(s, Register(client, c, wantsCallback));
    TakenPoolOk(s, t, c);
    RegisterTouches(s, client, c, wantsCallback);
    RegisterLocal(s, client, c, wantsCallback);
    SameQueueOk(s, t, c);
    TouchKeeps(s, t, c, Key(client, LastNumber(s, client) + 1));
  }

  lemma PostKeeps(s: State, client: nat, c: CallId, err: Option<Failure>)
    requires Inv(s) && Enabled(s, Post(client, c, err))
    ensures Inv(Apply(s, Post(client, c, err)))
  {
    hide QueueOk, PoolOk;
    var t := Apply(s, Post(client, c, err));
    NobodyIsFine(s);
    TakenPoolOk(s, t, c);
    SameQueueOk(s, t, c);
    KeyFrame(s, t, NOBODY);
    TouchKeeps(s, t, c, NOBODY);
  }

  lemma WriteKeeps(s: State, c: CallId)
    requires Inv(s) && Enabled(s, Write(c))
    ensures Inv(Apply(s, Write(c)))
  {
    hide QueueOk, PoolOk;
    var t := Apply(s, Write(c));
    var k := s.hold[c].key;
    assert HoldOk(s, c) && KeyOk(s, k);
    HeldIsNotPooled(s, c);
    KeptPoolOk(s, t, c);
    SameQueueOk(s, t, c);
    TouchKeeps(s, t, c, k);
  }

  lemma FailWriteLocal(s: State, c: CallId)
    requires Inv(s) && Enabled(s, FailWrite(c))
    ensures var t := Apply(s, FailWrite(c));
            var k := s.hold[c].key;
            && k in s.past && s.past[k].owner == c && KeyOk(t, k) && TouchesOnly(s, t, c, k)
            && (c in t.hold ==> HoldOk(t, c))
  {
    hide QueueOk, PoolOk;
    var k := s.hold[c].key;
    assert HoldOk(s, c) && KeyOk(s, k);
    HeldIsNotPooled(s, c);
    NoEndYet(s, s.cells, k, Some(Unsent));
  }

  lemma FailWriteKeeps(s: State, c: CallId)
    requires Inv(s) && Enabled(s, FailWrite(c))
    ensures Inv(Apply(s, FailWrite(c)))
  {
    hide QueueOk, PoolOk, HoldOk, KeyOk, TouchesOnly;
    var t := Apply(s, FailWrite(c));
    HeldIsNotPooled(s, c);
    FailWriteLocal(s, c);
    if RecOf(s, c).callback.Some? { GivenPoolOk(s, t, c); } else { KeptPoolOk(s, t, c); }
    SameQueueOk(s, t, c);
    TouchKeeps(s, t, c, s.hold[c].key);
  }

  /** What completing a pending call does to it, by an answer or by its timer. */
  ghost predicate Completes(s: State, t: State, k: Key, c: CallId)
    requires k in s.pending
  {
    && s.pending[k] == c && c in s.hold && KeyOf(s.hold[c]) == Some(k)
    && k in s.past && s.past[k].owner == c && s.past[k].ends == [] && s.past[k].told == []
    && t.pending == s.pending - {k} && t.pool == s.pool && t.next == s.next
    && (forall other :: other != k ==> Lookup(t.cells, other) == Lookup(s.cells, other))
    && t.timers <= s.timers && s.timers - {k} <= t.timers
    && t.recs == s.recs[c := Finished(RecOf(s, c), c, RecOf(t, c).err)]
    && t.past == s.past[k := s.past[k].(ends := [Outcome(RecOf(t, c).err, Lookup(t.cells, k))])]
    && if RecOf(s, c).callback.None? then t.hold == s.hold && t.queue == s.queue
       else
         || (t.hold == s.hold[c := Queued(k)] && t.queue == s.queue + [c])
         || (t.hold == s.hold[c := Lost(k)] && t.queue == s.queue)
  }

  lemma PendingIsOpen(s: State, k: Key)
    requires Inv(s) && k in s.pending
    ensures Holder(s, k, s.pending[k]) && Open(s, k, s.pending[k]) && Untold(s, k, s.pending[k])
    ensures s.past[k].ends == [] && k in s.timers && k !in s.cells
    ensures s.pending[k] in s.recs && s.recs[s.pending[k]].ref
  {
    assert KeyOk(s, k);
    assert HoldOk(s, s.pending[k]);
    HeldIsNotPooled(s, s.pending[k]);
  }

  lemma NoEndYet(s: State, cells: map<Key, nat>, k: Key, err: Option<Failure>)
    requires PastOf(s, k).ends == []
    ensures PastOf(s, k).ends + [Outcome(err, Lookup(cells, k))] == [Outcome(err, Lookup(cells, k))]
  {
  }

  lemma RespondCompletes(s: State, client: nat, a: Answer, pushed: bool)
    requires Inv(s) && Enabled(s, Respond(client, a, pushed)) && Key(client, a.number) in s.pending
    ensures var k := Key(client, a.number);
            Completes(s, Apply(s, Respond(client, a, pushed)), k, s.pending[k])
  {
    hide QueueOk, PoolOk;
    var k := Key(client, a.number);
    PendingIsOpen(s, k);
    NoEndYet(s, Apply(s, Respond(client, a, pushed)).cells, k, ErrOf(a));
  }

  lemma ExpireCompletes(s: State, k: Key, pushed: bool)
    requires Inv(s) && Enabled(s, Expire(k, pushed)) && k in s.pending
    ensures Completes(s, Apply(s, Expire(k, pushed)), k, s.pending[k])
  {
    hide QueueOk, PoolOk;
    PendingIsOpen(s, k);
    NoEndYet(s, Apply(s, Expire(k, pushed)).cells, k, Some(TookTooLong));
  }

  lemma CompletedLocal(s: State, t: State, k: Key, c: CallId)
    requires Inv(s) && k in s.pending && Completes(s, t, k, c) && !s.hold[c].Registered?
    ensures KeyOk(t, k) && c in t.hold && HoldOk(t, c) && !s.hold[c].Queued?
    ensures c in t.recs && t.recs[c].ref
  {
    hide QueueOk;
    assert KeyOk(s, k);
    assert HoldOk(s, c);
    assert c in s.recs && s.recs[c].ref;
  }

  lemma CompletedKeeps(s: State, t: State, k: Key, c: CallId)
    requires Inv(s) && k in s.pending && Completes(s, t, k, c) && !s.hold[c].Registered?
    ensures Inv(t)
  {
    hide QueueOk, PoolOk, HoldOk, KeyOk;
    CompletedLocal(s, t, k, c);
    KeptPoolOk(s, t, c);
    if t.queue == s.queue { SameQueueOk(s, t, c); } else { LongerQueueOk(s, t, c); }
    TouchKeeps(s, t, c, k);
  }

  lemma PendingIsWritten(s: State, k: Key)
    requires Inv(s) && k in s.pending && !BeingWritten(s, k)
    ensures s.pending[k] in s.hold && !s.hold[s.pending[k]].Registered?
  {
    assert KeyOk(s, k);
  }

  lemma RespondKeeps(s: State, client: nat, a: Answer, pushed: bool)
    requires Inv(s) && Enabled(s, Respond(client, a, pushed))
    ensures Inv(Apply(s, Respond(client, a, pushed)))
  {
    hide Inv, Completes, BeingWritten;
    var k := Key(client, a.number);
    if k in s.pending {
      PendingIsWritten(s, k);
      RespondCompletes(s, client, a, pushed);
      CompletedKeeps(s, Apply(s, Respond(client, a, pushed)), k, s.pending[k]);
    }
  }

  lemma LongerQueueOk(s: State, t: State, c: CallId)
    requires QueueOk(s) && t.queue == s.queue + [c]
    requires forall other :: other != c ==> Lookup(s.hold, other) == Lookup(t.hold, other)
    requires c in s.hold && !s.hold[c].Queued? && c in t.hold && t.hold[c].Queued?
    ensures QueueOk(t)
  {
    forall other ensures other in t.queue <==> other in t.hold && t.hold[other].Queued? {
      assert other != c ==> Lookup(s.hold, other) == Lookup(t.hold, other);
    }
  }

  /** The timer of a finished call finds its number gone. */
  lemma StaleTimerKeeps(s: State, k: Key)
    requires Inv(s) && k !in s.pending
    ensures Inv(s.(timers := s.timers - {k}))
  {
    var t := s.(timers := s.timers - {k});
    forall c | c in t.hold ensures HoldOk(t, c) {
      assert HoldOk(s, c);
      HoldFrame(s, t, c);
    }
    forall other ensures KeyOk(t, other) {
      assert KeyOk(s, other);
    }
  }

  lemma ExpireKeeps(s: State, k: Key, pushed: bool)
    requires Inv(s) && Enabled(s, Expire(k, pushed))
    ensures Inv(Apply(s, Expire(k, pushed)))
  {
    hide Inv, Completes, BeingWritten;
    if k in s.pending {
      PendingIsWritten(s, k);
      ExpireCompletes(s, k, pushed);
      CompletedKeeps(s, Apply(s, Expire(k, pushed)), k, s.pending[k]);
    } else {
      StaleTimerKeeps(s, k);
    }
  }

  lemma LookKeeps(s: State, c: CallId)
    requires Inv(s) && Enabled(s, Look(c))
    ensures Inv(Apply(s, Look(c)))
  {
    hide QueueOk, PoolOk;
    var t := Apply(s, Look(c));
    var k := s.hold[c].key;
    assert HoldOk(s, c) && KeyOk(s, k);
    HeldIsNotPooled(s, c);
    if RecOf(s, c).err.Some? {
      ReleasedKeeps(s, s, c, k, c);
    } else {
      KeptPoolOk(s, t, c);
      SameQueueOk(s, t, c);
      TouchKeeps(s, t, c, k);
    }
  }

  /** A call that is over and whose caller has not been told goes back to the pool. */
  lemma ReleasedKeeps(s: State, near: State, c: CallId, k: Key, seen: CallId)
    requires Inv(s) && c in s.hold && KeyOf(s.hold[c]) == Some(k) && !s.hold[c].Queued?
    requires Over(s, k, c) && Untold(s, k, c) && RecOf(near, seen).err == RecOf(s, c).err
    requires c in near.recs && near == s.(recs := s.recs[c := near.recs[c]])
    ensures Inv(Released(near, c, k, seen))
  {
    hide QueueOk, PoolOk, HoldOk;
    var t := Released(near, c, k, seen);
    assert KeyOk(s, k);
    GivenPoolOk(s, t, c);
    SameQueueOk(s, t, c);
    TouchKeeps(s, t, c, k);
  }

  lemma CollectKeeps(s: State, c: CallId)
    requires Inv(s) && Enabled(s, Collect(c))
    ensures Inv(Apply(s, Collect(c)))
  {
    hide QueueOk, PoolOk, Released;
    assert HoldOk(s, c);
    var near := s.(recs := s.recs[c := RecOf(s, c).(done := RecOf(s, c).done[1..])]);
    ReleasedKeeps(s, near, c, s.hold[c].key, c);
  }

  lemma PostedBackKeeps(s: State, c: CallId)
    requires Inv(s) && c in s.hold && (s.hold[c] == Posted || s.hold[c] == Refused(None))
    ensures Inv(GiveBack(s, c))
  {
    hide QueueOk, PoolOk, HoldOk;
    var t := GiveBack(s, c);
    HeldIsNotPooled(s, c);
    GivenPoolOk(s, t, c);
    SameQueueOk(s, t, c);
    NobodyIsFine(s);
    TouchKeeps(s, t, c, NOBODY);
  }

  lemma DismissKeeps(s: State, c: CallId)
    requires Inv(s) && Enabled(s, Dismiss(c))
    ensures Inv(Apply(s, Dismiss(c)))
  {
    hide QueueOk, PoolOk, Released, GiveBack;
    assert HoldOk(s, c);
    match s.hold[c]
    case Refused(Some(k)) =>
      HeldIsNotPooled(s, c);
      ReleasedKeeps(s, s, c, k, c);
    case _ =>
      PostedBackKeeps(s, c);
  }

  lemma ShorterQueueOk(s: State, t: State, at: nat)
    requires QueueOk(s) && at < |s.queue| && t.queue == s.queue[..at] + s.queue[at + 1..]
    requires forall other :: other != s.queue[at] ==> Lookup(s.hold, other) == Lookup(t.hold, other)
    requires s.queue[at] in t.hold ==> !t.hold[s.queue[at]].Queued?
    ensures QueueOk(t)
  {
    var c := s.queue[at];
    forall other ensures other in t.queue <==> other in s.queue && other != c {
      if other in s.queue && other != c {
        var i :| 0 <= i < |s.queue| && s.queue[i] == other;
        assert t.queue[if i < at then i else i - 1] == other;
      }
    }
    forall other ensures other in t.queue <==> other in t.hold && t.hold[other].Queued? {
      assert other != c ==> Lookup(s.hold, other) == Lookup(t.hold, other);
    }
  }

  lemma QueuedIsHeld(s: State, at: nat)
    requires QueueOk(s) && at < |s.queue|
    ensures s.queue[at] in s.hold && s.hold[s.queue[at]].Queued?
  {
    assert s.queue[at] in s.queue;
  }

  lemma RunCallbackLocal(s: State, at: nat, finishes: bool)
    requires Inv(s) && Enabled(s, RunCallback(at, finishes))
    ensures var t := Apply(s, RunCallback(at, finishes));
            var c := s.queue[at];
            && c in s.hold && s.hold[c].Queued?
            && var k := s.hold[c].key;
               && k in s.past && s.past[k].owner == c && KeyOk(t, k) && TouchesOnly(s, t, c, k)
               && (c in t.hold ==> HoldOk(t, c))
               && if finishes then t.hold == s.hold - {c} && t.recs == s.recs[c := Blank()] && t.pool == s.pool.With(c)
                  else t.hold == s.hold[c := Lost(k)] && t.recs == s.recs && t.pool == s.pool
  {
    hide QueueOk, PoolOk;
    QueuedIsHeld(s, at);
    var c := s.queue[at];
    assert HoldOk(s, c) && KeyOk(s, s.hold[c].key);
    HeldIsNotPooled(s, c);
  }

  lemma RunCallbackKeeps(s: State, at: nat, finishes: bool)
    requires Inv(s) && Enabled(s, RunCallback(at, finishes))
    ensures Inv(Apply(s, RunCallback(at, finishes)))
  {
    hide QueueOk, PoolOk, HoldOk, KeyOk, TouchesOnly;
    var t := Apply(s, RunCallback(at, finishes));
    var c := s.queue[at];
    RunCallbackLocal(s, at, finishes);
    HeldIsNotPooled(s, c);
    if finishes { GivenPoolOk(s, t, c); } else { KeptPoolOk(s, t, c); }
    ShorterQueueOk(s, t, at);
    TouchKeeps(s, t, c, s.hold[c].key);
  }

  lemma IdleStepKeeps(s: State, step: Step)
    requires Inv(s) && Enabled(s, step) && (step.Skip? || step.DropSpare?)
    ensures Inv(Apply(s, step))
  {
    var t := Apply(s, step);
    forall c | c in t.hold ensures HoldOk(t, c) {
      assert HoldOk(s, c);
      HoldFrame(s, t, c);
    }
    forall k ensures KeyOk(t, k) {
      assert KeyOk(s, k);
      KeyFrame(s, t, k);
    }
  }

  lemma StepKeepsInv(s: State, step: Step)
    requires Inv(s) && Enabled(s, step)
    ensures Inv(Apply(s, step))
  {
    hide Inv, Enabled, Apply;
    match step
    case Skip(_) => IdleStepKeeps(s, step);
    case Refuse(c, why) => RefuseKeeps(s, c, why);
    case Post(client, c, err) => PostKeeps(s, client, c, err);
    case Register(client, c, wants) => RegisterKeeps(s, client, c, wants);
    case Write(c) => WriteKeeps(s, c);
    case FailWrite(c) => FailWriteKeeps(s, c);
    case Respond(client, a, pushed) => RespondKeeps(s, client, a, pushed);
    case Expire(k, pushed) => ExpireKeeps(s, k, pushed);
    case Look(c) => LookKeeps(s, c);
    case Collect(c) => CollectKeeps(s, c);
    case Dismiss(c) => DismissKeeps(s, c);
    case RunCallback(at, finishes) => RunCallbackKeeps(s, at, finishes);
    case DropSpare(_) => IdleStepKeeps(s, step);
  }
}
