/** The calls on top of the wheels can always go on too (jrpc/rpcclient.go with jtimer/timescheduler.go): whatever is
    under way, finitely many steps let the clock advance, so the bound of 15 s is not met by standing still. */
module DeadlineProgress {
  import opened Collections
  import R = RpcMachine
  import opened RpcSafety
  import opened Deadlines
  import WP = WheelProgress

  /** The actions lead from one state of the whole system to another. */
  ghost predicate Leads(y: System, actions: seq<Action>, z: System)
    decreases |actions|
  {
    if actions == [] then y == z
    else Enabled(y, actions[0]) && Leads(Apply(y, actions[0]), actions[1..], z)
  }

  lemma {:induction false} LeadsOn(y: System, a: seq<Action>, z: System, b: seq<Action>, u: System)
    requires Leads(y, a, z) && Leads(z, b, u)
    ensures Leads(y, a + b, u)
    decreases |a|
  {
    hide Enabled, Apply;
    if a == [] {
      assert a + b == b;
    } else {
      LeadsOn(Apply(y, a[0]), a[1..], z, b, u);
      assert (a + b)[1..] == a[1..] + b;
    }
  }

  lemma LeadsOne(y: System, a: Action)
    requires Enabled(y, a)
    ensures Leads(y, [a], Apply(y, a))
  {
    hide Enabled, Apply;
    assert [a][1..] == [];
    assert Leads(Apply(y, a), [], Apply(y, a));
  }

  lemma TickTakes(y: System, op: T.Op)
    requires T.WellFormed(y.clock) && T.Enabled(y.clock, op) && WP.Work(op)
    ensures Enabled(y, Tick(op)) && Apply(y, Tick(op)).clock == T.Apply(y.clock, op)
  {
    hide T.WellFormed, T.Enabled, T.Apply;
  }

  /** What the wheels do by themselves they can do below the calls. */
  lemma {:induction false} WorkBelow(y: System, ops: seq<T.Op>, t: T.Sched) returns (actions: seq<Action>, z: System)
    requires SystemOk(y) && WP.Leads(y.clock, ops, t) && WP.AllWork(ops)
    ensures Leads(y, actions, z) && SystemOk(z) && z.clock == t
    decreases |ops|
  {
    hide SystemOk, Enabled, Apply, T.WellFormed, T.Enabled, T.Apply;
    if ops == [] {
      actions, z := [], y;
    } else {
      TickTakes(y, ops[0]);
      ActionOk(y, Tick(ops[0]));
      LeadsOne(y, Tick(ops[0]));
      var more;
      more, z := WorkBelow(Apply(y, Tick(ops[0])), ops[1..], t);
      LeadsOn(y, [Tick(ops[0])], Apply(y, Tick(ops[0])), more, z);
      actions := [Tick(ops[0])] + more;
    }
  }

  /** The write of a call comes to its end. */
  lemma WriteEnds(y: System, k: R.Key, c: R.CallId)
    requires SystemOk(y) && c in y.calls.hold && y.calls.hold[c] == R.Registered(k)
    ensures Enabled(y, Call(R.Write(c)))
    ensures var z := Apply(y, Call(R.Write(c)));
            z.clock == y.clock && z.triggered == y.triggered && !R.BeingWritten(z.calls, k)
  {
    hide WT.Good, TimerOk, KeysOk;
    forall d | d in y.calls.hold && y.calls.hold[d] == R.Registered(k) ensures d == c {
      WritersKey(y.calls, k, c);
      WritersKey(y.calls, k, d);
    }
  }

  lemma WritersKey(s: R.State, k: R.Key, c: R.CallId)
    requires Inv(s) && c in s.hold && s.hold[c] == R.Registered(k)
    ensures k in s.past && s.past[k].owner == c
  {
    assert HoldOk(s, c) && KeyOk(s, k);
    HeldKeyIsOwned(s, c);
  }

  /** A triggered timeout can be handled once no write of its call is under way. */
  lemma TimeoutTakes(y: System, k: R.Key)
    requires SystemOk(y) && k in y.triggered && !R.BeingWritten(y.calls, k)
    ensures Enabled(y, Timeout(k, true))
    ensures var z := Apply(y, Timeout(k, true)); z.clock == y.clock && z.triggered == y.triggered - {k}
  {
    hide WT.Good, Inv, KeysOk;
    assert TimerOk(y, k);
  }

  /** All triggered timeouts can be handled. */
  lemma {:induction false} HandleAll(y: System) returns (actions: seq<Action>, z: System)
    requires SystemOk(y)
    ensures Leads(y, actions, z) && SystemOk(z) && z.clock == y.clock && z.triggered == {}
    decreases |y.triggered|
  {
    hide SystemOk, Enabled, Apply, R.BeingWritten;
    if y.triggered == {} {
      actions, z := [], y;
    } else {
      var k := OneOf(y.triggered);
      var written;
      actions, written := NotBeingWritten(y, k);
      TimeoutTakes(written, k);
      LeadsOne(written, Timeout(k, true));
      ActionOk(written, Timeout(k, true));
      var handled, more := Apply(written, Timeout(k, true)), [];
      LeadsOn(y, actions, written, [Timeout(k, true)], handled);
      more, z := HandleAll(handled);
      LeadsOn(y, actions + [Timeout(k, true)], handled, more, z);
      actions := actions + [Timeout(k, true)] + more;
    }
  }

  lemma NotBeingWritten(y: System, k: R.Key) returns (actions: seq<Action>, z: System)
    requires SystemOk(y)
    ensures Leads(y, actions, z) && SystemOk(z) && z.clock == y.clock && z.triggered == y.triggered
    ensures !R.BeingWritten(z.calls, k)
  {
    hide SystemOk, Enabled, Apply;
    actions, z := [], y;
    if c :| c in y.calls.hold && y.calls.hold[c] == R.Registered(k) {
      WriteEnds(y, k, c);
      LeadsOne(y, Call(R.Write(c)));
      ActionOk(y, Call(R.Write(c)));
      actions, z := [Call(R.Write(c))], Apply(y, Call(R.Write(c)));
    }
  }

  lemma ClockOf(y: System)
    requires SystemOk(y)
    ensures WT.Good(y.clock)
  {
    hide WT.Good;
  }

  lemma AdvanceTakes(y: System)
    requires T.WellFormed(y.clock) && T.Enabled(y.clock, T.Advance(1)) && y.triggered == {}
    ensures Enabled(y, Tick(T.Advance(1))) && Apply(y, Tick(T.Advance(1))).clock.now == y.clock.now + 1
  {
    WP.AdvancedBy(y.clock, 1);
    hide T.WellFormed, T.Enabled, T.Apply;
  }

  /** From every state that meets the invariant of Deadlines, so from every reachable one, the clock can go on. */
  lemma SystemGoesOn(y: System) returns (actions: seq<Action>, z: System)
    requires SystemOk(y) && y.clock.now >= 0 && y.clock.gap >= 1
    ensures Leads(y, actions, z) && SystemOk(z) && z.clock.now == y.clock.now + 1
  {
    hide SystemOk, Enabled, Apply, T.WellFormed, T.Enabled, T.Apply, WT.Good;
    ClockOf(y);
    var work, t := WP.WorkEnds(y.clock);
    var worked, handled, more;
    actions, worked := WorkBelow(y, work, t);
    more, handled := HandleAll(worked);
    LeadsOn(y, actions, worked, more, handled);
    AdvanceTakes(handled);
    LeadsOne(handled, Tick(T.Advance(1)));
    ActionOk(handled, Tick(T.Advance(1)));
    z := Apply(handled, Tick(T.Advance(1)));
    LeadsOn(y, actions + more, handled, [Tick(T.Advance(1))], z);
    actions := actions + more + [Tick(T.Advance(1))];
  }
}
