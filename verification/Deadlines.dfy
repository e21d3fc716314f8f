/** Remote calls on top of the timing wheels (jrpc/rpcclient.go with jtimer/timescheduler.go): every registered call
    is completed, by an answer, an error or its timeout, at most 15 s and one poll gap after it was registered.

    The scheduler and the calls interleave freely; a triggered timeout is handled before the clock moves on. */
module Deadlines {
  import opened Arithmetic
  import opened Collections
  import opened CallSpec
  import opened RpcMachine
  import opened RpcSafety
  import W = WheelSpec
  import T = WheelTiming
  import WT = WheelTheorems

  /** `keys` names the call each timer was made for, `timerOf` its inverse; `added` says when a call was
      registered; `triggered` holds the timeouts that the scheduler has handed out and nobody has handled. */
  datatype System = System(
    clock: T.Sched, calls: State, keys: map<W.TimerId, Key>, timerOf: map<Key, W.TimerId>,
    added: map<Key, int>, triggered: set<Key>)

  datatype Action =
    | Tick(op: T.Op)
    | Call(step: Step)
    | AddPending(client: nat, call: CallId, wantsCallback: bool, nano: int)
    | Timeout(key: Key, pushed: bool)

  ghost function Init(start: int, gap: nat): (r: System) {
    System(T.Init(W.StandardDials(), start, gap), RpcMachine.Init(), map[], map[], map[], {})
  }

  /** The timer of a call registered at `nano`: once, 15 s later. */
  function TimeoutOp(nano: int): (r: T.Op) {
    T.Create(nano, nano + CALL_RPC_TIMEOUT * W.NANOS_PER_MILLI, 1, CALL_RPC_TIMEOUT * W.NANOS_PER_MILLI)
  }

  /** `AddPending` drops the ids of its timers, so nobody removes them. */
  ghost predicate OpAllowed(y: System, op: T.Op) {
    && (op.Advance? ==> y.triggered == {})
    && (op.RemoveStart? ==> op.timer !in y.keys)
    && (op.RemoveStep? && op.scan in y.clock.scans ==> y.clock.scans[op.scan].id !in y.keys)
  }

  ghost predicate Enabled(y: System, a: Action) {
    match a
    case Tick(op) => T.WellFormed(y.clock) && T.Enabled(y.clock, op) && OpAllowed(y, op)
    case Call(step) => RpcMachine.Enabled(y.calls, step) && !step.Register? && !step.Expire?
    case AddPending(client, c, wants, nano) =>
      && T.WellFormed(y.clock) && T.Enabled(y.clock, TimeoutOp(nano))
      && RpcMachine.Enabled(y.calls, Register(client, c, wants))
    case Timeout(k, pushed) => k in y.triggered && RpcMachine.Enabled(y.calls, Expire(k, pushed))
  }

  /** The calls whose timers this operation of the scheduler sends down the trigger channel. */
  ghost function Triggers(y: System, op: T.Op): (r: set<Key>) {
    if op.Poll? then set id | id in op.visits && id in y.keys :: y.keys[id] else {}
  }

  ghost function Apply(y: System, a: Action): (r: System)
    requires Enabled(y, a)
  {
    match a
    case Tick(op) => y.(clock := T.Apply(y.clock, op), triggered := y.triggered + Triggers(y, op))
    case Call(step) => y.(calls := RpcMachine.Apply(y.calls, step))
    case AddPending(client, c, wants, nano) =>
      var k := Key(client, LastNumber(y.calls, client) + 1);
      var id := y.clock.idGen + 1;
      y.(clock := T.Apply(y.clock, TimeoutOp(nano)), calls := RpcMachine.Apply(y.calls, Register(client, c, wants)),
         keys := y.keys[id := k], timerOf := y.timerOf[k := id], added := y.added[k := y.clock.now])
    case Timeout(k, pushed) =>
      y.(calls := RpcMachine.Apply(y.calls, Expire(k, pushed)), triggered := y.triggered - {k})
  }

  /** The timer of a call waits in the wheels, due 15 s after the call was registered, with no slack. */
  ghost predicate TimerWaits(y: System, k: Key)
    requires k in y.timerOf && k in y.added
  {
    var id := y.timerOf[k];
    && id in y.clock.flat
    && var r := y.clock.flat[id];
       r.accepted == y.added[k] && r.slack == 0 && r.timer.unixts == y.added[k] + CALL_RPC_TIMEOUT && r.timer.times == 1
  }

  ghost predicate Ripe(y: System, k: Key)
    requires k in y.added
  {
    y.added[k] + CALL_RPC_TIMEOUT - W.MAX_TIME_DELAY < y.clock.now <= y.added[k] + CALL_RPC_TIMEOUT + y.clock.gap
  }

  ghost predicate TimerOk(y: System, k: Key) {
    && (k in y.triggered ==> k in y.calls.timers && k in y.added && Ripe(y, k))
    && (k in y.calls.timers ==>
          && k in y.timerOf && k in y.added && y.added[k] <= y.clock.now
          && (k in y.triggered || TimerWaits(y, k)))
    && (k in y.timerOf ==>
          && k.number <= LastNumber(y.calls, k.client)
          && y.timerOf[k] in y.keys && y.keys[y.timerOf[k]] == k && 1 <= y.timerOf[k] <= y.clock.idGen
          && (y.timerOf[k] in y.clock.flat ==> k in y.calls.timers && k !in y.triggered))
  }

  ghost predicate KeysOk(y: System) {
    forall id :: id in y.keys ==> 1 <= id <= y.clock.idGen && y.keys[id] in y.timerOf && y.timerOf[y.keys[id]] == id
  }

  ghost predicate SystemOk(y: System) {
    && WT.Good(y.clock) && WT.SameDials(y.clock.v.dials, W.StandardDials()) && Inv(y.calls)
    && KeysOk(y) && (forall k :: TimerOk(y, k))
  }

  // Part 1: What the scheduler's operations do to a timer that fires once.

  ghost predicate SameTimer(s: T.Sched, t: T.Sched, id: W.TimerId) {
    && (id in s.flat <==> id in t.flat)
    && (id in s.flat ==>
          && t.flat[id].accepted == s.flat[id].accepted && t.flat[id].slack == s.flat[id].slack
          && t.flat[id].timer == s.flat[id].timer)
  }

  lemma TimerKept(s: T.Sched, op: T.Op, id: W.TimerId)
    requires T.WellFormed(s) && T.Enabled(s, op) && !op.Poll? && 1 <= id <= s.idGen
    requires op.RemoveStep? && op.scan in s.scans ==> s.scans[op.scan].id != id
    ensures SameTimer(s, T.Apply(s, op), id)
  {
  }

  lemma TimerPolled(s: T.Sched, op: T.Op, id: W.TimerId)
    requires T.WellFormed(s) && T.Enabled(s, op) && op.Poll?
    requires id in s.flat && s.flat[id].timer.times == 1
    ensures id in op.visits ==> id !in T.Apply(s, op).flat
    ensures id !in op.visits ==> SameTimer(s, T.Apply(s, op), id)
  {
    T.PollIsOp(s, op.nano, op.visits);
    hide T.Apply, T.Enabled;
    if id in op.visits {
      assert W.VisitsOk(s.v.dials, 0, T.LeafSlot(s)[id], s.now, op.nano, op.visits[id]);
    }
  }

  lemma PolledIsDue(s: T.Sched, op: T.Op, id: W.TimerId)
    requires WT.Good(s) && T.Enabled(s, op) && op.Poll? && id in op.visits
    ensures id in s.flat && s.flat[id].timer.unixts - s.now < W.MAX_TIME_DELAY
    ensures s.now <= s.flat[id].Deadline() + s.gap
  {
    WT.VisitedIsPending(s, op.nano, op.visits, id) by { T.PollIsOp(s, op.nano, op.visits); }
    assert T.RecOk(s, s.flat[id]);
  }

  lemma OpFrame(s: T.Sched, op: T.Op)
    requires T.WellFormed(s) && T.Enabled(s, op)
    ensures var t := T.Apply(s, op);
            && t.gap == s.gap && s.idGen <= t.idGen && s.now <= t.now
            && (!op.Advance? ==> t.now == s.now)
            && (op.Create? ==> t.idGen == s.idGen + 1)
  {
  }

  lemma NumbersGrow(s: State, step: Step, client: nat)
    requires RpcMachine.Enabled(s, step)
    ensures LastNumber(s, client) <= LastNumber(RpcMachine.Apply(s, step), client)
  {
    hide BeingWritten, GiveBack, HandOver, Take, RecOf, PastOf, Lookup, Ended, Told;
  }

  lemma TimersKept(s: State, step: Step)
    requires RpcMachine.Enabled(s, step) && !step.Register? && !step.Expire?
    ensures RpcMachine.Apply(s, step).timers == s.timers
  {
    hide BeingWritten, GiveBack, HandOver, Take, RecOf, PastOf, Lookup, LastNumber;
  }

  lemma ExpireUsesTimer(s: State, k: Key, pushed: bool)
    requires RpcMachine.Enabled(s, Expire(k, pushed))
    ensures RpcMachine.Apply(s, Expire(k, pushed)).timers == s.timers - {k}
  {
    hide BeingWritten, HandOver, RecOf, PastOf, Lookup;
  }

  lemma RegisterAddsTimer(s: State, client: nat, c: CallId, wants: bool)
    requires Inv(s) && RpcMachine.Enabled(s, Register(client, c, wants))
    ensures var k := Key(client, LastNumber(s, client) + 1);
            RpcMachine.Apply(s, Register(client, c, wants)).timers == s.timers + {k} && k !in s.timers
            && k.number > LastNumber(s, client)
            && LastNumber(RpcMachine.Apply(s, Register(client, c, wants)), client) == k.number
  {
    hide PoolOk, QueueOk, HoldOk, Take;
    assert KeyOk(s, Key(client, LastNumber(s, client) + 1));
  }

  // Part 2: Every action keeps the timers of the calls in order.

  /** Nothing that concerns `k` and its timer changes but that time may pass while `k` is not triggered. */
  ghost predicate Undisturbed(y: System, z: System, k: Key) {
    && Lookup(y.timerOf, k) == Lookup(z.timerOf, k) && Lookup(y.added, k) == Lookup(z.added, k)
    && (k in y.calls.timers <==> k in z.calls.timers) && (k in y.triggered <==> k in z.triggered)
    && y.clock.gap == z.clock.gap && y.clock.now <= z.clock.now && y.clock.idGen <= z.clock.idGen
    && LastNumber(y.calls, k.client) <= LastNumber(z.calls, k.client)
    && (k in y.triggered ==> y.clock.now == z.clock.now)
    && (k in y.timerOf ==>
          && SameTimer(y.clock, z.clock, y.timerOf[k])
          && Lookup(y.keys, y.timerOf[k]) == Lookup(z.keys, y.timerOf[k]))
  }

  lemma UndisturbedOk(y: System, z: System, k: Key)
    requires TimerOk(y, k) && Undisturbed(y, z, k)
    ensures TimerOk(z, k)
  {
  }

  lemma QuietTickOk(y: System, op: T.Op, k: Key)
    requires WT.Good(y.clock) && TimerOk(y, k) && Enabled(y, Tick(op)) && !op.Poll?
    ensures TimerOk(Apply(y, Tick(op)), k)
  {
    hide WT.Good, T.Apply, T.Enabled, T.WellFormed, Ripe, TimerWaits, SameTimer;
    OpFrame(y.clock, op);
    if k in y.timerOf {
      TimerKept(y.clock, op, y.timerOf[k]);
    }
    UndisturbedOk(y, Apply(y, Tick(op)), k);
  }

  lemma PollOk(y: System, op: T.Op, k: Key)
    requires WT.Good(y.clock) && KeysOk(y) && TimerOk(y, k) && Enabled(y, Tick(op)) && op.Poll?
    ensures TimerOk(Apply(y, Tick(op)), k)
  {
    hide WT.Good, T.Apply, T.Enabled, T.WellFormed;
    OpFrame(y.clock, op);
    var z := Apply(y, Tick(op));
    if k in y.timerOf && y.timerOf[k] in y.clock.flat {
      TimerPolled(y.clock, op, y.timerOf[k]);
      if y.timerOf[k] in op.visits {
        PolledIsDue(y.clock, op, y.timerOf[k]);
        assert k in Triggers(y, op);
      } else {
        UndisturbedOk(y, z, k);
      }
    } else {
      if k in Triggers(y, op) { TriggeredIsPending(y, op, k); }
      GoneTimerOk(y, op, k);
    }
  }

  lemma TriggeredIsPending(y: System, op: T.Op, k: Key)
    requires WT.Good(y.clock) && KeysOk(y) && Enabled(y, Tick(op)) && k in Triggers(y, op)
    ensures k in y.timerOf && y.timerOf[k] in y.clock.flat
  {
    hide T.Apply, T.Enabled, T.WellFormed, WT.Good;
    PolledIsDue(y.clock, op, y.timerOf[k]);
  }

  /** A poll brings back no timer that was gone. */
  lemma GoneTimerOk(y: System, op: T.Op, k: Key)
    requires TimerOk(y, k) && Enabled(y, Tick(op)) && op.Poll? && k !in Triggers(y, op)
    requires k in y.timerOf ==> y.timerOf[k] !in y.clock.flat
    ensures TimerOk(Apply(y, Tick(op)), k)
  {
    T.PollIsOp(y.clock, op.nano, op.visits);
    hide T.Apply, T.Enabled;
    UndisturbedOk(y, Apply(y, Tick(op)), k);
  }

  lemma TickOk(y: System, op: T.Op)
    requires SystemOk(y) && Enabled(y, Tick(op))
    ensures SystemOk(Apply(y, Tick(op)))
  {
    hide WT.Good, T.Apply, T.Enabled, T.WellFormed, TimerOk, Inv;
    WT.OpKeepsGood(y.clock, op);
    WT.OpKeepsDials(y.clock, op);
    OpFrame(y.clock, op);
    forall k ensures TimerOk(Apply(y, Tick(op)), k) {
      if op.Poll? { PollOk(y, op, k); } else { QuietTickOk(y, op, k); }
    }
  }

  lemma CallOk(y: System, step: Step)
    requires SystemOk(y) && Enabled(y, Call(step))
    ensures SystemOk(Apply(y, Call(step)))
  {
    hide WT.Good, RpcMachine.Apply, RpcMachine.Enabled, TimerOk, Inv;
    StepKeepsInv(y.calls, step);
    TimersKept(y.calls, step);
    forall k ensures TimerOk(Apply(y, Call(step)), k) {
      NumbersGrow(y.calls, step, k.client);
      UndisturbedOk(y, Apply(y, Call(step)), k);
    }
  }

  lemma TimeoutOk(y: System, k: Key, pushed: bool)
    requires SystemOk(y) && Enabled(y, Timeout(k, pushed))
    ensures SystemOk(Apply(y, Timeout(k, pushed)))
  {
    hide WT.Good, RpcMachine.Apply, RpcMachine.Enabled, Inv;
    StepKeepsInv(y.calls, Expire(k, pushed));
    ExpireUsesTimer(y.calls, k, pushed);
    forall other ensures TimerOk(Apply(y, Timeout(k, pushed)), other) {
      assert TimerOk(y, other);
      NumbersGrow(y.calls, Expire(k, pushed), other.client);
      if other != k { UndisturbedOk(y, Apply(y, Timeout(k, pushed)), other); }
    }
  }

  lemma CreatedTimer(s: T.Sched, nano: int)
    requires WT.Good(s) && WT.SameDials(s.v.dials, W.StandardDials()) && T.Enabled(s, TimeoutOp(nano))
    ensures var t := T.Apply(s, TimeoutOp(nano));
            && s.idGen + 1 in t.flat
            && var r := t.flat[s.idGen + 1];
               && r.accepted == s.now && r.slack == 0 && r.timer.times == 1
               && r.timer.unixts == s.now + CALL_RPC_TIMEOUT
  {
    WT.EntryWheel(s.v.dials, s.now + CALL_RPC_TIMEOUT, s.now);
    LaterMillis(nano, CALL_RPC_TIMEOUT);
  }

  lemma LaterMillis(nano: int, millis: nat)
    requires 0 <= nano
    ensures GoDiv(nano + millis * W.NANOS_PER_MILLI, W.NANOS_PER_MILLI) == GoDiv(nano, W.NANOS_PER_MILLI) + millis
  {
    var whole, part := nano / 1_000_000, nano % 1_000_000;
    assert nano + millis * 1_000_000 == (whole + millis) * 1_000_000 + part;
  }

  lemma AddPendingOk(y: System, client: nat, c: CallId, wants: bool, nano: int)
    requires SystemOk(y) && Enabled(y, AddPending(client, c, wants, nano))
    ensures SystemOk(Apply(y, AddPending(client, c, wants, nano)))
  {
    hide WT.Good, T.Apply, T.Enabled, T.WellFormed, RpcMachine.Apply, RpcMachine.Enabled, Inv, TimerOk, LastNumber, TimeoutOp;
    var z := Apply(y, AddPending(client, c, wants, nano));
    var k := Key(client, LastNumber(y.calls, client) + 1);
    StepKeepsInv(y.calls, Register(client, c, wants));
    RegisterAddsTimer(y.calls, client, c, wants);
    WT.OpKeepsGood(y.clock, TimeoutOp(nano));
    WT.OpKeepsDials(y.clock, TimeoutOp(nano));
    OpFrame(y.clock, TimeoutOp(nano));
    TimeoutIsCreate(nano);
    CreatedTimer(y.clock, nano);
    NewKey(y, k);
    NewTimerOk(y, z, k);
    forall other ensures TimerOk(z, other) {
      NumbersGrow(y.calls, Register(client, c, wants), other.client);
      if other != k {
        if other in y.timerOf { OldTimerKept(y, nano, other); }
        UndisturbedOk(y, z, other);
      }
    }
  }

  lemma TimeoutIsCreate(nano: int)
    ensures TimeoutOp(nano).Create?
  {
  }

  lemma NewKey(y: System, k: Key)
    requires TimerOk(y, k) && k !in y.calls.timers && k.number > LastNumber(y.calls, k.client)
    ensures k !in y.triggered && k !in y.timerOf
  {
  }

  lemma OldTimerKept(y: System, nano: int, k: Key)
    requires T.WellFormed(y.clock) && T.Enabled(y.clock, TimeoutOp(nano)) && TimerOk(y, k) && k in y.timerOf
    ensures SameTimer(y.clock, T.Apply(y.clock, TimeoutOp(nano)), y.timerOf[k]) && 1 <= y.timerOf[k] <= y.clock.idGen
  {
    TimerKept(y.clock, TimeoutOp(nano), y.timerOf[k]);
  }

  lemma NewTimerOk(y: System, z: System, k: Key)
    requires k in z.calls.timers && k !in z.triggered
    requires z.timerOf == y.timerOf[k := y.clock.idGen + 1] && z.keys == y.keys[y.clock.idGen + 1 := k]
    requires z.added == y.added[k := y.clock.now] && z.clock.now == y.clock.now && z.clock.idGen == y.clock.idGen + 1
    requires TimerWaits(z, k) && k.number <= LastNumber(z.calls, k.client)
    ensures TimerOk(z, k)
  {
  }

  lemma ActionOk(y: System, a: Action)
    requires SystemOk(y) && Enabled(y, a)
    ensures SystemOk(Apply(y, a)) && Apply(y, a).clock.gap == y.clock.gap
  {
    hide SystemOk, T.Enabled, T.Apply, RpcMachine.Enabled, RpcMachine.Apply;
    match a
    case Tick(op) => TickOk(y, op); OpFrame(y.clock, op);
    case Call(step) => CallOk(y, step);
    case AddPending(client, c, wants, nano) =>
      AddPendingOk(y, client, c, wants, nano);
      OpFrame(y.clock, TimeoutOp(nano));
    case Timeout(k, pushed) => TimeoutOk(y, k, pushed);
  }

  // Part 3: Every run.

  ghost predicate Run(states: seq<System>, actions: seq<Action>, start: int, gap: nat) {
    && |states| == |actions| + 1 && states[0] == Init(start, gap)
    && forall i :: 0 <= i < |actions| ==> Enabled(states[i], actions[i]) && states[i + 1] == Apply(states[i], actions[i])
  }

  lemma {:induction false} RunOk(states: seq<System>, actions: seq<Action>, start: int, gap: nat, i: nat)
    requires Run(states, actions, start, gap) && i < |states|
    ensures SystemOk(states[i]) && states[i].clock.gap == gap
  {
    hide SystemOk, Enabled, Apply;
    if i == 0 {
      InitOk(start, gap);
    } else {
      RunOk(states, actions, start, gap, i - 1);
      assert Enabled(states[i - 1], actions[i - 1]) && states[i] == Apply(states[i - 1], actions[i - 1]);
      ActionOk(states[i - 1], actions[i - 1]);
    }
  }

  lemma InitOk(start: int, gap: nat)
    ensures SystemOk(Init(start, gap))
  {
    hide WT.Good;
    WT.InitGood(start, gap);
  }

  /** A call that is still pending was registered no longer than 15 s and one poll gap ago. */
  lemma CompletedInTime(states: seq<System>, actions: seq<Action>, start: int, gap: nat, i: nat, k: Key)
    requires Run(states, actions, start, gap) && i < |states| && k in states[i].calls.pending
    ensures k in states[i].added && states[i].clock.now <= states[i].added[k] + 15_000 + gap
  {
    hide Run, WT.Good, PoolOk, QueueOk, HoldOk;
    RunOk(states, actions, start, gap, i);
    assert KeyOk(states[i].calls, k) && TimerOk(states[i], k);
    if k !in states[i].triggered {
      WaitingNotOverdue(states[i].clock, states[i].timerOf[k]);
    }
  }

  lemma WaitingNotOverdue(s: T.Sched, id: W.TimerId)
    requires WT.Good(s) && id in s.flat
    ensures s.now <= s.flat[id].Deadline() + s.gap
  {
    assert T.RecOk(s, s.flat[id]);
  }

  /** No timeout completes a call sooner than 100 ms before its 15 s are over. */
  lemma NoEarlyTimeout(states: seq<System>, actions: seq<Action>, start: int, gap: nat, i: nat, k: Key, pushed: bool)
    requires Run(states, actions, start, gap) && i < |actions| && actions[i] == Timeout(k, pushed)
    ensures k in states[i].added && states[i].clock.now > states[i].added[k] + 14_900
  {
    hide Apply;
    RunOk(states, actions, start, gap, i);
    assert Enabled(states[i], actions[i]);
    assert TimerOk(states[i], k);
  }
}
