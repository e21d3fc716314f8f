/** Time can always go on (jtimer/timewheel.go): ticks and polls that are due never block each other for good, although
    ticks hold their own lock while timers go down, and polls need the locks of all wheels on the way down. */
module WheelProgress {
  import opened Collections
  import opened Arithmetic
  import opened WheelSpec
  import opened WheelTiming
  import opened WheelTheorems

  /** The operations lead from one state to another. */
  ghost predicate Leads(s: Sched, ops: seq<Op>, t: Sched)
    decreases |ops|
  {
    if ops == [] then s == t
    else WellFormed(s) && Enabled(s, ops[0]) && Leads(Apply(s, ops[0]), ops[1..], t)
  }

  lemma {:induction false} LeadsOn(s: Sched, a: seq<Op>, t: Sched, b: seq<Op>, u: Sched)
    requires Leads(s, a, t) && Leads(t, b, u)
    ensures Leads(s, a + b, u)
    decreases |a|
  {
    hide WellFormed, Enabled, Apply;
    if a == [] {
      assert a + b == b;
    } else {
      LeadsOn(Apply(s, a[0]), a[1..], t, b, u);
      assert (a + b)[1..] == a[1..] + b;
    }
  }

  lemma LeadsOne(s: Sched, op: Op)
    requires WellFormed(s) && Enabled(s, op)
    ensures Leads(s, [op], Apply(s, op))
  {
    hide WellFormed, Enabled, Apply;
    assert [op][1..] == [];
    assert Leads(Apply(s, op), [], Apply(s, op));
  }

  /** The operations that the wheels and the scheduler do by themselves at one instant. */
  predicate Work(op: Op) {
    op.TickBegin? || op.TickMove? || op.TickEnd? || op.Poll?
  }

  predicate AllWork(ops: seq<Op>) {
    forall op :: op in ops ==> Work(op)
  }

  ghost function Hand(s: Sched, j: nat): (r: set<TimerId>) {
    set id | id in s.flat && s.flat[id].at == InHand(j)
  }

  /** No time has passed and no poll has come. */
  ghost predicate SameInstant(s: Sched, t: Sched) {
    t.now == s.now && t.gap == s.gap && t.lastPoll == s.lastPoll && SameDials(t.v.dials, s.v.dials)
  }

  ghost predicate Idle(s: Sched) {
    Free(s, 0, |s.ticking| - 1)
  }

  /** No wheel from `j` on has a tick due. */
  ghost predicate Turned(s: Sched, j: nat)
    requires WellFormed(s)
  {
    forall l :: j <= l < |s.last| ==> s.now < s.last[l] + s.v.dials[l].interval
  }

  lemma GoodParts(s: Sched)
    requires Good(s)
    ensures WellFormed(s) && Clocks(s) && Shows(s)
  {
  }

  lemma MoveOne(s: Sched, j: nat, id: TimerId)
    requires WellFormed(s) && j < |s.ticking| && id in Hand(s, j) && Free(s, j + 1, |s.ticking| - 1)
    ensures Enabled(s, TickMove(id))
    ensures var t := Apply(s, TickMove(id));
            && Hand(t, j) == Hand(s, j) - {id} && SameInstant(s, t) && t.ticking == s.ticking && t.last == s.last
            && t.v.dials == s.v.dials
  {
    hide PlaceFrom;
    assert s.flat[id].at == InHand(j);
  }

  lemma EndTick(s: Sched, j: nat)
    requires WellFormed(s) && j < |s.ticking| && s.ticking[j] && Hand(s, j) == {}
    ensures Enabled(s, TickEnd(j))
    ensures var t := Apply(s, TickEnd(j));
            && SameInstant(s, t) && t.ticking == s.ticking[j := false]
            && t.last == s.last[j := s.last[j] + s.v.dials[j].interval]
  {
    forall id | id in s.flat ensures s.flat[id].at != InHand(j) { assert id !in Hand(s, j); }
  }

  /** A tick under way comes to its end, when none goes on below: the timers in its hands go down one by one. */
  lemma {:induction false} FinishTick(s: Sched, j: nat) returns (ops: seq<Op>, t: Sched)
    requires Good(s) && WellFormed(s) && j < |s.ticking| && s.ticking[j] && Free(s, j + 1, |s.ticking| - 1)
    ensures Leads(s, ops, t) && AllWork(ops) && Good(t) && SameInstant(s, t)
    ensures t.ticking == s.ticking[j := false] && t.last == s.last[j := s.last[j] + s.v.dials[j].interval]
    decreases |Hand(s, j)|
  {
    hide Good, WellFormed, Enabled, Apply, Hand;
    if Hand(s, j) == {} {
      EndTick(s, j);
      OpKeepsGood(s, TickEnd(j));
      LeadsOne(s, TickEnd(j));
      ops, t := [TickEnd(j)], Apply(s, TickEnd(j));
    } else {
      var id := OneOf(Hand(s, j));
      MoveOne(s, j, id);
      OpKeepsGood(s, TickMove(id));
      LeadsOne(s, TickMove(id));
      var next := Apply(s, TickMove(id));
      GoodParts(next);
      var more;
      more, t := FinishTick(next, j);
      LeadsOn(s, [TickMove(id)], next, more, t);
      ops := [TickMove(id)] + more;
    }
  }

  /** All ticks under way come to their ends, from the finest wheel up. */
  lemma {:induction false} FinishTicks(s: Sched, j: nat) returns (ops: seq<Op>, t: Sched)
    requires Good(s) && WellFormed(s) && j <= |s.ticking| && Free(s, j, |s.ticking| - 1)
    ensures Leads(s, ops, t) && AllWork(ops) && Good(t) && SameInstant(s, t) && Idle(t)
    decreases j
  {
    hide Good, WellFormed, Enabled, Apply;
    if j == 0 {
      ops, t := [], s;
    } else if s.ticking[j - 1] {
      var next, more;
      ops, next := FinishTick(s, j - 1);
      GoodParts(next);
      more, t := FinishTicks(next, j - 1);
      LeadsOn(s, ops, next, more, t);
      ops := ops + more;
    } else {
      ops, t := FinishTicks(s, j - 1);
    }
  }

  lemma BeginTick(s: Sched, j: nat)
    requires WellFormed(s) && j < |s.ticking| && !s.ticking[j] && s.now == s.last[j] + s.v.dials[j].interval
    ensures Enabled(s, TickBegin(j))
    ensures var t := Apply(s, TickBegin(j));
            && SameInstant(s, t) && t.ticking == s.ticking[j := true] && t.last == s.last && t.v.dials == s.v.dials
  {
  }

  lemma TurnedMore(s: Sched, t: Sched, j: nat)
    requires WellFormed(s) && WellFormed(t) && SameInstant(s, t) && j < |s.last| && Turned(s, j + 1)
    requires s.now == s.last[j] + s.v.dials[j].interval && t.last == s.last[j := s.now]
    ensures Turned(t, j)
  {
  }

  /** All ticks that are due take place. */
  lemma {:induction false} TakeTicks(s: Sched, j: nat) returns (ops: seq<Op>, t: Sched)
    requires Good(s) && WellFormed(s) && j <= |s.ticking| && Idle(s) && Turned(s, j)
    ensures Leads(s, ops, t) && AllWork(ops) && Good(t) && WellFormed(t) && SameInstant(s, t) && Idle(t) && Turned(t, 0)
    decreases j
  {
    hide Good, WellFormed, Enabled, Apply, SameDials, Turned;
    Lengths(s);
    if j > 0 { NotLate(s, j - 1); }
    if j == 0 {
      SameSelf(s);
      ops, t := [], s;
    } else if s.now < s.last[j - 1] + s.v.dials[j - 1].interval {
      NotDue(s, j - 1);
      ops, t := TakeTicks(s, j - 1);
    } else {
      BeginTick(s, j - 1);
      OpKeepsGood(s, TickBegin(j - 1));
      LeadsOne(s, TickBegin(j - 1));
      var begun := Apply(s, TickBegin(j - 1));
      GoodParts(begun);
      var next, rest, more;
      more, next := FinishTick(begun, j - 1);
      LeadsOn(s, [TickBegin(j - 1)], begun, more, next);
      GoodParts(next);
      SameTwice(s, begun, next);
      TurnedMore(s, next, j - 1);
      rest, t := TakeTicks(next, j - 1);
      SameTwice(s, next, t);
      LeadsOn(s, [TickBegin(j - 1)] + more, next, rest, t);
      ops := [TickBegin(j - 1)] + more + rest;
    }
  }

  lemma Lengths(s: Sched)
    requires WellFormed(s)
    ensures |s.v.dials| == |s.last| == |s.ticking| > 0
  {
  }

  lemma NotLate(s: Sched, j: nat)
    requires Good(s) && WellFormed(s) && j < |s.last|
    ensures s.now <= s.last[j] + s.v.dials[j].interval
  {
    assert Clocks(s);
  }

  lemma NotDue(s: Sched, j: nat)
    requires WellFormed(s) && j < |s.last| && Turned(s, j + 1) && s.now < s.last[j] + s.v.dials[j].interval
    ensures Turned(s, j)
  {
  }

  lemma SameSelf(s: Sched)
    ensures SameInstant(s, s)
  {
  }

  lemma SameTwice(s: Sched, t: Sched, u: Sched)
    requires SameInstant(s, t) && SameInstant(t, u)
    ensures SameInstant(s, u)
  {
  }

  /** The poll that visits each due timer once, at the first nanosecond of the present millisecond. */
  ghost function PollOnce(s: Sched): (op: Op)
    requires WellFormed(s)
    ensures op.Poll?
  {
    Poll(s.now * NANOS_PER_MILLI, map id | id in s.flat && id in LeafSlot(s) && Due(LeafSlot(s)[id], s.now) :: 1)
  }

  lemma PollOnceOk(s: Sched)
    requires WellFormed(s) && Shows(s)
    ensures PollOk(s.v, 0, s.now, PollOnce(s).nano, PollOnce(s).visits)
  {
    forall id | id in LeafSlot(s) ensures id in s.flat {
      var n := |s.v.dials| - 1;
      assert Spot(n, s.v.dials[n].cur, id) in s.v.spots;
    }
  }

  lemma StartOfMilli(now: nat)
    ensures Clock(now * NANOS_PER_MILLI, now)
  {
  }

  lemma IdleWaysFree(s: Sched, moves: imap<TimerId, Move>)
    requires Idle(s)
    ensures WaysBackFree(s, moves)
  {
  }

  /** While no tick is under way a poll can come. */
  lemma PollNow(s: Sched)
    requires Good(s) && WellFormed(s) && Idle(s) && s.now >= 0
    ensures Enabled(s, PollOnce(s))
    ensures var t := Apply(s, PollOnce(s));
            && t.now == s.now == t.lastPoll && t.gap == s.gap && t.ticking == s.ticking && t.last == s.last
            && t.v.dials == s.v.dials
  {
    hide Good, Shows, PollOk, Readded, AfterPoll, WellFormed, Clock, WaysBackFree, LeafSlot, Enabled, Apply;
    var nano, visits := PollOnce(s).nano, PollOnce(s).visits;
    GoodParts(s);
    Lengths(s);
    StartOfMilli(s.now);
    PollOnceOk(s);
    IdleWaysFree(s, Readded(s.v.dials, 0, LeafSlot(s), s.now, nano, visits));
    PollIsOp(s, nano, visits);
    PollFrame(s, nano, visits);
  }

  lemma AdvanceNow(s: Sched)
    requires WellFormed(s) && Idle(s) && Turned(s, 0) && s.lastPoll == s.now && s.gap >= 1
    ensures Enabled(s, Advance(1))
  {
  }

  lemma StillTurned(s: Sched, t: Sched)
    requires WellFormed(s) && WellFormed(t) && Turned(s, 0) && Idle(s)
    requires t.now == s.now && t.ticking == s.ticking && t.last == s.last && t.v.dials == s.v.dials
    ensures Turned(t, 0) && Idle(t)
  {
  }

  lemma AllTurned(s: Sched)
    requires WellFormed(s)
    ensures Turned(s, |s.ticking|)
  {
  }

  /** Whatever is going on, the wheels and the scheduler can do what is due at this instant, so that the clock can go
      on: the locks, taken from the coarse wheel down, admit no deadlock. */
  lemma WorkEnds(s: Sched) returns (ops: seq<Op>, t: Sched)
    requires Good(s) && s.now >= 0 && s.gap >= 1
    ensures Leads(s, ops, t) && AllWork(ops) && Good(t) && WellFormed(t) && t.now == s.now && Enabled(t, Advance(1))
  {
    hide Good, WellFormed, Enabled, Apply, SameDials, Turned, Idle, PollOnce;
    GoodParts(s);
    var ended, turned, more;
    NoneTicksBeyond(s);
    ops, ended := FinishTicks(s, |s.ticking|);
    GoodParts(ended);
    AllTurned(ended);
    more, turned := TakeTicks(ended, |ended.ticking|);
    LeadsOn(s, ops, ended, more, turned);
    var poll := PollOnce(turned);
    PollNow(turned);
    LeadsOne(turned, poll);
    OpKeepsGood(turned, poll);
    t := Apply(turned, poll);
    GoodParts(t);
    LeadsOn(s, ops + more, turned, [poll], t);
    ops := ops + more + [poll];
    StillTurned(turned, t);
    AdvanceNow(t);
  }

  lemma NoneTicksBeyond(s: Sched)
    ensures Free(s, |s.ticking|, |s.ticking| - 1)
  {
  }

  lemma {:induction false} NowFromStart(states: seq<Sched>, ops: seq<Op>, start: int, gap: nat, i: nat)
    requires Run(states, ops, start, gap) && i < |states|
    ensures states[i].now >= start
  {
    hide WellFormed, Enabled, Apply;
    if i > 0 {
      NowFromStart(states, ops, start, gap, i - 1);
      RunStep(states, ops, start, gap, i - 1);
      NowGrows(states[i - 1], ops[i - 1]);
    }
  }

  lemma NowGrows(s: Sched, op: Op)
    requires WellFormed(s) && Enabled(s, op)
    ensures s.now <= Apply(s, op).now
  {
    hide PlaceFrom, GoDiv, PollEnabled, PollWheels, PollFlat, Turn, Refresh, Erase, Put;
  }

  lemma {:induction false} RunOn(states: seq<Sched>, ops: seq<Op>, start: int, gap: nat, more: seq<Op>, t: Sched)
    returns (states': seq<Sched>)
    requires Run(states, ops, start, gap) && |states| > 0 && Leads(Last(states), more, t)
    ensures Run(states', ops + more, start, gap) && |states'| > 0 && Last(states') == t
    decreases |more|
  {
    hide Run, WellFormed, Enabled, Apply;
    if more == [] {
      assert ops + more == ops;
      states' := states;
    } else {
      OneOpMore(states, ops, more[0], start, gap);
      var next := states + [Apply(Last(states), more[0])];
      states' := RunOn(next, ops + [more[0]], start, gap, more[1..], t);
      assert ops + [more[0]] + more[1..] == ops + more;
    }
  }

  /** Every run goes on to a later instant, as long as polls need not come all the time. The time bounds on firings
      are therefore not met by standing still. */
  lemma TimeGoesOn(states: seq<Sched>, ops: seq<Op>, start: int, gap: nat)
    returns (states': seq<Sched>, ops': seq<Op>)
    requires Run(states, ops, start, gap) && |states| > 0 && start >= 0 && gap >= 1
    ensures Run(states', ops', start, gap) && |states'| > 0 && ops <= ops'
    ensures Last(states').now == Last(states).now + 1
  {
    hide Run, Good, WellFormed, Enabled, Apply;
    var s := Last(states);
    RunGood(states, ops, start, gap, |states| - 1);
    NowFromStart(states, ops, start, gap, |states| - 1);
    var work, t := WorkEnds(s);
    AdvancedBy(t, 1);
    LeadsOne(t, Advance(1));
    LeadsOn(s, work, t, [Advance(1)], Apply(t, Advance(1)));
    ops' := ops + (work + [Advance(1)]);
    states' := RunOn(states, ops, start, gap, work + [Advance(1)], Apply(t, Advance(1)));
  }

  lemma AdvancedBy(s: Sched, millis: nat)
    requires WellFormed(s) && Enabled(s, Advance(millis))
    ensures Apply(s, Advance(millis)).now == s.now + millis
  {
  }
}
