/** Repeating timers over whole runs (jtimer/timewheel.go, jtimer/timer.go): when each firing comes after the one
    before. */
module WheelRepeats {
  import opened Arithmetic
  import opened WheelSpec
  import opened WheelTiming
  import opened WheelTheorems

  ghost function FiringsOf(s: Sched, id: TimerId): (r: set<Firing>) {
    set f | f in s.fired && f.id == id
  }

  /** One interval, given in ns, after `at`, up to the part of a millisecond that has passed by then. */
  predicate OneIntervalOn(interval: int, at: int, due: int) {
    at + interval / 1_000_000 <= due <= at + interval / 1_000_000 + 1
  }

  /** The firing `f` is the one after which a timer, repeating at least 100 ms apart, was put back with this due time
      and this slack. */
  ghost predicate Follows(f: Firing, interval: int, accepted: int, due: int, slack: int) {
    && f.at == accepted && interval >= 100_000_000 && OneIntervalOn(interval, accepted, due)
    && slack == if due - accepted < 60_000 then 0 else if due - accepted < 3_600_000 then 60_000 else 3_600_000
  }

  ghost predicate Linked(s: Sched, id: TimerId, g: Firing)
    requires id in s.plan
  {
    || (forall f :: f in FiringsOf(s, id) ==> g.at <= f.at)
    || (g.accepted < g.at
        && exists f :: f in FiringsOf(s, id) && Follows(f, s.plan[id].interval, g.accepted, g.due, g.slack))
  }

  /** Each firing comes after its timer was accepted again, and that is not before any earlier one. */
  ghost predicate Apart(fs: set<Firing>) {
    forall f, g :: f in fs && g in fs && f != g ==> f.at != g.at && (f.at < g.at ==> f.at <= g.accepted)
  }

  /** The firings of a timer come one after the other, and the pending one, if any, after them all. */
  ghost predicate InOrder(s: Sched, id: TimerId)
    requires id in s.plan && id in s.count
  {
    var fs := FiringsOf(s, id);
    && |fs| == s.count[id]
    && Apart(fs)
    && (forall g :: g in fs ==> Linked(s, id, g))
    && (id in s.flat ==> Awaited(s, id, s.flat[id]))
  }

  ghost predicate Awaited(s: Sched, id: TimerId, r: Record)
    requires id in s.plan
  {
    var fs := FiringsOf(s, id);
    && (forall f :: f in fs ==> f.at <= r.accepted)
    && (fs != {} ==> exists f :: f in fs && Follows(f, s.plan[id].interval, r.accepted, r.timer.unixts, r.slack))
  }

  ghost predicate Repeats(s: Sched) {
    && (forall f :: f in s.fired ==> f.id in s.plan) && s.count.Keys == s.plan.Keys
    && forall id :: id in s.plan && id in s.count && Spaced(s.plan[id]) ==> InOrder(s, id)
  }

  // Part 1: Operations other than polls.

  /** The history of the timer stays, and its pending record but for its place. */
  ghost predicate SameHistory(s: Sched, t: Sched, id: TimerId) {
    && FiringsOf(t, id) == FiringsOf(s, id) && id in s.plan && id in t.plan && t.plan[id] == s.plan[id]
    && id in s.count && id in t.count && t.count[id] == s.count[id]
    && (id in t.flat ==>
          id in s.flat && t.flat[id].timer == s.flat[id].timer && t.flat[id].accepted == s.flat[id].accepted
          && t.flat[id].slack == s.flat[id].slack)
  }

  lemma SameKeepsOrder(s: Sched, t: Sched, id: TimerId)
    requires SameHistory(s, t, id) && InOrder(s, id)
    ensures InOrder(t, id)
  {
    hide FiringsOf, Follows;
    forall g | g in FiringsOf(s, id) ensures Linked(t, id, g) {
      assert Linked(s, id, g);
    }
  }

  lemma OpKeepsHistory(s: Sched, op: Op, id: TimerId)
    requires WellFormed(s) && Counted(s) && Enabled(s, op) && !op.Poll? && id in s.plan
    ensures SameHistory(s, Apply(s, op), id)
  {
    hide PlaceFrom, GoDiv, CountOk;
  }

  lemma OpKeepsFired(s: Sched, op: Op)
    requires WellFormed(s) && Counted(s) && Enabled(s, op) && !op.Poll?
    ensures var t := Apply(s, op);
            && t.fired == s.fired && s.plan.Keys <= t.plan.Keys && t.count.Keys == t.plan.Keys
            && forall id :: id in t.plan && id !in s.plan ==> t.count[id] == 0
  {
    hide PlaceFrom, GoDiv, CountOk;
  }

  lemma NewInOrder(s: Sched, id: TimerId)
    requires id in s.plan && id in s.count && s.count[id] == 0 && forall f :: f in s.fired ==> f.id != id
    ensures InOrder(s, id)
  {
    assert FiringsOf(s, id) == {};
  }

  lemma OpKeepsRepeats(s: Sched, op: Op)
    requires Good(s) && Repeats(s) && Enabled(s, op) && !op.Poll?
    ensures Repeats(Apply(s, op))
  {
    assert WellFormed(s) && Counted(s);
    hide Good, WellFormed, Enabled, Apply, Counted, InOrder, SameHistory;
    var t := Apply(s, op);
    OpKeepsFired(s, op);
    forall id | id in t.plan && Spaced(t.plan[id]) ensures InOrder(t, id) {
      if id in s.plan {
        OpKeepsHistory(s, op, id);
        SamePlan(s, t, id);
        SameKeepsOrder(s, t, id);
      } else {
        NewInOrder(t, id);
      }
    }
  }

  lemma SamePlan(s: Sched, t: Sched, id: TimerId)
    requires SameHistory(s, t, id)
    ensures id in s.plan && id in t.plan && t.plan[id] == s.plan[id]
  {
  }

  // Part 2: Polls.

  lemma RenewedOneOn(nano: int, now: int, interval: int)
    requires Clock(nano, now) && interval >= 0
    ensures OneIntervalOn(interval, now, GoDiv(nano + interval, NANOS_PER_MILLI))
  {
    var whole, part := interval / 1_000_000, interval % 1_000_000;
    var rest := nano % 1_000_000;
    assert nano == now * 1_000_000 + rest;
    assert nano + interval == (now + whole) * 1_000_000 + (rest + part);
  }

  /** What a poll does to a spaced timer that it visits: one more firing, and what is left is put back. */
  ghost predicate PolledOnce(s: Sched, t: Sched, id: TimerId, g: Firing) {
    id in s.flat && FiredOnce(s, t, id, g) && BackOnce(s, t, id, g)
  }

  ghost predicate FiredOnce(s: Sched, t: Sched, id: TimerId, g: Firing)
    requires id in s.flat
  {
    && id in s.plan && id in t.plan && t.plan[id] == s.plan[id] && id in s.count && id in t.count
    && t.count[id] == s.count[id] + 1
    && FiringsOf(t, id) == FiringsOf(s, id) + {g} && g.at == s.now
    && g.accepted == s.flat[id].accepted && g.due == s.flat[id].timer.unixts && g.slack == s.flat[id].slack
    && g.due - g.at < 100
  }

  ghost predicate BackOnce(s: Sched, t: Sched, id: TimerId, g: Firing) {
    id in t.flat && id in s.plan ==>
      && t.flat[id].accepted == s.now
      && Follows(g, s.plan[id].interval, s.now, t.flat[id].timer.unixts, t.flat[id].slack)
  }

  /** The new firing comes after all others, and after the timer was accepted if there are others. */
  lemma NewIsLast(s: Sched, t: Sched, id: TimerId, g: Firing)
    requires PolledOnce(s, t, id, g) && InOrder(s, id) && s.flat[id].accepted <= s.now
    ensures forall f :: f in FiringsOf(s, id) ==> f.at <= g.accepted < g.at
    ensures g !in FiringsOf(s, id)
  {
    hide FiringsOf, Linked;
    var fs, r := FiringsOf(s, id), s.flat[id];
    assert Awaited(s, id, r);
    if fs != {} {
      var f :| f in fs && Follows(f, s.plan[id].interval, r.accepted, r.timer.unixts, r.slack);
    }
  }

  lemma OldStaysLinked(s: Sched, t: Sched, id: TimerId, g: Firing, h: Firing)
    requires PolledOnce(s, t, id, g) && h in FiringsOf(s, id) && Linked(s, id, h) && h.at <= g.at
    ensures Linked(t, id, h)
  {
    hide FiringsOf, Follows;
    if !(forall f :: f in FiringsOf(s, id) ==> h.at <= f.at) {
      var f :| f in FiringsOf(s, id) && Follows(f, s.plan[id].interval, h.accepted, h.due, h.slack);
      assert f in FiringsOf(t, id);
    }
  }

  lemma NewIsLinked(s: Sched, t: Sched, id: TimerId, g: Firing)
    requires PolledOnce(s, t, id, g) && Awaited(s, id, s.flat[id])
    requires forall f :: f in FiringsOf(s, id) ==> f.at <= g.accepted < g.at
    ensures Linked(t, id, g)
  {
    hide FiringsOf, Follows;
    if FiringsOf(s, id) != {} {
      var r := s.flat[id];
      var f :| f in FiringsOf(s, id) && Follows(f, s.plan[id].interval, r.accepted, r.timer.unixts, r.slack);
      assert f in FiringsOf(t, id);
    }
  }

  lemma PolledCount(s: Sched, t: Sched, id: TimerId, g: Firing)
    requires PolledOnce(s, t, id, g) && |FiringsOf(s, id)| == s.count[id] && g !in FiringsOf(s, id)
    ensures |FiringsOf(t, id)| == t.count[id]
  {
    hide FiringsOf, Follows;
  }

  lemma PolledApart(fs: set<Firing>, g: Firing)
    requires Apart(fs) && forall f :: f in fs ==> f.at <= g.accepted < g.at
    ensures Apart(fs + {g})
  {
  }

  lemma PolledLinked(s: Sched, t: Sched, id: TimerId, g: Firing)
    requires PolledOnce(s, t, id, g) && Awaited(s, id, s.flat[id])
    requires forall f :: f in FiringsOf(s, id) ==> f.at <= g.accepted < g.at && Linked(s, id, f)
    ensures forall h :: h in FiringsOf(t, id) ==> Linked(t, id, h)
  {
    hide FiringsOf, Follows, Linked, Awaited;
    forall h | h in FiringsOf(t, id) ensures Linked(t, id, h) {
      if h in FiringsOf(s, id) { OldStaysLinked(s, t, id, g, h); } else { NewIsLinked(s, t, id, g); }
    }
  }

  lemma PolledAwaited(s: Sched, t: Sched, id: TimerId, g: Firing)
    requires PolledOnce(s, t, id, g) && forall f :: f in FiringsOf(s, id) ==> f.at <= g.accepted < g.at
    ensures id in t.flat ==> Awaited(t, id, t.flat[id])
  {
    hide FiringsOf, Follows;
    assert g in FiringsOf(t, id);
  }

  lemma PolledKeepsOrder(s: Sched, t: Sched, id: TimerId, g: Firing)
    requires PolledOnce(s, t, id, g) && InOrder(s, id) && s.flat[id].accepted <= s.now
    ensures InOrder(t, id)
  {
    NewIsLast(s, t, id, g);
    hide FiringsOf, Follows, Linked, Awaited, Apart;
    PolledCount(s, t, id, g);
    PolledApart(FiringsOf(s, id), g);
    PolledLinked(s, t, id, g);
    PolledAwaited(s, t, id, g);
  }

  // What the poll of the machine does is just that.

  lemma VisitedRecord(s: Sched, nano: int, visits: map<TimerId, nat>, id: TimerId)
    requires Good(s) && PollEnabled(s, nano, visits) && id in visits
    ensures id in s.flat && s.flat[id].accepted <= s.now && s.flat[id].timer.unixts - s.now < 100
  {
    hide PollWheels, Readded, Waits;
    var n := |s.v.dials| - 1;
    assert Spot(n, s.v.dials[n].cur, id) in s.v.spots;
    assert RecOk(s, s.flat[id]);
  }

  lemma VisitedOnce(s: Sched, nano: int, visits: map<TimerId, nat>, id: TimerId)
    requires Good(s) && PollEnabled(s, nano, visits) && id in visits && id in s.plan && Spaced(s.plan[id])
    ensures id in s.flat && visits[id] == 1 && s.flat[id].timer.interval == s.plan[id].interval
    ensures s.flat[id].timer.times <= s.plan[id].times && s.flat[id].accepted <= s.now
    ensures s.flat[id].timer.unixts - s.now < 100
  {
    hide PollEnabled, Spaced;
    assert WellFormed(s) && Counted(s) && CountOk(s, id);
    VisitedRecord(s, nano, visits, id);
    PolledUses(s, nano, visits, id);
  }

  lemma FiringsAfterPoll(s: Sched, nano: int, visits: map<TimerId, nat>, id: TimerId)
    requires WellFormed(s) && PollEnabled(s, nano, visits)
    ensures id !in visits ==> FiringsOf(AfterPoll(s, nano, visits), id) == FiringsOf(s, id)
    ensures id in visits && id in s.flat && visits[id] == 1 ==>
              var r := s.flat[id];
              FiringsOf(AfterPoll(s, nano, visits), id)
              == FiringsOf(s, id) + {Firing(id, r.timer.unixts, r.accepted, r.slack, s.now)}
  {
    hide PollEnabled, PollWheels, PollFlat;
  }

  lemma BackAfterPoll(s: Sched, nano: int, visits: map<TimerId, nat>, id: TimerId)
    requires WellFormed(s) && PollEnabled(s, nano, visits) && id in visits && id in s.flat && visits[id] == 1
    ensures var t, r := AfterPoll(s, nano, visits), s.flat[id];
            id in t.flat ==>
              && r.timer.times >= 2 && t.flat[id].accepted == s.now
              && t.flat[id].timer.unixts == GoDiv(nano + r.timer.interval, NANOS_PER_MILLI)
              && t.flat[id].slack == Slack(s.v.dials, PlaceFrom(s.v.dials, 0, t.flat[id].timer.unixts, s.now, false).wheel)
  {
    hide PollEnabled, PollWheels, GoDiv, PlaceFrom, Slack;
  }

  lemma BackInOrder(s: Sched, nano: int, visits: map<TimerId, nat>, id: TimerId, g: Firing)
    requires WellFormed(s) && SameDials(s.v.dials, StandardDials()) && PollEnabled(s, nano, visits) && id in visits
    requires id in s.plan && id in s.flat && visits[id] == 1 && g.at == s.now && Spaced(s.plan[id])
    requires s.flat[id].timer.interval == s.plan[id].interval && s.flat[id].timer.times <= s.plan[id].times
    ensures BackOnce(s, AfterPoll(s, nano, visits), id, g)
  {
    assert Clock(nano, s.now) && DialsOk(s.v.dials);
    BackAfterPoll(s, nano, visits, id);
    hide AfterPoll, PollEnabled, SameDials, PlaceFrom, Slack, Clock, StandardDials, WellFormed, DialsOk;
    var t := AfterPoll(s, nano, visits);
    if id in t.flat {
      RenewedOneOn(nano, s.now, s.plan[id].interval);
      EntryWheel(s.v.dials, t.flat[id].timer.unixts, s.now);
    }
  }

  lemma PollCount(s: Sched, nano: int, visits: map<TimerId, nat>, id: TimerId)
    requires WellFormed(s) && PollEnabled(s, nano, visits) && id in visits && id in s.count
    ensures var t := AfterPoll(s, nano, visits); t.plan == s.plan && id in t.count && t.count[id] == s.count[id] + 1
  {
    hide PollEnabled, PollWheels, PollFlat;
  }

  lemma VisitedFiresOnce(s: Sched, nano: int, visits: map<TimerId, nat>, id: TimerId, g: Firing)
    requires WellFormed(s) && PollEnabled(s, nano, visits) && id in visits && visits[id] == 1
    requires id in s.plan && id in s.count && id in s.flat && s.flat[id].timer.unixts - s.now < 100
    requires var r := s.flat[id]; g == Firing(id, r.timer.unixts, r.accepted, r.slack, s.now)
    ensures FiredOnce(s, AfterPoll(s, nano, visits), id, g)
  {
    hide PollEnabled, AfterPoll, FiringsOf, WellFormed;
    PollCount(s, nano, visits, id);
    FiringsAfterPoll(s, nano, visits, id);
  }

  lemma VisitedStaysInOrder(s: Sched, nano: int, visits: map<TimerId, nat>, id: TimerId)
    requires Good(s) && SameDials(s.v.dials, StandardDials()) && PollEnabled(s, nano, visits) && id in visits
    requires id in s.plan && id in s.count && Spaced(s.plan[id]) && InOrder(s, id)
    ensures InOrder(AfterPoll(s, nano, visits), id)
  {
    assert WellFormed(s);
    hide Good, PollEnabled, AfterPoll, InOrder, FiringsOf, SameDials, WellFormed, FiredOnce, BackOnce, Spaced;
    VisitedOnce(s, nano, visits, id);
    var r := s.flat[id];
    var g := Firing(id, r.timer.unixts, r.accepted, r.slack, s.now);
    VisitedFiresOnce(s, nano, visits, id, g);
    BackInOrder(s, nano, visits, id, g);
    PolledKeepsOrder(s, AfterPoll(s, nano, visits), id, g);
  }

  lemma UnvisitedKeepsHistory(s: Sched, nano: int, visits: map<TimerId, nat>, id: TimerId)
    requires WellFormed(s) && PollEnabled(s, nano, visits) && id !in visits && id in s.plan && id in s.count
    ensures SameHistory(s, AfterPoll(s, nano, visits), id)
  {
    FiringsAfterPoll(s, nano, visits, id);
    hide PollEnabled, PollWheels, FiringsOf;
  }

  lemma PollKeepsRepeats(s: Sched, nano: int, visits: map<TimerId, nat>)
    requires Good(s) && SameDials(s.v.dials, StandardDials()) && Repeats(s) && PollEnabled(s, nano, visits)
    ensures Repeats(AfterPoll(s, nano, visits))
  {
    assert WellFormed(s);
    hide Good, WellFormed, PollEnabled, AfterPoll, InOrder, SameDials, Spaced;
    var t := AfterPoll(s, nano, visits);
    FiredArePlanned(s, nano, visits);
    forall id | id in t.plan && id in t.count && Spaced(t.plan[id]) ensures InOrder(t, id) {
      if id in visits {
        VisitedStaysInOrder(s, nano, visits, id);
      } else {
        UnvisitedKeepsHistory(s, nano, visits, id);
        SameKeepsOrder(s, t, id);
      }
    }
  }

  lemma FiredArePlanned(s: Sched, nano: int, visits: map<TimerId, nat>)
    requires Good(s) && PollEnabled(s, nano, visits)
    ensures WellFormed(s) && AfterPoll(s, nano, visits).plan == s.plan
    ensures AfterPoll(s, nano, visits).count.Keys == s.count.Keys
    ensures forall f :: f in AfterPoll(s, nano, visits).fired && f !in s.fired ==> f.id in s.plan
  {
    hide PollEnabled, PollWheels, PollFlat;
    assert Counted(s);
  }

  // Part 3: Every run.

  lemma StepRepeats(s: Sched, op: Op)
    requires Good(s) && SameDials(s.v.dials, StandardDials()) && Repeats(s) && Enabled(s, op)
    ensures Repeats(Apply(s, op))
  {
    assert WellFormed(s);
    hide Good, Repeats, WellFormed, Enabled, Apply, SameDials, PollEnabled, AfterPoll;
    if op.Poll? {
      PollIsOp(s, op.nano, op.visits);
      PollKeepsRepeats(s, op.nano, op.visits);
    } else {
      OpKeepsRepeats(s, op);
    }
  }

  lemma RunStart(states: seq<Sched>, ops: seq<Op>, start: int, gap: nat)
    requires Run(states, ops, start, gap)
    ensures |states| > 0 && states[0] == Init(StandardDials(), start, gap)
  {
    hide Init, Enabled, Apply, WellFormed;
  }

  lemma {:induction false} RunRepeats(states: seq<Sched>, ops: seq<Op>, start: int, gap: nat, i: nat)
    requires Run(states, ops, start, gap) && i < |states|
    ensures Repeats(states[i])
  {
    hide Run, Good, Repeats, WellFormed, Enabled, Apply, SameDials;
    RunLength(states, ops, start, gap);
    if i == 0 {
      RunStart(states, ops, start, gap);
      NothingRepeats(start, gap);
    } else {
      RunRepeats(states, ops, start, gap, i - 1);
      RunStep(states, ops, start, gap, i - 1);
      RunGood(states, ops, start, gap, i - 1);
      StepRepeats(states[i - 1], ops[i - 1]);
    }
  }

  lemma NothingRepeats(start: int, gap: nat)
    ensures Repeats(Init(StandardDials(), start, gap))
  {
    hide InOrder;
    var s := Init(StandardDials(), start, gap);
    assert s.fired == {} && s.plan == map[] && s.count == map[];
  }

  /** Of a timer whose repetitions are at least 100 ms apart, or that fires once, the firing after one at `f.at` comes
      one interval later: less than 100 ms early, and at most one ms, the slack of the wheel on which the delay puts it,
      and one poll gap late. */
  lemma NextFiringInTime(states: seq<Sched>, ops: seq<Op>, start: int, gap: nat, i: nat, f: Firing, g: Firing)
    requires Run(states, ops, start, gap) && i < |states| && f in states[i].fired && g in states[i].fired
    requires f.id == g.id && f.id in states[i].plan && Spaced(states[i].plan[f.id]) && f.at < g.at
    requires forall h :: h in states[i].fired && h.id == f.id ==> !(f.at < h.at < g.at)
    ensures var millis := states[i].plan[f.id].interval / 1_000_000; var delay := g.due - f.at;
            var slack := if delay < 60_000 then 0 else if delay < 3_600_000 then 60_000 else 3_600_000;
            && g.accepted == f.at && millis <= delay <= millis + 1
            && f.at + millis - 100 < g.at <= f.at + millis + 1 + slack + gap
  {
    hide Run, InOrder, Repeats, Spaced;
    RunRepeats(states, ops, start, gap, i);
    FiredOnTime(states, ops, start, gap, i, g);
    PlannedInOrder(states[i], f.id);
    FollowsNearest(states[i], f, g);
  }

  lemma PlannedInOrder(s: Sched, id: TimerId)
    requires Repeats(s) && id in s.plan && Spaced(s.plan[id])
    ensures id in s.count && InOrder(s, id)
  {
    hide InOrder, Spaced;
  }

  lemma FollowsNearest(s: Sched, f: Firing, g: Firing)
    requires f in s.fired && g in s.fired && f.id == g.id && f.at < g.at
    requires f.id in s.plan && f.id in s.count && InOrder(s, f.id)
    requires forall h :: h in s.fired && h.id == f.id ==> !(f.at < h.at < g.at)
    ensures Follows(f, s.plan[f.id].interval, g.accepted, g.due, g.slack)
  {
    hide OneIntervalOn, Awaited;
    var fs := FiringsOf(s, f.id);
    assert f in fs && g in fs && Linked(s, f.id, g);
    var h :| h in fs && Follows(h, s.plan[f.id].interval, g.accepted, g.due, g.slack);
    assert h == f;
  }

  /** Such a timer has as many firings to show as are counted. */
  lemma CountIsShown(states: seq<Sched>, ops: seq<Op>, start: int, gap: nat, i: nat, id: TimerId)
    requires Run(states, ops, start, gap) && i < |states| && id in states[i].plan && Spaced(states[i].plan[id])
    ensures id in states[i].count && |FiringsOf(states[i], id)| == states[i].count[id]
  {
    hide Run, Repeats, Spaced, Linked, Awaited, Apart, FiringsOf;
    RunRepeats(states, ops, start, gap, i);
    PlannedInOrder(states[i], id);
  }
}
