/** What holds over whole runs of the scheduler (jtimer/timewheel.go, jtimer/timescheduler.go). */
module WheelTheorems {
  import opened Arithmetic
  import opened WheelSpec
  import opened WheelTiming

  ghost predicate Run(states: seq<Sched>, ops: seq<Op>, start: int, gap: nat) {
    && |states| == |ops| + 1
    && states[0] == Init(StandardDials(), start, gap)
    && forall i :: 0 <= i < |ops| ==>
         WellFormed(states[i]) && Enabled(states[i], ops[i]) && states[i + 1] == Apply(states[i], ops[i])
  }

  lemma RunStep(states: seq<Sched>, ops: seq<Op>, start: int, gap: nat, i: nat)
    requires Run(states, ops, start, gap) && i < |ops|
    ensures WellFormed(states[i]) && Enabled(states[i], ops[i]) && states[i + 1] == Apply(states[i], ops[i])
  {
    hide WellFormed, Enabled, Apply, Init;
  }

  ghost predicate Good(s: Sched) {
    Timely(s) && Shows(s) && Counted(s) && ScansOk(s)
  }

  lemma InitGood(start: int, gap: nat)
    ensures Good(Init(StandardDials(), start, gap))
  {
  }

  lemma OpKeepsGood(s: Sched, op: Op)
    requires Good(s) && Enabled(s, op)
    ensures Good(Apply(s, op))
  {
    assert WellFormed(s);
    hide WellFormed, Timely, Shows, Counted, ScansOk, Enabled, Apply;
    OpKeepsTime(s, op);
    ShowsKept(s, op);
    CountedKept(s, op);
    ScansKept(s, op);
  }

  /** No operation changes anything of a dial but its pointer. */
  ghost predicate SameDials(ds: seq<Dial>, other: seq<Dial>) {
    |ds| == |other| && forall j :: 0 <= j < |ds| ==> ds[j].interval == other[j].interval && ds[j].scales == other[j].scales
  }

  lemma OpKeepsDials(s: Sched, op: Op)
    requires WellFormed(s) && Enabled(s, op)
    ensures SameDials(Apply(s, op).v.dials, s.v.dials) && Apply(s, op).gap == s.gap
  {
  }

  lemma {:induction false} RunGood(states: seq<Sched>, ops: seq<Op>, start: int, gap: nat, i: nat)
    requires Run(states, ops, start, gap) && i < |states|
    ensures Good(states[i]) && states[i].gap == gap
    ensures SameDials(states[i].v.dials, StandardDials()) && |states[i].v.dials| == 3
  {
    hide Good, Enabled, Apply;
    if i == 0 {
      InitGood(start, gap);
    } else {
      RunGood(states, ops, start, gap, i - 1);
      RunStep(states, ops, start, gap, i - 1);
      OpKeepsGood(states[i - 1], ops[i - 1]);
      OpKeepsDials(states[i - 1], ops[i - 1]);
    }
  }

  /** The slack of a timer is fixed by the wheel it enters: nothing under a minute of delay, a minute under an
      hour of delay, and an hour beyond that, however many turns of the hour wheel the delay takes. */
  lemma EntrySlack(states: seq<Sched>, ops: seq<Op>, start: int, gap: nat, i: nat)
    requires Run(states, ops, start, gap) && i < |ops| && ops[i].Create?
    ensures Entered(states[i], ops[i], states[i + 1])
  {
    hide Run, Good, WellFormed, Enabled, Apply, Entered;
    RunLength(states, ops, start, gap);
    RunGood(states, ops, start, gap, i);
    RunStep(states, ops, start, gap, i);
    CreateEnters(states[i], ops[i]);
  }

  /** The new timer with its due time, and the slack that its delay gives it. */
  ghost predicate Entered(s: Sched, op: Op, t: Sched)
    requires op.Create?
  {
    var id, due := s.idGen + 1, GoDiv(op.unixNano, NANOS_PER_MILLI);
    && id !in s.flat && id in t.flat && t.flat[id].timer == Timer(due, op.interval, op.times)
    && t.flat[id].accepted == s.now && t.flat[id].slack == SlackFor(due - s.now)
  }

  function SlackFor(delay: int): (slack: int) {
    if delay < 60_000 then 0 else if delay < 3_600_000 then 60_000 else 3_600_000
  }

  lemma CreateEnters(s: Sched, op: Op)
    requires Good(s) && SameDials(s.v.dials, StandardDials()) && Enabled(s, op) && op.Create?
    ensures Entered(s, op, Apply(s, op))
  {
    hide PlaceFrom;
    EntryWheel(s.v.dials, GoDiv(op.unixNano, NANOS_PER_MILLI), s.now);
    assert Counted(s);
  }

  lemma EntryWheel(ds: seq<Dial>, due: int, now: int)
    requires DialsOk(ds) && SameDials(ds, StandardDials())
    ensures Slack(ds, PlaceFrom(ds, 0, due, now, false).wheel) == SlackFor(due - now)
  {
    PlaceFromMeaning(ds, 0, due, now, false);
  }

  /** Timeliness: what fires is neither early nor late. */
  lemma {:induction false} FiredOnTime(states: seq<Sched>, ops: seq<Op>, start: int, gap: nat, i: nat, f: Firing)
    requires Run(states, ops, start, gap) && i < |states| && f in states[i].fired
    ensures f.due - 100 < f.at
    ensures f.at <= (if f.due < f.accepted then f.accepted else f.due) + f.slack + gap
  {
    RunGood(states, ops, start, gap, i);
  }

  /** Timeliness: no accepted timer is still waiting after its deadline and one poll gap. */
  lemma {:induction false} PendingNotOverdue(states: seq<Sched>, ops: seq<Op>, start: int, gap: nat, i: nat, id: TimerId)
    requires Run(states, ops, start, gap) && i < |states| && id in states[i].flat
    ensures states[i].now <= states[i].flat[id].Deadline() + gap
  {
    RunGood(states, ops, start, gap, i);
    assert RecOk(states[i], states[i].flat[id]);
  }

  /** Conservation: an accepted id is in exactly one slot of one wheel, or in the hands of a tick under way, until
      it is used up or removed; and every use is accounted for. */
  lemma {:induction false} TimersConserved(states: seq<Sched>, ops: seq<Op>, start: int, gap: nat, i: nat, id: TimerId)
    requires Run(states, ops, start, gap) && i < |states| && 1 <= id <= states[i].idGen
    ensures var s := states[i];
            && id in s.plan && id in s.count && id in s.lost
            && (id !in s.removed ==> s.count[id] + Rest(s, id) + s.lost[id] == Uses(s.plan[id].times))
            && (id in s.flat && s.flat[id].at.InSlot? ==>
                  exists p :: p in s.v.spots && p.id == id && s.v.spots[p] == s.flat[id].timer)
            && (id in s.flat && s.flat[id].at.InHand? ==> s.flat[id].at.wheel < |s.ticking| && s.ticking[s.flat[id].at.wheel])
            && (forall p, q :: p in s.v.spots && q in s.v.spots && p.id == q.id == id ==> p == q && id in s.flat)
  {
    RunGood(states, ops, start, gap, i);
    var s := states[i];
    assert CountOk(s, id);
    if id in s.flat {
      assert RecOk(s, s.flat[id]);
      if s.flat[id].at.InSlot? {
        assert Spot(s.flat[id].at.wheel, s.flat[id].at.slot, id) in s.v.spots;
      }
    }
  }

  /** A timer that fires once, or repeats at least 100 ms apart, and is never removed, has fired exactly as often
      as it was created for once it has left the wheels. */
  lemma {:induction false} FiresExactly(states: seq<Sched>, ops: seq<Op>, start: int, gap: nat, i: nat, id: TimerId)
    requires Run(states, ops, start, gap) && i < |states| && 1 <= id <= states[i].idGen
    requires id !in states[i].removed && id !in states[i].flat
    requires id in states[i].plan && Spaced(states[i].plan[id])
    ensures id in states[i].count && states[i].count[id] == Uses(states[i].plan[id].times)
  {
    RunGood(states, ops, start, gap, i);
    assert CountOk(states[i], id);
  }

  /** The scheduler when its first timer, due at once, has just been created at time 0. */
  ghost predicate FirstTimer(s: Sched, t: Timer) {
    && s.v == Wheels(StandardDials(), imap[Spot(2, 0, 1) := t])
    && s.now == 0 && s.ticking == [false, false, false] && |s.last| == 3
    && s.flat == map[1 := Record(InSlot(2, 0), t, 0, 0)]
    && s.count == map[1 := 0] && s.lost == map[1 := 0] && s.removed == {} && s.idGen == 1 && s.scans == map[]
  }

  lemma CreateFirst(times: int, interval: int, gap: nat)
    ensures var s0 := Init(StandardDials(), 0, gap);
            && WellFormed(s0) && Enabled(s0, Create(0, 0, times, interval))
            && FirstTimer(Apply(s0, Create(0, 0, times, interval)), Timer(0, interval, times))
  {
    var s0 := Init(StandardDials(), 0, gap);
    assert PlaceFrom(StandardDials(), 0, 0, 0, false) == InSlot(2, 0) by {
      PlaceFromMeaning(StandardDials(), 0, 0, 0, false);
    }
    assert Put(s0.v, InSlot(2, 0), 1, Timer(0, interval, times)).spots == imap[Spot(2, 0, 1) := Timer(0, interval, times)];
  }

  /** Timer 1 has fired once and lost one of its `times` firings. */
  ghost predicate LostOne(s: Sched, times: int) {
    && 1 in s.count && s.count[1] == 1 && 1 in s.lost && s.lost[1] == 1 && 1 !in s.removed
    && (if times == 2 then 1 !in s.flat else 1 in s.flat && s.flat[1].timer.times == times - 2)
  }

  lemma PollFirst(s: Sched, t: Timer)
    requires FirstTimer(s, t) && t.unixts == 0 && VisitsOk(StandardDials(), 0, t, 0, 0, 2)
    ensures WellFormed(s) && PollEnabled(s, 0, map[1 := 2])
    ensures LostOne(AfterPoll(s, 0, map[1 := 2]), t.times)
  {
    hide PollEnabled, FirstTimer, VisitsOk, WellFormed, LostOne, AfterPoll, PollOk, LeafSlot;
    FirstPollOk(s, t);
    FirstPollEnabled(s, t);
    FirstPollResult(s, t);
  }

  lemma IdleIsFree(s: Sched, moves: imap<TimerId, Move>)
    requires s.ticking == [false, false, false]
    ensures WaysBackFree(s, moves)
  {
  }

  lemma FirstPollEnabled(s: Sched, t: Timer)
    requires FirstTimer(s, t) && WellFormed(s) && PollOk(s.v, 0, 0, 0, map[1 := 2])
    ensures PollEnabled(s, 0, map[1 := 2])
  {
    assert Clock(0, 0) && WellFormed(s);
    IdleIsFree(s, Readded(s.v.dials, 0, LeafSlot(s), 0, 0, map[1 := 2]));
    hide PollOk, Clock, Current, BackAt, Readded, WaysBackFree, WellFormed, LeafSlot, DialsOk;
  }

  lemma FirstPollResult(s: Sched, t: Timer)
    requires FirstTimer(s, t) && t.times >= 2 && WellFormed(s) && PollEnabled(s, 0, map[1 := 2])
    ensures LostOne(AfterPoll(s, 0, map[1 := 2]), t.times)
  {
    hide PollEnabled, PollOk, PollWheels, GoDiv, PlaceFrom, Current, SlotAhead, Clock, DialsOk;
    var flat := PollFlat(s, 0, map[1 := 2]);
    assert 1 in flat <==> 2 < t.times;
  }

  lemma FirstPollOk(s: Sched, t: Timer)
    requires FirstTimer(s, t) && t.unixts == 0 && VisitsOk(StandardDials(), 0, t, 0, 0, 2)
    ensures WellFormed(s) && PollOk(s.v, 0, 0, 0, map[1 := 2]) && t.times >= 2
    ensures LeafSlot(s) == imap[1 := t]
  {
    assert LeafSlot(s) == imap[1 := t];
  }

  ghost function Last(states: seq<Sched>): (r: Sched)
    requires |states| > 0
  {
    states[|states| - 1]
  }

  lemma NoOpRun()
    ensures Run([Init(StandardDials(), 0, 0)], [], 0, 0)
  {
  }

  lemma OneOpMore(states: seq<Sched>, ops: seq<Op>, op: Op, start: int, gap: nat)
    requires Run(states, ops, start, gap) && |states| > 0 && WellFormed(Last(states)) && Enabled(Last(states), op)
    ensures Run(states + [Apply(Last(states), op)], ops + [op], start, gap)
  {
    hide WellFormed, Enabled, Apply, Init;
  }

  /** The condition of FiresExactly is exact: for any other repetition there is a run in which the poll's loop
      produces the re-added entry again, reports the timer once and uses two of its firings. */
  lemma CloseRepetitionsAreLost(times: int, interval: int) returns (states: seq<Sched>, ops: seq<Op>)
    requires !Spaced(Plan(times, interval))
    ensures Run(states, ops, 0, 0) && |ops| == 2
    ensures ops[0] == Create(0, 0, times, interval) && LostOne(states[2], times)
  {
    hide Enabled, PollEnabled, Apply, AfterPoll, Init, FirstTimer, VisitsOk, WellFormed, GoDiv, DialsOk, LostOne, Run;
    hide StandardDials;
    var s0, t := Init(StandardDials(), 0, 0), Timer(0, interval, times);
    CreateFirst(times, interval, 0);
    DueAgain(times, interval);
    NoOpRun();
    var create, poll := Create(0, 0, times, interval), Poll(0, map[1 := 2]);
    OneOpMore([s0], [], create, 0, 0);
    var s1 := Apply(s0, create);
    PollFirst(s1, t);
    PollIsOp(s1, 0, map[1 := 2]);
    OneOpMore([s0] + [s1], [] + [create], poll, 0, 0);
    states, ops := [s0] + [s1] + [Apply(s1, poll)], [] + [create] + [poll];
  }

  lemma DueAgain(times: int, interval: int)
    requires !Spaced(Plan(times, interval))
    ensures VisitsOk(StandardDials(), 0, Timer(0, interval, times), 0, 0, 2)
  {
    PlaceFromMeaning(StandardDials(), 0, GoDiv(interval, NANOS_PER_MILLI), 0, false);
  }

  // Removal.

  lemma VisitedIsPending(s: Sched, nano: int, visits: map<TimerId, nat>, id: TimerId)
    requires WellFormed(s) && Shows(s) && PollEnabled(s, nano, visits) && id in visits
    ensures id in s.flat
  {
    var n := |s.v.dials| - 1;
    assert Spot(n, s.v.dials[n].cur, id) in s.v.spots;
  }

  ghost predicate Gone(s: Sched, id: TimerId) {
    id in s.plan && id !in s.flat && id in s.count
  }

  lemma GoneStaysGone(s: Sched, op: Op, id: TimerId)
    requires Good(s) && Enabled(s, op) && Gone(s, id)
    ensures Gone(Apply(s, op), id) && Apply(s, op).count[id] == s.count[id]
  {
    if op.Poll? && id in op.visits {
      VisitedIsPending(s, op.nano, op.visits, id);
    }
  }

  /** The longest interval, in ns, whose repetitions a removal cannot miss: renewed at the last nanosecond of a
      millisecond, such a timer is still less than a minute away. */
  const CAUGHT_INTERVAL := 59_999_000_000

  lemma CaughtStaysLow(ds: seq<Dial>, interval: int)
    requires SameDials(ds, StandardDials())
    ensures StaysLow(ds, interval) <==> interval <= CAUGHT_INTERVAL
  {
    assert ds[0].interval == 3_600_000 && ds[1].interval == 60_000;
  }

  lemma ScannedIsGone(s: Sched, scan: nat)
    requires Good(s) && SameDials(s.v.dials, StandardDials()) && scan in s.scans && s.scans[scan].next == 3
    requires s.scans[scan].id in s.plan
    requires s.scans[scan].lastUse || s.plan[s.scans[scan].id].interval <= CAUGHT_INTERVAL
    ensures Gone(s, s.scans[scan].id)
  {
    var id := s.scans[scan].id;
    CaughtStaysLow(s.v.dials, s.plan[id].interval);
    hide StaysLow, Waits, Clocks;
    assert ScanOk(s, scan) && CountOk(s, id);
    assert id in s.flat ==> RecOk(s, s.flat[id]);
  }

  lemma RunLength(states: seq<Sched>, ops: seq<Op>, start: int, gap: nat)
    requires Run(states, ops, start, gap)
    ensures |states| == |ops| + 1
  {
    hide Enabled, Apply, Init;
  }

  lemma GoneStep(states: seq<Sched>, ops: seq<Op>, start: int, gap: nat, k: nat, id: TimerId)
    requires Run(states, ops, start, gap) && k < |ops| && Gone(states[k], id)
    ensures Gone(states[k + 1], id) && states[k + 1].count[id] == states[k].count[id]
  {
    hide Good, Run, Enabled, Apply, WellFormed, Gone;
    RunLength(states, ops, start, gap);
    RunGood(states, ops, start, gap, k);
    RunStep(states, ops, start, gap, k);
    GoneStaysGone(states[k], ops[k], id);
  }

  lemma {:induction false} GoneForGood(states: seq<Sched>, ops: seq<Op>, start: int, gap: nat, i: nat, k: nat, id: TimerId)
    requires Run(states, ops, start, gap) && i <= k < |states| && Gone(states[i], id)
    ensures Gone(states[k], id) && states[k].count[id] == states[i].count[id]
    decreases k
  {
    hide Run, Gone;
    RunLength(states, ops, start, gap);
    if i < k {
      GoneForGood(states, ops, start, gap, i, k - 1, id);
      GoneStep(states, ops, start, gap, k - 1, id);
    }
  }

  lemma GoneHasNoSpot(s: Sched, id: TimerId)
    requires Good(s) && Gone(s, id)
    ensures forall p :: p in s.v.spots ==> p.id != id
  {
  }

  lemma ScansAreOfPlans(s: Sched, scan: nat)
    requires Good(s) && scan in s.scans
    ensures s.scans[scan].id in s.plan
  {
  }

  /** Removal under interleaving: once the scan over the three wheels is through, a timer that had no repetition left
      when the scan began, or that repeats at most every 59.999 s apart, is in no wheel and never fires afterwards,
      whatever ticks, polls, additions and other removals came in between the three steps. That polls are one step
      matters here: see ScanInsidePoll. */
  lemma RemovedForGood(states: seq<Sched>, ops: seq<Op>, start: int, gap: nat, i: nat, k: nat, scan: nat)
    requires Run(states, ops, start, gap) && i <= k < |states|
    requires scan in states[i].scans && states[i].scans[scan].next == 3
    requires var id := states[i].scans[scan].id;
             states[i].scans[scan].lastUse || (id in states[i].plan ==> states[i].plan[id].interval <= CAUGHT_INTERVAL)
    ensures var id := states[i].scans[scan].id;
            && Gone(states[i], id) && Gone(states[k], id) && states[k].count[id] == states[i].count[id]
            && forall p :: p in states[k].v.spots ==> p.id != id
  {
    hide Run, Good, Gone;
    var id := states[i].scans[scan].id;
    RunGood(states, ops, start, gap, i);
    ScansAreOfPlans(states[i], scan);
    ScannedIsGone(states[i], scan);
    GoneForGood(states, ops, start, gap, i, k, id);
    RunGood(states, ops, start, gap, k);
    GoneHasNoSpot(states[k], id);
  }

  /** One visit of the poll to the timer `id` of the current slot in its two lock sections, between which a removal of
      the timer passes over all wheels. */
  ghost function VisitAroundScan(v: Wheels, now: int, nano: int, id: TimerId): (r: Wheels)
    requires DialsOk(v.dials) && id in Current(v, |v.dials| - 1)
  {
    var n, t := |v.dials| - 1, Current(v, |v.dials| - 1)[id];
    var scanned := EraseUpTo(Drop(v, n, v.dials[n].cur, iset{id}), |v.dials|, id);
    if t.times <= 1 then scanned else Put(scanned, BackAt(v.dials, 0, t, now, nano, 1), id, Left(t, nano, 1))
  }

  /** That the poll is one step matters for removals: a scan between the two lock sections of a visit has no effect, so
      exactly the timers with a repetition left are still in the wheels afterwards, whatever their interval. */
  lemma ScanInsidePoll(s: Sched, nano: int, id: TimerId)
    requires WellFormed(s) && Shows(s) && id in LeafSlot(s)
    ensures var after := VisitAroundScan(s.v, s.now, nano, id);
            && after == PollWheels(s.v, 0, s.now, nano, map[id := 1])
            && ((exists p :: p in after.spots && p.id == id) <==> LeafSlot(s)[id].times >= 2)
  {
    hide PollWheels, BackAt, Left;
    var n, t := |s.v.dials| - 1, LeafSlot(s)[id];
    var dropped := Drop(s.v, n, s.v.dials[n].cur, iset{id});
    NothingVisited(s.v, 0, LeafSlot(s), s.now, nano);
    VisitOnce(s.v, 0, s.now, nano, map[], id, 0);
    assert map[][id := 1] == map[id := 1];
    NothingToScan(s, id);
    if t.times >= 2 {
      var at := BackAt(s.v.dials, 0, t, s.now, nano, 1);
      assert Spot(at.wheel, at.slot, id) in VisitAroundScan(s.v, s.now, nano, id).spots;
    }
  }

  /** A timer that the poll has in hand is in no wheel. */
  lemma NothingToScan(s: Sched, id: TimerId)
    requires WellFormed(s) && Shows(s) && id in LeafSlot(s)
    ensures var n := |s.v.dials| - 1; var dropped := Drop(s.v, n, s.v.dials[n].cur, iset{id});
            EraseUpTo(dropped, |s.v.dials|, id) == dropped && forall p :: p in dropped.spots ==> p.id != id
  {
    var n := |s.v.dials| - 1;
    var dropped := Drop(s.v, n, s.v.dials[n].cur, iset{id});
    assert Spot(n, s.v.dials[n].cur, id) in s.v.spots;
    assert EraseUpTo(dropped, |s.v.dials|, id).spots == dropped.spots;
  }

  // Any other repeating timer can slip past a removal.

  /** The last nanosecond of the first millisecond. */
  const LATE := 999_999

  /** Timer 1 is the only one, in the given slot, and the only removal, of it, goes on to wheel `next`. */
  ghost predicate OneAt(s: Sched, at: Where, t: Timer, next: nat) {
    && at.InSlot? && s.v == Wheels(StandardDials(), imap[Spot(at.wheel, at.slot, 1) := t])
    && s.now == 0 && s.ticking == [false, false, false] && |s.last| == 3 && s.idGen == 1
    && s.flat.Keys == {1} && s.flat[1].at == at && s.flat[1].timer == t
    && 0 in s.scans && s.scans[0] == Scan(1, next, false)
  }

  lemma ScanStarts(s: Sched, t: Timer)
    requires FirstTimer(s, t) && t.times >= 2
    ensures WellFormed(s) && Enabled(s, RemoveStart(0, 1)) && OneAt(Apply(s, RemoveStart(0, 1)), InSlot(2, 0), t, 0)
  {
  }

  lemma ScanMisses(s: Sched, at: Where, t: Timer, next: nat)
    requires OneAt(s, at, t, next) && next < 3 && at.wheel != next
    ensures WellFormed(s) && Enabled(s, RemoveStep(0)) && OneAt(Apply(s, RemoveStep(0)), at, t, next + 1)
  {
    assert Erase(s.v, next, 1).spots == s.v.spots;
  }

  lemma OneTimerVisited(v: Wheels, t: Timer)
    requires v == Wheels(StandardDials(), imap[Spot(2, 0, 1) := t]) && Due(t, 0)
    ensures PollOk(v, 0, 0, LATE, map[1 := 1])
  {
    hide VisitsOk, Current;
    CurrentOfOne(v, t);
    VisitedOnceOk(t);
  }

  lemma CurrentOfOne(v: Wheels, t: Timer)
    requires v == Wheels(StandardDials(), imap[Spot(2, 0, 1) := t])
    ensures Current(v, 2) == imap[1 := t]
  {
  }

  lemma VisitedOnceOk(t: Timer)
    ensures VisitsOk(StandardDials(), 0, t, 0, LATE, 1)
  {
    hide BackAt, Left;
  }

  lemma OneReadded(t: Timer)
    requires t.times >= 2
    ensures Readded(StandardDials(), 0, imap[1 := t], 0, LATE, map[1 := 1])
         == imap[1 := Move(BackAt(StandardDials(), 0, t, 0, LATE, 1), Left(t, LATE, 1))]
  {
    hide BackAt, Left;
  }

  lemma OneLanded(v: Wheels, t: Timer, at: Where, renewed: Timer, p: Spot)
    requires v == Wheels(StandardDials(), imap[Spot(2, 0, 1) := t]) && at.InSlot?
    ensures var spots := Land(Drop(v, 2, 0, Visited(map[1 := 1])), imap[1 := Move(at, renewed)]).spots;
            (p in spots <==> p == Spot(at.wheel, at.slot, 1)) && (p in spots ==> spots[p] == renewed)
  {
  }

  /** A poll that finds one due timer with repetitions left moves it to where it goes back. */
  lemma OneTimerMoved(v: Wheels, t: Timer, at: Where)
    requires v == Wheels(StandardDials(), imap[Spot(2, 0, 1) := t]) && t.times >= 2
    requires at == BackAt(StandardDials(), 0, t, 0, LATE, 1)
    ensures PollWheels(v, 0, 0, LATE, map[1 := 1])
            == Wheels(StandardDials(), imap[Spot(at.wheel, at.slot, 1) := Left(t, LATE, 1)])
  {
    hide PlaceFrom, BackAt, Left, Readded, Current, Land, Drop, Visited;
    CurrentOfOne(v, t);
    OneReadded(t);
    var out, renewed := PollWheels(v, 0, 0, LATE, map[1 := 1]), Left(t, LATE, 1);
    forall p
      ensures p in out.spots <==> p == Spot(at.wheel, at.slot, 1)
      ensures p in out.spots ==> out.spots[p] == renewed
    {
      OneLanded(v, t, at, renewed, p);
    }
    assert out.spots == imap[Spot(at.wheel, at.slot, 1) := renewed];
  }

  lemma BackAboveLeaf(t: Timer)
    requires t.interval > CAUGHT_INTERVAL
    ensures BackAt(StandardDials(), 0, t, 0, LATE, 1).wheel < 2
  {
    PlaceFromMeaning(StandardDials(), 0, Left(t, LATE, 1).unixts, 0, false);
    FarRenewal(t.interval);
  }

  lemma FarRenewal(interval: int)
    requires interval > CAUGHT_INTERVAL
    ensures GoDiv(LATE + interval, NANOS_PER_MILLI) >= 60_000
  {
  }

  /** The timer fires between two steps of the scan and goes back to a wheel that the scan has left. */
  lemma FiresBehindTheScan(s: Sched, t: Timer)
    requires OneAt(s, InSlot(2, 0), t, 2) && t.unixts == 0 && t.times >= 2 && t.interval > CAUGHT_INTERVAL
    ensures WellFormed(s) && PollEnabled(s, LATE, map[1 := 1])
    ensures var at := BackAt(StandardDials(), 0, t, 0, LATE, 1);
            at.wheel < 2 && OneAt(AfterPoll(s, LATE, map[1 := 1]), at, Left(t, LATE, 1), 2)
  {
    BackAboveLeaf(t);
    OneTimerVisited(s.v, t);
    OneTimerMoved(s.v, t, BackAt(StandardDials(), 0, t, 0, LATE, 1));
    FiringEnabled(s, t);
    hide PollOk, PollEnabled, PlaceFrom, DialsOk, BackAt, PollWheels, Left, WellFormed, OneAt, Readded, AfterPoll;
    FiredBehind(s, t, BackAt(StandardDials(), 0, t, 0, LATE, 1));
  }

  lemma FiringEnabled(s: Sched, t: Timer)
    requires OneAt(s, InSlot(2, 0), t, 2) && PollOk(s.v, 0, 0, LATE, map[1 := 1])
    ensures WellFormed(s) && PollEnabled(s, LATE, map[1 := 1])
  {
    assert Clock(LATE, 0) && WellFormed(s);
    IdleIsFree(s, Readded(s.v.dials, 0, LeafSlot(s), 0, LATE, map[1 := 1]));
    hide PollOk, Clock, Current, BackAt, Readded, WaysBackFree, WellFormed, LeafSlot, DialsOk;
  }

  lemma FiredBehind(s: Sched, t: Timer, at: Where)
    requires OneAt(s, InSlot(2, 0), t, 2) && t.times >= 2
    requires WellFormed(s) && PollEnabled(s, LATE, map[1 := 1])
    requires at.InSlot? && BackAt(StandardDials(), 0, t, 0, LATE, 1) == at
    requires PollWheels(s.v, 0, 0, LATE, map[1 := 1])
             == Wheels(StandardDials(), imap[Spot(at.wheel, at.slot, 1) := Left(t, LATE, 1)])
    ensures OneAt(AfterPoll(s, LATE, map[1 := 1]), at, Left(t, LATE, 1), 2)
  {
    hide PollEnabled, PollOk, PlaceFrom, DialsOk, BackAt, PollWheels, Left;
  }

  /** The condition of RemovedForGood is exact while polls are one step: for every timer with a repetition left and a
      longer interval there is a run in which a removal passes over all three wheels and leaves the timer in one. */
  lemma RepetitionEscapesRemoval(times: int, interval: int) returns (states: seq<Sched>, ops: seq<Op>)
    requires times >= 2 && interval > CAUGHT_INTERVAL
    ensures Run(states, ops, 0, 0) && |ops| >= 2 && ops[0] == Create(0, 0, times, interval) && ops[1] == RemoveStart(0, 1)
    ensures exists at, t :: OneAt(Last(states), at, t, 3)
  {
    var t, s0 := Timer(0, interval, times), Init(StandardDials(), 0, 0);
    CreateFirst(times, interval, 0);
    NoOpRun();
    hide WellFormed, Enabled, PollEnabled, Apply, AfterPoll, Init, FirstTimer, OneAt, Run, Left, BackAt;
    states, ops := OneOpDone([s0], [], Create(0, 0, times, interval));
    ScanStarts(Last(states), t);
    states, ops := OneOpDone(states, ops, RemoveStart(0, 1));
    states, ops := EscapeFrom(states, ops, t);
  }

  lemma EscapeFrom(before: seq<Sched>, done: seq<Op>, t: Timer) returns (states: seq<Sched>, ops: seq<Op>)
    requires Run(before, done, 0, 0) && |before| > 0 && OneAt(Last(before), InSlot(2, 0), t, 0)
    requires t.unixts == 0 && t.times >= 2 && t.interval > CAUGHT_INTERVAL
    ensures Run(states, ops, 0, 0) && done <= ops
    ensures exists at, t :: OneAt(Last(states), at, t, 3)
  {
    hide WellFormed, Enabled, PollEnabled, Apply, AfterPoll, Init, FirstTimer, OneAt, Run, Left, BackAt;
    var at := BackAt(StandardDials(), 0, t, 0, LATE, 1);
    ScanMisses(Last(before), InSlot(2, 0), t, 0);
    states, ops := OneOpDone(before, done, RemoveStep(0));
    ScanMisses(Last(states), InSlot(2, 0), t, 1);
    states, ops := OneOpDone(states, ops, RemoveStep(0));
    FiresBehindTheScan(Last(states), t);
    PollIsOp(Last(states), LATE, map[1 := 1]);
    states, ops := OneOpDone(states, ops, Poll(LATE, map[1 := 1]));
    ScanMisses(Last(states), at, Left(t, LATE, 1), 2);
    states, ops := OneOpDone(states, ops, RemoveStep(0));
  }

  lemma OneOpDone(states: seq<Sched>, ops: seq<Op>, op: Op) returns (states': seq<Sched>, ops': seq<Op>)
    requires Run(states, ops, 0, 0) && WellFormed(Last(states)) && Enabled(Last(states), op)
    ensures Run(states', ops', 0, 0) && Last(states') == Apply(Last(states), op) && ops' == ops + [op]
  {
    OneOpMore(states, ops, op, 0, 0);
    states', ops' := states + [Apply(Last(states), op)], ops + [op];
  }
}
