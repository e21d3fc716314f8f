/** The scheduler as a timed state machine, at the grain of its locks (jtimer/timewheel.go, jtimer/timescheduler.go).

    Every wheel ticks exactly every `interval` ms, in any order at coinciding instants; a poll comes at least every
    `gap` ms. A tick takes the slot, re-adds the timers one by one and moves the pointer as separate steps, holding
    the wheel's own lock throughout and the locks of the wheels below while a timer goes down; all other operations
    may come in between as far as the locks allow. A poll is one step here, although the source gives up the finest
    wheel's lock while it puts a repeating timer back. */
module WheelTiming {
  import opened Arithmetic
  import opened WheelSpec

  /** What is known of an accepted timer: where it is, since when, and how late its entry wheel can make it. */
  datatype Record = Record(at: Where, timer: Timer, accepted: int, slack: int) {
    function Deadline(): (r: int) {
      (if timer.unixts < accepted then accepted else timer.unixts) + slack
    }
  }

  datatype Firing = Firing(id: TimerId, due: int, accepted: int, slack: int, at: int)

  datatype Plan = Plan(times: int, interval: int)

  /** A removal under way: its timer, the next wheel it will look at, and whether the timer had no repetition left
      at the start. */
  datatype Scan = Scan(id: TimerId, next: nat, lastUse: bool)

  /** `v` is the state of the wheels; `flat`, `plan`, `count`, `lost`, `removed` and `fired` are the history. */
  datatype Sched = Sched(
    v: Wheels, last: seq<int>, ticking: seq<bool>, now: int, lastPoll: int, gap: nat, idGen: nat,
    flat: map<TimerId, Record>, plan: map<TimerId, Plan>, count: map<TimerId, nat>, lost: map<TimerId, nat>,
    removed: set<TimerId>, scans: map<nat, Scan>, fired: set<Firing>)

  datatype Op =
    | Advance(millis: nat)
    | Create(nano: int, unixNano: int, times: int, interval: int)
    | TickBegin(wheel: nat)
    | TickMove(id: TimerId)
    | TickEnd(wheel: nat)
    | Poll(nano: int, visits: map<TimerId, nat>)
    | RemoveStart(scan: nat, timer: TimerId)
    | RemoveStep(scan: nat)

  ghost function Init(ds: seq<Dial>, start: int, gap: nat): (r: Sched) {
    Sched(Wheels(ds, imap[]), seq(|ds|, _ => start), seq(|ds|, _ => false), start, start, gap, 0,
          map[], map[], map[], map[], {}, map[], {})
  }

  /** At least one wheel, each with a positive interval, none coarser than the one above it. */
  ghost predicate Graded(ds: seq<Dial>) {
    && DialsOk(ds)
    && forall j, l :: 0 <= j <= l < |ds| ==> ds[l].interval <= ds[j].interval
  }

  function Slack(ds: seq<Dial>, wheel: nat): (r: int)
    requires wheel < |ds|
  {
    if wheel == |ds| - 1 then 0 else ds[wheel].interval
  }

  predicate Free(s: Sched, from: int, to: int) {
    forall l :: 0 <= l < |s.ticking| && from <= l <= to ==> !s.ticking[l]
  }

  /** The locks that the poll needs to put its repeating timers back. */
  ghost predicate WaysBackFree(s: Sched, moves: imap<TimerId, Move>) {
    forall id :: id in moves ==> Free(s, 0, moves[id].at.wheel)
  }

  predicate Clock(nano: int, now: int) {
    0 <= nano && GoDiv(nano, NANOS_PER_MILLI) == now
  }

  ghost predicate WellFormed(s: Sched) {
    DialsOk(s.v.dials) && |s.v.dials| == |s.last| == |s.ticking|
  }

  ghost function LeafSlot(s: Sched): (r: imap<TimerId, Timer>)
    requires WellFormed(s)
  {
    Current(s.v, |s.v.dials| - 1)
  }

  ghost predicate PollEnabled(s: Sched, nano: int, visits: map<TimerId, nat>)
    requires WellFormed(s)
  {
    && Clock(nano, s.now) && !s.ticking[|s.ticking| - 1] && PollOk(s.v, 0, s.now, nano, visits)
    && WaysBackFree(s, Readded(s.v.dials, 0, LeafSlot(s), s.now, nano, visits))
  }

  ghost predicate Enabled(s: Sched, op: Op)
    requires WellFormed(s)
  {
    var ds, n := s.v.dials, |s.v.dials|;
    match op
    case Advance(d) =>
      && Free(s, 0, n - 1)
      && (forall j :: 0 <= j < n ==> s.now + d <= s.last[j] + ds[j].interval)
      && s.now + d <= s.lastPoll + s.gap
    case Create(nano, unixNano, _, _) =>
      && Clock(nano, s.now)
      && Free(s, 0, PlaceFrom(ds, 0, GoDiv(unixNano, NANOS_PER_MILLI), s.now, false).wheel)
    case TickBegin(j) => j < n && !s.ticking[j] && s.now == s.last[j] + ds[j].interval
    case TickMove(id) =>
      && id in s.flat && s.flat[id].at.InHand? && s.flat[id].at.wheel < n
      && var j := s.flat[id].at.wheel;
         Free(s, j + 1, PlaceFrom(ds, j, s.flat[id].timer.unixts, s.now, true).wheel)
    case TickEnd(j) => j < n && s.ticking[j] && forall id :: id in s.flat ==> s.flat[id].at != InHand(j)
    case Poll(nano, visits) => PollEnabled(s, nano, visits)
    case RemoveStart(scan, id) => scan !in s.scans && 1 <= id <= s.idGen
    case RemoveStep(scan) => scan in s.scans && s.scans[scan].next < n && !s.ticking[s.scans[scan].next]
  }

  ghost function Apply(s: Sched, op: Op): (r: Sched)
    requires WellFormed(s) && Enabled(s, op)
  {
    var ds, n := s.v.dials, |s.v.dials|;
    match op
    case Advance(d) => s.(now := s.now + d)
    case Create(nano, unixNano, times, interval) =>
      var t := Timer(GoDiv(unixNano, NANOS_PER_MILLI), interval, times);
      var id, at := s.idGen + 1, PlaceFrom(ds, 0, t.unixts, s.now, false);
      s.(idGen := id, v := Put(s.v, at, id, t),
         flat := s.flat[id := Record(at, t, s.now, Slack(ds, at.wheel))],
         plan := s.plan[id := Plan(times, interval)], count := s.count[id := 0], lost := s.lost[id := 0])
    case TickBegin(j) =>
      s.(ticking := s.ticking[j := true], v := Refresh(s.v, j, ds[j].cur),
         flat := map id | id in s.flat ::
           if s.flat[id].at == InSlot(j, ds[j].cur) then s.flat[id].(at := InHand(j)) else s.flat[id])
    case TickMove(id) =>
      var at := PlaceFrom(ds, s.flat[id].at.wheel, s.flat[id].timer.unixts, s.now, true);
      s.(v := Put(s.v, at, id, s.flat[id].timer), flat := s.flat[id := s.flat[id].(at := at)])
    case TickEnd(j) =>
      s.(ticking := s.ticking[j := false], last := s.last[j := s.last[j] + ds[j].interval], v := Turn(s.v, j))
    case Poll(nano, visits) => AfterPoll(s, nano, visits)
    case RemoveStart(scan, id) =>
      s.(scans := s.scans[scan := Scan(id, 0, id !in s.flat || s.flat[id].timer.times <= 1)])
    case RemoveStep(scan) =>
      var id, l := s.scans[scan].id, s.scans[scan].next;
      var found := id in s.flat && s.flat[id].at.InSlot? && s.flat[id].at.wheel == l;
      s.(v := Erase(s.v, l, id), scans := s.scans[scan := s.scans[scan].(next := l + 1)],
         flat := if found then s.flat - {id} else s.flat, removed := s.removed + {id})
  }

  /** The record of a timer after a poll that visited it: gone, or accepted again at the coarsest wheel. */
  ghost function PollFlat(s: Sched, nano: int, visits: map<TimerId, nat>): (r: map<TimerId, Record>)
    requires WellFormed(s)
  {
    map id | id in s.flat && (id !in visits || visits[id] < s.flat[id].timer.times) ::
      if id !in visits then s.flat[id]
      else
        var at := BackAt(s.v.dials, 0, s.flat[id].timer, s.now, nano, visits[id]);
        Record(at, Left(s.flat[id].timer, nano, visits[id]), s.now, Slack(s.v.dials, at.wheel))
  }

  /** What a poll triggers for one due timer. */
  function FiringOf(id: TimerId, r: Record, now: int, nano: int, visits: nat): (out: Firing)
    requires visits >= 1
  {
    if visits == 1 then Firing(id, r.timer.unixts, r.accepted, r.slack, now)
    else Firing(id, Left(r.timer, nano, visits - 1).unixts, now, 0, now)
  }

  ghost function AfterPoll(s: Sched, nano: int, visits: map<TimerId, nat>): (r: Sched)
    requires WellFormed(s) && PollEnabled(s, nano, visits)
  {
    s.(lastPoll := s.now,
       v := PollWheels(s.v, 0, s.now, nano, visits),
       flat := PollFlat(s, nano, visits),
       count := map id | id in s.count :: if id in visits then s.count[id] + 1 else s.count[id],
       lost := map id | id in s.lost :: if id in visits && visits[id] >= 1 then s.lost[id] + visits[id] - 1 else s.lost[id],
       fired := s.fired + set id | id in visits && id in s.flat && visits[id] >= 1 ::
                            FiringOf(id, s.flat[id], s.now, nano, visits[id]))
  }

  lemma PollIsOp(s: Sched, nano: int, visits: map<TimerId, nat>)
    requires WellFormed(s)
    ensures Enabled(s, Poll(nano, visits)) <==> PollEnabled(s, nano, visits)
    ensures PollEnabled(s, nano, visits) ==> Apply(s, Poll(nano, visits)) == AfterPoll(s, nano, visits)
  {
    hide PollEnabled, AfterPoll, WellFormed;
  }

  // Conservation: the wheels hold exactly the timers that are accepted and not gone.

  ghost predicate Shows(s: Sched) {
    && (forall p :: p in s.v.spots <==> p.id in s.flat && s.flat[p.id].at == InSlot(p.wheel, p.slot))
    && (forall p :: p in s.v.spots ==> s.v.spots[p] == s.flat[p.id].timer)
  }

  lemma ShowsKept(s: Sched, op: Op)
    requires WellFormed(s) && Shows(s) && Enabled(s, op)
    requires forall id :: id in s.flat ==> 1 <= id <= s.idGen
    ensures Shows(Apply(s, op))
  {
    match op
    case Poll(nano, visits) => PollShows(s, nano, visits);
    case Create(nano, unixNano, times, interval) =>
      var t := Timer(GoDiv(unixNano, NANOS_PER_MILLI), interval, times);
      PutShows(s, Apply(s, op), s.idGen + 1, PlaceFrom(s.v.dials, 0, t.unixts, s.now, false), t);
    case TickMove(id) =>
      var f := s.flat[id];
      PutShows(s, Apply(s, op), id, PlaceFrom(s.v.dials, f.at.wheel, f.timer.unixts, s.now, true), f.timer);
    case _ =>
  }

  lemma PutShows(s: Sched, out: Sched, id: TimerId, at: Where, t: Timer)
    requires Shows(s) && at.InSlot? && (id in s.flat ==> s.flat[id].at.InHand?)
    requires out.v == Put(s.v, at, id, t)
    requires out.flat.Keys == s.flat.Keys + {id} && out.flat[id].at == at && out.flat[id].timer == t
    requires forall x :: x in s.flat && x != id ==> out.flat[x] == s.flat[x]
    ensures Shows(out)
  {
  }

  lemma PollShows(s: Sched, nano: int, visits: map<TimerId, nat>)
    requires WellFormed(s) && Shows(s) && PollEnabled(s, nano, visits)
    ensures Shows(AfterPoll(s, nano, visits))
  {
    var out := AfterPoll(s, nano, visits);
    forall p
      ensures p in out.v.spots <==> p.id in out.flat && out.flat[p.id].at == InSlot(p.wheel, p.slot)
      ensures p in out.v.spots ==> out.v.spots[p] == out.flat[p.id].timer
    {
      PollShowsAt(s, nano, visits, p);
    }
  }

  lemma PollShowsAt(s: Sched, nano: int, visits: map<TimerId, nat>, p: Spot)
    requires WellFormed(s) && Shows(s) && PollEnabled(s, nano, visits)
    ensures var out := AfterPoll(s, nano, visits);
            && (p in out.v.spots <==> p.id in out.flat && out.flat[p.id].at == InSlot(p.wheel, p.slot))
            && (p in out.v.spots ==> out.v.spots[p] == out.flat[p.id].timer)
  {
    var n := |s.v.dials| - 1;
    var here := Spot(n, s.v.dials[n].cur, p.id);
    if p.id in visits {
      assert here in s.v.spots && s.flat[p.id].at == InSlot(n, s.v.dials[n].cur);
    }
  }

  // Timeliness.

  /** How many slots lie between the pointer and a slot. */
  function Ahead(d: Dial, slot: int): (r: int) {
    if slot >= d.cur then slot - d.cur else slot - d.cur + d.scales
  }

  ghost predicate Clocks(s: Sched)
    requires WellFormed(s)
  {
    && s.lastPoll <= s.now <= s.lastPoll + s.gap
    && forall j :: 0 <= j < |s.last| ==>
         && s.last[j] <= s.now <= s.last[j] + s.v.dials[j].interval
         && (s.ticking[j] ==> s.now == s.last[j] + s.v.dials[j].interval)
  }

  /** A timer that waits at distance k in a slot is not due before the pointer gets there; on the finest wheel
      that holds from distance 1 on, and from distance 2 while it is re-adding overdue timers. */
  ghost predicate Waits(d: Dial, finest: bool, ticking: bool, last: int, slot: int, due: int) {
    var k := Ahead(d, slot);
    && 0 <= slot < d.scales
    && (ticking && k == 0 ==> due >= last + d.scales * d.interval)
    && (!finest || k >= (if ticking then 2 else 1) ==> due >= last + k * d.interval)
  }

  ghost predicate RecOk(s: Sched, r: Record)
    requires WellFormed(s)
  {
    var n := |s.v.dials|;
    && r.accepted <= s.now && 0 <= r.slack && s.lastPoll <= r.Deadline()
    && r.at.wheel < n
    && (r.at.wheel < n - 1 ==> s.v.dials[r.at.wheel].interval <= r.slack)
    && match r.at
       case InHand(j) => s.ticking[j] && (j < n - 1 ==> r.timer.unixts >= s.last[j])
       case InSlot(j, i) => Waits(s.v.dials[j], j == n - 1, s.ticking[j], s.last[j], i, r.timer.unixts)
  }

  ghost predicate OnTime(f: Firing, gap: nat) {
    && f.due - MAX_TIME_DELAY < f.at
    && f.at <= (if f.due < f.accepted then f.accepted else f.due) + f.slack + gap
  }

  ghost predicate Timely(s: Sched) {
    && WellFormed(s) && Graded(s.v.dials) && Clocks(s)
    && (forall id :: id in s.flat ==> RecOk(s, s.flat[id]))
    && (forall f :: f in s.fired ==> OnTime(f, s.gap))
  }

  /** The slot that lies `delay` ahead, at least one interval, is as many turns of the pointer ahead as fit. */
  lemma AheadOfDelay(d: Dial, delay: int)
    requires d.Ok() && delay >= d.interval
    ensures var k := Ahead(d, SlotAhead(d, delay));
            && 0 <= k < d.scales && k * d.interval <= delay && (k == 0 ==> d.scales * d.interval <= delay)
  {
    var dn := delay / d.interval;
    DivBelow(delay, d.interval);
    AheadIsModulo(d.cur, dn, d.scales);
    ModBelow(dn, d.scales);
    hide SlotAhead;
    MulMonotone(dn % d.scales, dn, d.interval);
    if dn % d.scales == 0 {
      MulMonotone(d.scales, dn, d.interval);
    }
  }

  lemma DivBelow(a: int, b: int)
    requires 0 < b <= a
    ensures 1 <= a / b && (a / b) * b <= a
  {
  }

  lemma ModBelow(a: int, m: int)
    requires 1 <= a && 1 <= m
    ensures 0 <= a % m <= a && a % m < m && (a % m == 0 ==> m <= a)
  {
  }

  lemma AheadIsModulo(cur: int, dn: int, scales: int)
    requires 0 <= cur < scales && 0 <= dn
    ensures var slot := (cur + dn) % scales;
            dn % scales == if slot >= cur then slot - cur else slot - cur + scales
  {
    var q, r := dn / scales, dn % scales;
    assert dn == q * scales + r;
    if cur + r < scales {
      ModUnique(cur + dn, q, cur + r, scales);
    } else {
      ModUnique(cur + dn, q + 1, cur + r - scales, scales);
    }
  }

  lemma ModUnique(x: int, q: int, r: int, m: int)
    requires 0 <= r < m && x == q * m + r
    ensures x % m == r
  {
    var q', r' := x / m, x % m;
    assert (q' - q) * m == r - r' && (q - q') * m == r' - r;
    if q' > q {
      MulMonotone(1, q' - q, m);
    } else if q' < q {
      MulMonotone(1, q - q', m);
    }
  }

  /** A timer put into a slot, by its creation, by a poll or by a tick of wheel `j`, waits there. */
  lemma PlacedWaits(s: Sched, j: nat, due: int, moving: bool)
    requires WellFormed(s) && Clocks(s) && j < |s.v.dials|
    requires moving <==> s.ticking[j]
    requires Free(s, j + 1, PlaceFrom(s.v.dials, j, due, s.now, moving).wheel)
    ensures var at := PlaceFrom(s.v.dials, j, due, s.now, moving); var l := at.wheel;
            Waits(s.v.dials[l], l == |s.v.dials| - 1, s.ticking[l], s.last[l], at.slot, due)
  {
    var at := PlaceFrom(s.v.dials, j, due, s.now, moving);
    var l, delay := at.wheel, due - s.now;
    var d := s.v.dials[l];
    PlaceFromMeaning(s.v.dials, j, due, s.now, moving);
    if delay >= d.interval {
      assert at.slot == SlotAhead(d, delay);
      AheadOfDelay(d, delay);
    } else {
      NextIsAhead(d);
    }
  }

  lemma NextIsAhead(d: Dial)
    requires d.Ok()
    ensures Ahead(d, (d.cur + 1) % d.scales) == 1 && Ahead(d, d.cur) == 0
    ensures d.Advance() == d.(cur := if d.cur + 1 == d.scales then 0 else d.cur + 1)
  {
    if d.cur + 1 < d.scales {
      ModUnique(d.cur + 1, 0, d.cur + 1, d.scales);
    } else {
      ModUnique(d.cur + 1, 1, 0, d.scales);
    }
  }

  /** When the pointer moves at the end of a period, every slot is one nearer, and the emptied one is farthest. */
  lemma TurnWaits(d: Dial, finest: bool, last: int, slot: int, due: int)
    requires d.Ok() && Waits(d, finest, true, last, slot, due)
    ensures Waits(d.Advance(), finest, false, last + d.interval, slot, due)
  {
    NextIsAhead(d);
    var k, k' := Ahead(d, slot), Ahead(d.Advance(), slot);
    assert k' == if k == 0 then d.scales - 1 else k - 1;
    assert d.interval + k' * d.interval == (k' + 1) * d.interval;
  }

  lemma AdvanceKeepsTime(s: Sched, d: nat)
    requires Timely(s) && Enabled(s, Advance(d))
    ensures Timely(Apply(s, Advance(d)))
  {
  }

  lemma CreateKeepsTime(s: Sched, nano: int, unixNano: int, times: int, interval: int)
    requires Timely(s) && Enabled(s, Create(nano, unixNano, times, interval))
    ensures Timely(Apply(s, Create(nano, unixNano, times, interval)))
  {
    var out := Apply(s, Create(nano, unixNano, times, interval));
    PlacedWaits(s, 0, GoDiv(unixNano, NANOS_PER_MILLI), false);
    forall id | id in out.flat ensures RecOk(out, out.flat[id]) {
      if id != out.idGen { assert RecOk(s, s.flat[id]); }
    }
  }

  lemma TickBeginKeepsTime(s: Sched, j: nat)
    requires Timely(s) && Enabled(s, TickBegin(j))
    ensures Timely(Apply(s, TickBegin(j)))
  {
    var out := Apply(s, TickBegin(j));
    forall id | id in out.flat ensures RecOk(out, out.flat[id]) {
      assert RecOk(s, s.flat[id]);
    }
  }

  lemma TickMoveKeepsTime(s: Sched, id: TimerId)
    requires Timely(s) && Enabled(s, TickMove(id))
    ensures Timely(Apply(s, TickMove(id)))
  {
    var out, j := Apply(s, TickMove(id)), s.flat[id].at.wheel;
    assert RecOk(s, s.flat[id]);
    PlacedWaits(s, j, s.flat[id].timer.unixts, true);
    forall x | x in out.flat ensures RecOk(out, out.flat[x]) {
      assert RecOk(s, s.flat[x]);
    }
  }

  lemma TickEndKeepsTime(s: Sched, j: nat)
    requires Timely(s) && Enabled(s, TickEnd(j))
    ensures Timely(Apply(s, TickEnd(j)))
  {
    var out := Apply(s, TickEnd(j));
    NextIsAhead(s.v.dials[j]);
    forall id | id in out.flat ensures RecOk(out, out.flat[id]) {
      var r := s.flat[id];
      assert RecOk(s, r);
      if r.at.InSlot? && r.at.wheel == j {
        TurnWaits(s.v.dials[j], j == |s.v.dials| - 1, s.last[j], r.at.slot, r.timer.unixts);
      }
    }
  }

  lemma RemoveKeepsTime(s: Sched, op: Op)
    requires Timely(s) && Enabled(s, op) && (op.RemoveStart? || op.RemoveStep?)
    ensures Timely(Apply(s, op))
  {
  }

  /** A timer that a poll leaves behind is not yet due, or will be looked at in time. */
  lemma UnpolledInTime(s: Sched, nano: int, visits: map<TimerId, nat>, id: TimerId)
    requires Timely(s) && Shows(s) && PollEnabled(s, nano, visits) && id in s.flat && id !in visits
    ensures s.now <= s.flat[id].Deadline()
  {
    assert RecOk(s, s.flat[id]);
    NotInLeafUnlessEarly(s, nano, visits, id);
    hide PollEnabled, Shows;
    LastTickBound(s, s.flat[id]);
  }

  lemma NotInLeafUnlessEarly(s: Sched, nano: int, visits: map<TimerId, nat>, id: TimerId)
    requires WellFormed(s) && Shows(s) && PollEnabled(s, nano, visits) && id in s.flat && id !in visits
    ensures s.flat[id].at == Leaf(s.v.dials) ==> s.now + MAX_TIME_DELAY <= s.flat[id].timer.unixts
    ensures !s.ticking[|s.v.dials| - 1]
  {
    if s.flat[id].at == Leaf(s.v.dials) {
      assert Spot(|s.v.dials| - 1, s.v.dials[|s.v.dials| - 1].cur, id) in s.v.spots;
    }
  }

  /** Until the present period of its wheel is over, no timer is late except in the finest wheel's current slot. */
  lemma LastTickBound(s: Sched, r: Record)
    requires Timely(s) && RecOk(s, r) && !s.ticking[|s.v.dials| - 1]
    requires r.at == Leaf(s.v.dials) ==> s.now <= r.timer.unixts
    ensures s.now <= r.Deadline()
  {
    var j := r.at.wheel;
    var d := s.v.dials[j];
    if r.at.InSlot? {
      var k := Ahead(d, r.at.slot);
      if j < |s.v.dials| - 1 {
        MulMonotone(0, k, d.interval);
      } else if k > 0 {
        MulMonotone(1, k, d.interval);
      }
    }
  }

  lemma PollKeepsRecords(s: Sched, nano: int, visits: map<TimerId, nat>, id: TimerId)
    requires Timely(s) && Shows(s) && PollEnabled(s, nano, visits) && id in AfterPoll(s, nano, visits).flat
    ensures RecOk(AfterPoll(s, nano, visits), AfterPoll(s, nano, visits).flat[id])
  {
    hide PollEnabled, Shows, RecOk, PollWheels, BackAt, Clocks, Graded;
    assert id in PollFlat(s, nano, visits) && id in s.flat;
    if id in visits {
      RenewedInTime(s, nano, visits, id);
    } else {
      UnpolledInTime(s, nano, visits, id);
      PollFrame(s, nano, visits);
      KeptRecOk(s, AfterPoll(s, nano, visits), s.flat[id]);
    }
  }

  lemma KeptRecOk(s: Sched, out: Sched, r: Record)
    requires WellFormed(s) && WellFormed(out) && RecOk(s, r) && s.now <= r.Deadline()
    requires out.v.dials == s.v.dials && out.last == s.last && out.ticking == s.ticking
    requires out.lastPoll == out.now == s.now
    ensures RecOk(out, r)
  {
    hide Waits;
  }

  lemma RenewedInTime(s: Sched, nano: int, visits: map<TimerId, nat>, id: TimerId)
    requires Timely(s) && Shows(s) && PollEnabled(s, nano, visits) && id in visits && id in s.flat
    requires id in PollFlat(s, nano, visits)
    ensures RecOk(AfterPoll(s, nano, visits), PollFlat(s, nano, visits)[id])
  {
    hide RecOk;
    var t := Left(s.flat[id].timer, nano, visits[id]);
    VisitedWayFree(s, nano, visits, id);
    PlacedWaits(s, 0, t.unixts, false);
    PollFrame(s, nano, visits);
    RenewedRecOk(AfterPoll(s, nano, visits), PlaceFrom(s.v.dials, 0, t.unixts, s.now, false), t);
  }

  lemma VisitedWayFree(s: Sched, nano: int, visits: map<TimerId, nat>, id: TimerId)
    requires WellFormed(s) && Shows(s) && PollEnabled(s, nano, visits) && id in visits && id in s.flat
    requires visits[id] < s.flat[id].timer.times
    ensures Free(s, 0, BackAt(s.v.dials, 0, s.flat[id].timer, s.now, nano, visits[id]).wheel)
  {
    hide PlaceFrom, Left;
    assert id in Readded(s.v.dials, 0, LeafSlot(s), s.now, nano, visits);
  }

  lemma RenewedRecOk(out: Sched, at: Where, t: Timer)
    requires WellFormed(out) && Graded(out.v.dials) && out.lastPoll == out.now && at.InSlot? && at.wheel < |out.v.dials|
    requires var l := at.wheel;
             Waits(out.v.dials[l], l == |out.v.dials| - 1, out.ticking[l], out.last[l], at.slot, t.unixts)
    ensures RecOk(out, Record(at, t, out.now, Slack(out.v.dials, at.wheel)))
  {
    hide Waits;
  }

  lemma PolledInTime(s: Sched, nano: int, visits: map<TimerId, nat>, id: TimerId)
    requires Timely(s) && Shows(s) && PollEnabled(s, nano, visits) && id in s.flat && id in visits
    ensures visits[id] >= 1 && OnTime(FiringOf(id, s.flat[id], s.now, nano, visits[id]), s.gap)
  {
    assert RecOk(s, s.flat[id]);
  }

  lemma PollFirings(s: Sched, nano: int, visits: map<TimerId, nat>, f: Firing)
    requires Timely(s) && Shows(s) && PollEnabled(s, nano, visits) && f in AfterPoll(s, nano, visits).fired
    ensures OnTime(f, s.gap)
  {
    hide RecOk, OnTime, PollOk, PollFlat, PollWheels;
    if f !in s.fired {
      var id :| id in visits && id in s.flat && visits[id] >= 1 && f == FiringOf(id, s.flat[id], s.now, nano, visits[id]);
      PolledInTime(s, nano, visits, id);
    }
  }

  lemma PollFrame(s: Sched, nano: int, visits: map<TimerId, nat>)
    requires WellFormed(s) && PollEnabled(s, nano, visits)
    ensures var out := AfterPoll(s, nano, visits);
            && WellFormed(out) && out.v.dials == s.v.dials && out.last == s.last && out.ticking == s.ticking
            && out.lastPoll == out.now == s.now && out.gap == s.gap
  {
    hide PollEnabled, PollFlat, PollWheels;
  }

  lemma PollKeepsTime(s: Sched, nano: int, visits: map<TimerId, nat>)
    requires Timely(s) && Shows(s) && PollEnabled(s, nano, visits)
    ensures Timely(AfterPoll(s, nano, visits))
  {
    hide RecOk, OnTime, PollEnabled, AfterPoll, WellFormed;
    PollFrame(s, nano, visits);
    var out := AfterPoll(s, nano, visits);
    forall id | id in out.flat ensures RecOk(out, out.flat[id]) {
      PollKeepsRecords(s, nano, visits, id);
    }
    forall f | f in out.fired ensures OnTime(f, out.gap) {
      PollFirings(s, nano, visits, f);
    }
  }

  lemma OpKeepsTime(s: Sched, op: Op)
    requires Timely(s) && Shows(s) && Enabled(s, op)
    ensures Timely(Apply(s, op))
  {
    assert WellFormed(s);
    hide *;
    match op
    case Advance(d) => AdvanceKeepsTime(s, d);
    case Create(nano, unixNano, times, interval) => CreateKeepsTime(s, nano, unixNano, times, interval);
    case TickBegin(j) => TickBeginKeepsTime(s, j);
    case TickMove(id) => TickMoveKeepsTime(s, id);
    case TickEnd(j) => TickEndKeepsTime(s, j);
    case Poll(nano, visits) =>
      PollIsOp(s, nano, visits);
      PollKeepsTime(s, nano, visits);
    case RemoveStart(_, _) => RemoveKeepsTime(s, op);
    case RemoveStep(_) => RemoveKeepsTime(s, op);
  }

  // Firings are counted.

  function Uses(times: int): (r: int) {
    if times <= 1 then 1 else times
  }

  function Rest(s: Sched, id: TimerId): (r: int) {
    if id in s.flat then Uses(s.flat[id].timer.times) else 0
  }

  /** A timer fires once, or its repetitions are far enough apart for a poll to take one at a time. */
  predicate Spaced(p: Plan) {
    p.times <= 1 || p.interval >= MAX_TIME_DELAY * NANOS_PER_MILLI
  }

  ghost predicate CountOk(s: Sched, id: TimerId)
    requires id in s.plan && id in s.count && id in s.lost
  {
    && s.count[id] + Rest(s, id) + s.lost[id] <= Uses(s.plan[id].times)
    && ((id in s.removed && id !in s.flat) || s.count[id] + Rest(s, id) + s.lost[id] == Uses(s.plan[id].times))
    && (id in s.flat ==> s.flat[id].timer.interval == s.plan[id].interval && s.flat[id].timer.times <= s.plan[id].times)
    && (Spaced(s.plan[id]) ==> s.lost[id] == 0)
  }

  ghost predicate Counted(s: Sched) {
    && (forall id :: id in s.plan <==> 1 <= id <= s.idGen)
    && s.count.Keys == s.plan.Keys && s.lost.Keys == s.plan.Keys && s.flat.Keys <= s.plan.Keys
    && s.removed <= s.plan.Keys && (forall scan :: scan in s.scans ==> s.scans[scan].id in s.plan)
    && forall id :: id in s.plan ==> CountOk(s, id)
  }

  lemma NotDueAgain(interval: int, now: int, nano: int)
    requires Clock(nano, now) && interval >= MAX_TIME_DELAY * NANOS_PER_MILLI
    ensures GoDiv(nano + interval, NANOS_PER_MILLI) - now >= MAX_TIME_DELAY
  {
  }

  lemma SpacedVisitsOnce(ds: seq<Dial>, t: Timer, now: int, nano: int, visits: nat)
    requires DialsOk(ds) && Clock(nano, now) && VisitsOk(ds, 0, t, now, nano, visits)
    requires t.times <= 1 || t.interval >= MAX_TIME_DELAY * NANOS_PER_MILLI
    ensures visits == 1
  {
    if t.times > 1 {
      NotDueAgain(t.interval, now, nano);
    }
  }

  lemma PolledUses(s: Sched, nano: int, visits: map<TimerId, nat>, id: TimerId)
    requires WellFormed(s) && Shows(s) && PollEnabled(s, nano, visits) && id in visits && id in s.plan
    requires id in s.flat ==>
               s.flat[id].timer.interval == s.plan[id].interval && s.flat[id].timer.times <= s.plan[id].times
    ensures id in s.flat && visits[id] >= 1 && (visits[id] <= s.flat[id].timer.times || visits[id] == 1)
    ensures s.flat[id].timer.times <= 1 || Spaced(s.plan[id]) ==> visits[id] == 1
  {
    hide PollWheels, BackAt;
    var n := |s.v.dials| - 1;
    assert Spot(n, s.v.dials[n].cur, id) in s.v.spots;
    if s.flat[id].timer.times <= 1 || Spaced(s.plan[id]) {
      SpacedVisitsOnce(s.v.dials, s.flat[id].timer, s.now, nano, visits[id]);
    }
  }

  lemma PollCounts(s: Sched, nano: int, visits: map<TimerId, nat>, id: TimerId)
    requires WellFormed(s) && Shows(s) && Counted(s) && PollEnabled(s, nano, visits) && id in s.plan
    ensures CountOk(AfterPoll(s, nano, visits), id)
  {
    hide WellFormed, Shows, PollEnabled, PollWheels, BackAt, GoDiv, Spaced;
    assert CountOk(s, id);
    if id in visits { PolledUses(s, nano, visits, id); }
  }

  lemma OtherCounts(s: Sched, op: Op, id: TimerId)
    requires WellFormed(s) && Counted(s) && Enabled(s, op) && !op.Poll? && id in Apply(s, op).plan
    ensures id in Apply(s, op).count && id in Apply(s, op).lost && CountOk(Apply(s, op), id)
  {
    hide PlaceFrom, GoDiv, PollWheels, PollEnabled, Turn, Refresh, Erase, Put, Spaced;
    if id in s.plan { assert CountOk(s, id); }
  }

  lemma PlanKeysKept(s: Sched, op: Op)
    requires WellFormed(s) && Counted(s) && Enabled(s, op)
    ensures var out := Apply(s, op);
            && s.idGen <= out.idGen && (forall id :: id in out.plan <==> 1 <= id <= out.idGen)
            && out.count.Keys == out.plan.Keys && out.lost.Keys == out.plan.Keys && out.flat.Keys <= out.plan.Keys
            && out.removed <= out.plan.Keys
  {
    hide CountOk, PlaceFrom, GoDiv, PollWheels, PollEnabled, Turn, Refresh, Erase, Put;
  }

  lemma PlansKept(s: Sched, op: Op)
    requires WellFormed(s) && Counted(s) && Enabled(s, op)
    ensures var out := Apply(s, op);
            && (forall id :: id in out.plan <==> 1 <= id <= out.idGen)
            && out.count.Keys == out.plan.Keys && out.lost.Keys == out.plan.Keys && out.flat.Keys <= out.plan.Keys
            && out.removed <= out.plan.Keys && (forall scan :: scan in out.scans ==> out.scans[scan].id in out.plan)
  {
    hide WellFormed, Enabled, Apply, CountOk;
    PlanKeysKept(s, op);
    ScansStay(s, op);
  }

  lemma CountedKept(s: Sched, op: Op)
    requires WellFormed(s) && Shows(s) && Counted(s) && Enabled(s, op)
    ensures Counted(Apply(s, op))
  {
    PlansKept(s, op);
    var out := Apply(s, op);
    forall id | id in out.plan ensures CountOk(out, id) {
      if op.Poll? {
        PollCounts(s, op.nano, op.visits, id);
      } else {
        OtherCounts(s, op, id);
      }
    }
  }

  // Removal.

  /** A repetition at this interval, due at most one interval and just under a millisecond after the poll's
      millisecond began, goes back to the finest wheel. */
  ghost predicate StaysLow(ds: seq<Dial>, interval: int) {
    forall l :: 0 <= l < |ds| - 1 ==> interval <= (ds[l].interval - 1) * NANOS_PER_MILLI
  }

  /** The scan cannot miss its timer: that had no repetition left at the start, or never leaves the finest wheel. */
  ghost predicate Catches(s: Sched, scan: nat)
    requires scan in s.scans && s.scans[scan].id in s.plan
  {
    s.scans[scan].lastUse || StaysLow(s.v.dials, s.plan[s.scans[scan].id].interval)
  }

  /** No wheel that the scan has left holds the timer it cannot miss. */
  ghost predicate ScanOk(s: Sched, scan: nat)
    requires scan in s.scans && s.scans[scan].id in s.plan
  {
    var id, next := s.scans[scan].id, s.scans[scan].next;
    && next <= |s.v.dials|
    && (s.scans[scan].lastUse && id in s.flat ==> s.flat[id].timer.times <= 1)
    && (Catches(s, scan) && id in s.flat ==> s.flat[id].at.wheel >= next)
  }

  ghost predicate ScansOk(s: Sched) {
    forall scan :: scan in s.scans && s.scans[scan].id in s.plan ==> ScanOk(s, scan)
  }

  lemma LowRenewal(ds: seq<Dial>, t: Timer, now: int, nano: int, visits: nat)
    requires DialsOk(ds) && StaysLow(ds, t.interval) && Clock(nano, now) && visits >= 1
    ensures BackAt(ds, 0, t, now, nano, visits).wheel == |ds| - 1
  {
    PlaceFromMeaning(ds, 0, Left(t, nano, visits).unixts, now, false);
    forall l | 0 <= l < |ds| - 1 ensures Left(t, nano, visits).unixts - now < ds[l].interval {
      LowDelay(t.interval, ds[l].interval, now, nano);
    }
  }

  lemma LowDelay(interval: int, width: int, now: int, nano: int)
    requires interval <= (width - 1) * NANOS_PER_MILLI && 0 < width && Clock(nano, now)
    ensures GoDiv(nano + interval, NANOS_PER_MILLI) - now < width
  {
  }

  lemma PollKeepsScan(s: Sched, nano: int, visits: map<TimerId, nat>, scan: nat)
    requires WellFormed(s) && Shows(s) && PollEnabled(s, nano, visits)
    requires scan in s.scans && s.scans[scan].id in s.plan && ScanOk(s, scan) && CountedAt(s, s.scans[scan].id)
    ensures ScanOk(AfterPoll(s, nano, visits), scan)
  {
    hide PollWheels, WaysBackFree, Clock, BackAt, StaysLow, GoDiv;
    var id := s.scans[scan].id;
    if id in s.flat && id in visits {
      PolledAtLeaf(s, nano, visits, id);
      if Catches(s, scan) && visits[id] < s.flat[id].timer.times {
        LowRenewal(s.v.dials, s.flat[id].timer, s.now, nano, visits[id]);
      }
    }
  }

  ghost predicate CountedAt(s: Sched, id: TimerId)
    requires id in s.plan
  {
    id in s.flat ==> s.flat[id].timer.interval == s.plan[id].interval
  }

  lemma PolledAtLeaf(s: Sched, nano: int, visits: map<TimerId, nat>, id: TimerId)
    requires WellFormed(s) && Shows(s) && PollEnabled(s, nano, visits) && id in visits
    ensures id in s.flat && s.flat[id].at == Leaf(s.v.dials) && visits[id] >= 1 && Clock(nano, s.now)
  {
    var n := |s.v.dials| - 1;
    assert Spot(n, s.v.dials[n].cur, id) in s.v.spots;
  }

  lemma TickEndKeepsScan(s: Sched, j: nat, scan: nat)
    requires WellFormed(s) && Enabled(s, TickEnd(j))
    requires scan in s.scans && s.scans[scan].id in s.plan && ScanOk(s, scan)
    ensures ScanOk(Apply(s, TickEnd(j)), scan)
  {
    var ds, after, interval := s.v.dials, Turn(s.v, j).dials, s.plan[s.scans[scan].id].interval;
    assert |after| == |ds| && forall l :: 0 <= l < |ds| ==> after[l].interval == ds[l].interval;
    SameLow(ds, after, interval);
    hide StaysLow, Turn;
  }

  lemma SameLow(ds: seq<Dial>, after: seq<Dial>, interval: int)
    requires |after| == |ds| && forall l :: 0 <= l < |ds| ==> after[l].interval == ds[l].interval
    ensures StaysLow(after, interval) == StaysLow(ds, interval)
  {
    forall l | 0 <= l < |ds| - 1 ensures after[l].interval == ds[l].interval { }
  }

  lemma TickKeepsScan(s: Sched, op: Op, scan: nat)
    requires WellFormed(s) && Enabled(s, op) && (op.TickBegin? || op.TickMove? || op.Advance?)
    requires scan in s.scans && s.scans[scan].id in s.plan && ScanOk(s, scan)
    ensures ScanOk(Apply(s, op), scan)
  {
    hide SlotAhead, GoDiv, StaysLow;
  }

  lemma CreateKeepsScan(s: Sched, op: Op, scan: nat)
    requires WellFormed(s) && Enabled(s, op) && op.Create?
    requires scan in s.scans && s.scans[scan].id in s.plan && ScanOk(s, scan) && s.scans[scan].id <= s.idGen
    ensures s.scans[scan].id in Apply(s, op).plan && ScanOk(Apply(s, op), scan)
  {
    hide PlaceFrom, GoDiv;
  }

  /** The step of a scan over a wheel that does not tick takes the timer with it or finds it further down. */
  lemma RemoveKeepsScan(s: Sched, op: Op, scan: nat)
    requires WellFormed(s) && Enabled(s, op) && (op.RemoveStart? || op.RemoveStep?)
    requires scan in Apply(s, op).scans && Apply(s, op).scans[scan].id in s.plan
    requires scan in s.scans ==> ScanOk(s, scan)
    requires forall id :: id in s.flat ==> RecOk(s, s.flat[id])
    ensures ScanOk(Apply(s, op), scan)
  {
    hide StaysLow, Waits;
    var id := Apply(s, op).scans[scan].id;
    assert id in s.flat ==> RecOk(s, s.flat[id]);
  }

  lemma ScansKept(s: Sched, op: Op)
    requires Timely(s) && Shows(s) && Counted(s) && ScansOk(s) && Enabled(s, op)
    ensures ScansOk(Apply(s, op))
  {
    assert WellFormed(s);
    var out := Apply(s, op);
    ScansStay(s, op);
    hide WellFormed, Enabled, Apply, ScanOk, Shows, Timely, Counted;
    forall scan | scan in out.scans && out.scans[scan].id in out.plan ensures ScanOk(out, scan) {
      ScanPlanned(s, op, scan);
      match op
      case Advance(_) => TickKeepsScan(s, op, scan);
      case Create(_, _, _, _) => CreateKeepsScan(s, op, scan);
      case TickBegin(_) => TickKeepsScan(s, op, scan);
      case TickMove(_) => TickKeepsScan(s, op, scan);
      case TickEnd(j) => TickEndKeepsScan(s, j, scan);
      case Poll(nano, visits) =>
        PollIsOp(s, nano, visits);
        PollKeepsScan(s, nano, visits, scan);
      case RemoveStart(_, _) => RecordsOk(s); RemoveKeepsScan(s, op, scan);
      case RemoveStep(_) => RecordsOk(s); RemoveKeepsScan(s, op, scan);
    }
  }

  lemma RecordsOk(s: Sched)
    requires Timely(s)
    ensures forall id :: id in s.flat ==> RecOk(s, s.flat[id])
  {
  }

  lemma ScansStay(s: Sched, op: Op)
    requires WellFormed(s) && Enabled(s, op)
    ensures !op.RemoveStart? && !op.RemoveStep? ==> Apply(s, op).scans == s.scans
    ensures !op.Create? ==> Apply(s, op).plan == s.plan
    ensures forall scan :: scan in Apply(s, op).scans ==>
              var id := Apply(s, op).scans[scan].id;
              (scan in s.scans && s.scans[scan].id == id) || 1 <= id <= s.idGen
  {
    hide PlaceFrom, GoDiv, PollEnabled, PollWheels, PollFlat;
  }

  /** The timer of a scan was created, and keeps the interval it was created with. */
  lemma ScanPlanned(s: Sched, op: Op, scan: nat)
    requires WellFormed(s) && Counted(s) && Enabled(s, op) && scan in Apply(s, op).scans
    ensures Apply(s, op).scans[scan].id in s.plan && Apply(s, op).scans[scan].id <= s.idGen
    ensures CountedAt(s, Apply(s, op).scans[scan].id)
  {
    hide Enabled, Apply, Spaced, Uses, Rest;
    ScansStay(s, op);
    assert CountOk(s, Apply(s, op).scans[scan].id);
  }
}
