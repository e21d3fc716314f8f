/** Timers, dials and the functions that say where a timer goes (jtimer/timewheel.go, jtimer/timer.go).

    A hierarchy of wheels is a sequence, coarsest wheel first. Every operation of the source is described here
    as a function on that sequence; the classes of module TimeWheels are proved against these functions. */
module WheelSpec {
  import opened Arithmetic

  type TimerId = int

  const NANOS_PER_MILLI := 1_000_000

  /** The scheduler asks for timers due within this many milliseconds. */
  const MAX_TIME_DELAY := 100

  /** `unixts` is the due time in ms, `interval` the repeat interval in ns, `times` the firings still planned. */
  datatype Timer = Timer(unixts: int, interval: int, times: int)

  type Slot = map<TimerId, Timer>

  datatype Dial = Dial(interval: int, scales: int, cur: int) {
    predicate Ok() {
      0 < interval && 2 <= scales && 0 <= cur < scales
    }

    /** The pointer one slot on. */
    function Advance(): (r: Dial)
      requires scales != 0
    {
      this.(cur := (cur + 1) % scales)
    }
  }

  /** The slot that lies `delay` ms ahead of the pointer; far delays go round the dial. */
  function SlotAhead(d: Dial, delay: int): (slot: int)
    requires d.Ok()
    ensures 0 <= slot < d.scales
  {
    (d.cur + delay / d.interval) % d.scales
  }

  ghost predicate DialsOk(ds: seq<Dial>) {
    |ds| > 0 && forall l :: 0 <= l < |ds| ==> ds[l].Ok()
  }

  /** The three wheels of the scheduler: twelve hours, sixty minutes, sixty seconds. */
  function StandardDials(): (ds: seq<Dial>)
    ensures DialsOk(ds)
  {
    [Dial(3_600_000, 12, 0), Dial(60_000, 60, 0), Dial(1_000, 60, 0)]
  }

  /** A timer is in a slot of a wheel, or in the hands of a wheel that is draining its slot during a tick. */
  datatype Where = InSlot(wheel: nat, slot: int) | InHand(wheel: nat)

  /** The slot chosen by `addTimer` called on wheel `j`. Only that first call can force the next slot. */
  function PlaceFrom(ds: seq<Dial>, j: nat, unixts: int, now: int, force: bool): (at: Where)
    requires DialsOk(ds) && j < |ds|
    ensures at.InSlot? && j <= at.wheel < |ds| && 0 <= at.slot < ds[at.wheel].scales
    decreases |ds| - j
  {
    var delay := unixts - now;
    if delay >= ds[j].interval then
      InSlot(j, SlotAhead(ds[j], delay))
    else if j == |ds| - 1 then
      InSlot(j, if force then (ds[j].cur + 1) % ds[j].scales else ds[j].cur)
    else
      PlaceFrom(ds, j + 1, unixts, now, false)
  }

  /** A timer goes to the first wheel from `j` down whose interval fits its delay, at that wheel's distance,
      and to the finest wheel when none fits. */
  lemma {:induction false} PlaceFromMeaning(ds: seq<Dial>, j: nat, unixts: int, now: int, force: bool)
    requires DialsOk(ds) && j < |ds|
    ensures var at := PlaceFrom(ds, j, unixts, now, force);
            && (forall l :: j <= l < at.wheel ==> unixts - now < ds[l].interval)
            && (unixts - now >= ds[at.wheel].interval ==>
                  at.slot == (ds[at.wheel].cur + (unixts - now) / ds[at.wheel].interval) % ds[at.wheel].scales)
            && (unixts - now < ds[at.wheel].interval ==>
                  && at.wheel == |ds| - 1
                  && at.slot == if force && j == |ds| - 1 then (ds[at.wheel].cur + 1) % ds[at.wheel].scales
                                else ds[at.wheel].cur)
    decreases |ds| - j
  {
    if unixts - now < ds[j].interval && j + 1 < |ds| {
      PlaceFromMeaning(ds, j + 1, unixts, now, false);
    }
  }

  /** One entry of the nested maps: wheel, slot, id. */
  datatype Spot = Spot(wheel: nat, slot: int, id: TimerId)

  /** All the wheels of a hierarchy and everything in their slots. */
  datatype Wheels = Wheels(dials: seq<Dial>, spots: imap<Spot, Timer>)

  ghost function Put(v: Wheels, at: Where, id: TimerId, t: Timer): (r: Wheels)
    requires at.InSlot?
  {
    v.(spots := v.spots[Spot(at.wheel, at.slot, id) := t])
  }

  /** `RemoveTimer` on wheel `l`: the id disappears from every slot of that wheel. */
  ghost function Erase(v: Wheels, l: nat, id: TimerId): (out: Wheels)
    ensures out.dials == v.dials
  {
    v.(spots := imap s | s in v.spots && !(s.wheel == l && s.id == id) :: v.spots[s])
  }

  /** The id disappears from the first `n` wheels. */
  ghost function EraseUpTo(v: Wheels, n: nat, id: TimerId): (out: Wheels)
    ensures out.dials == v.dials
  {
    v.(spots := imap s | s in v.spots && !(s.wheel < n && s.id == id) :: v.spots[s])
  }

  lemma EraseOneWheelMore(v: Wheels, n: nat, id: TimerId)
    ensures EraseUpTo(v, 0, id) == v
    ensures Erase(EraseUpTo(v, n, id), n, id) == EraseUpTo(v, n + 1, id)
  {
    assert EraseUpTo(v, 0, id).spots == v.spots;
    assert Erase(EraseUpTo(v, n, id), n, id).spots == EraseUpTo(v, n + 1, id).spots;
  }

  /** A slot gets a fresh map. */
  ghost function Refresh(v: Wheels, l: nat, i: int): (out: Wheels)
    ensures out.dials == v.dials
  {
    v.(spots := imap s | s in v.spots && !(s.wheel == l && s.slot == i) :: v.spots[s])
  }

  /** The timers of some ids leave one slot. */
  ghost function Drop(v: Wheels, l: nat, i: int, ids: iset<TimerId>): (out: Wheels)
    ensures out.dials == v.dials
  {
    v.(spots := imap s | s in v.spots && !(s.wheel == l && s.slot == i && s.id in ids) :: v.spots[s])
  }

  datatype Move = Move(at: Where, timer: Timer)

  /** All the timers of `moves` written to their slots. */
  ghost function Land(v: Wheels, moves: imap<TimerId, Move>): (out: Wheels)
    ensures out.dials == v.dials
  {
    v.(spots := imap s | s in v.spots || (s.id in moves && moves[s.id].at == InSlot(s.wheel, s.slot)) ::
         if s.id in moves && moves[s.id].at == InSlot(s.wheel, s.slot) then moves[s.id].timer else v.spots[s])
  }

  /** The current slot of wheel `j`. */
  ghost function Current(v: Wheels, j: nat): (r: imap<TimerId, Timer>)
    requires j < |v.dials|
  {
    imap id | Spot(j, v.dials[j].cur, id) in v.spots :: v.spots[Spot(j, v.dials[j].cur, id)]
  }

  /** Where wheel `j` sends the timers it re-adds at the end of a slot's period. */
  ghost function Cascade(ds: seq<Dial>, j: nat, timers: imap<TimerId, Timer>, now: int): (r: imap<TimerId, Move>)
    requires DialsOk(ds) && j < |ds|
  {
    imap id | id in timers :: Move(PlaceFrom(ds, j, timers[id].unixts, now, true), timers[id])
  }

  ghost function Turn(v: Wheels, j: nat): (r: Wheels)
    requires j < |v.dials| && v.dials[j].scales != 0
  {
    v.(dials := v.dials[j := v.dials[j].Advance()])
  }

  /** One tick of wheel `j`: its current slot gets a fresh map, the timers that were there are re-added, and
      only then the pointer moves. */
  ghost function TickWheel(v: Wheels, j: nat, now: int): (r: Wheels)
    requires DialsOk(v.dials) && j < |v.dials|
  {
    var timers := Current(v, j);
    Turn(Land(Refresh(v, j, v.dials[j].cur), Cascade(v.dials, j, timers, now)), j)
  }

  // Loops that move timers one by one add up to the functions above.

  ghost function ToImap(m: Slot): (r: imap<TimerId, Timer>) {
    imap id | id in m :: m[id]
  }

  lemma LandOneMore(v: Wheels, moves: imap<TimerId, Move>, id: TimerId, m: Move)
    requires id !in moves && m.at.InSlot?
    ensures Land(v, moves[id := m]) == Put(Land(v, moves), m.at, id, m.timer)
  {
    assert Land(v, moves[id := m]).spots == Put(Land(v, moves), m.at, id, m.timer).spots;
  }

  /** Re-adding one more of the drained timers. */
  lemma DrainOneMore(v: Wheels, j: nat, moved: Slot, id: TimerId, t: Timer, now: int)
    requires DialsOk(v.dials) && j < |v.dials| && id !in moved
    ensures Land(v, Cascade(v.dials, j, ToImap(moved[id := t]), now))
         == Put(Land(v, Cascade(v.dials, j, ToImap(moved), now)), PlaceFrom(v.dials, j, t.unixts, now, true), id, t)
  {
    var moves, m := Cascade(v.dials, j, ToImap(moved), now), Move(PlaceFrom(v.dials, j, t.unixts, now, true), t);
    assert Cascade(v.dials, j, ToImap(moved[id := t]), now) == moves[id := m];
    LandOneMore(v, moves, id, m);
  }

  lemma LandNothing(v: Wheels, moves: imap<TimerId, Move>)
    requires forall id :: id !in moves
    ensures Land(v, moves) == v
  {
    assert Land(v, moves).spots == v.spots;
  }

  lemma DropOneMoreAt(v: Wheels, l: nat, i: int, ids: iset<TimerId>, moves: imap<TimerId, Move>, id: TimerId, s: Spot)
    requires id in moves ==> moves[id].at == InSlot(l, i)
    ensures var a := Drop(Land(Drop(v, l, i, ids), moves), l, i, iset{id}).spots;
            var b := Land(Drop(v, l, i, ids + iset{id}), moves - {id}).spots;
            (s in a <==> s in b) && (s in a ==> a[s] == b[s])
  {
  }

  /** Deleting from a slot a timer that was put there, or never moved, undoes the move. */
  lemma DropOneMore(v: Wheels, l: nat, i: int, ids: iset<TimerId>, moves: imap<TimerId, Move>, id: TimerId)
    requires id in moves ==> moves[id].at == InSlot(l, i)
    ensures Drop(Land(Drop(v, l, i, ids), moves), l, i, iset{id}) == Land(Drop(v, l, i, ids + iset{id}), moves - {id})
  {
    hide Land, Drop;
    var a, b := Drop(Land(Drop(v, l, i, ids), moves), l, i, iset{id}), Land(Drop(v, l, i, ids + iset{id}), moves - {id});
    forall s ensures (s in a.spots <==> s in b.spots) && (s in a.spots ==> a.spots[s] == b.spots[s]) {
      DropOneMoreAt(v, l, i, ids, moves, id, s);
    }
    assert a.spots == b.spots;
  }

  // The poll.

  predicate Due(t: Timer, now: int) {
    t.unixts - now < MAX_TIME_DELAY
  }

  /** A timer after the poll's loop re-added it `visits` times: due one interval after the present nanosecond. */
  function Left(t: Timer, nano: int, visits: nat): (r: Timer) {
    if visits == 0 then t
    else Timer(GoDiv(nano + t.interval, NANOS_PER_MILLI), t.interval, t.times - visits)
  }

  function Leaf(ds: seq<Dial>): (r: Where)
    requires |ds| > 0
  {
    InSlot(|ds| - 1, ds[|ds| - 1].cur)
  }

  /** Where a poll started on wheel `j` puts back a timer it re-added `visits` times. */
  function BackAt(ds: seq<Dial>, j: nat, t: Timer, now: int, nano: int, visits: nat): (at: Where)
    requires DialsOk(ds) && j < |ds|
    ensures at.InSlot?
  {
    PlaceFrom(ds, j, Left(t, nano, visits).unixts, now, false)
  }

  /** How often a loop over the current slot may visit a due timer. An entry deleted and inserted again while
      the map is being iterated may be produced again; that is only possible when the timer repeats, lands in
      the same slot and is due again at once. */
  predicate VisitsOk(ds: seq<Dial>, j: nat, t: Timer, now: int, nano: int, visits: nat)
    requires DialsOk(ds) && j < |ds|
  {
    && 1 <= visits
    && (visits == 1 || (visits <= t.times && Due(Left(t, nano, 1), now) && BackAt(ds, j, t, now, nano, 1) == Leaf(ds)))
  }

  ghost predicate PollOk(v: Wheels, j: nat, now: int, nano: int, visits: map<TimerId, nat>)
    requires DialsOk(v.dials) && j < |v.dials|
  {
    var slot := Current(v, |v.dials| - 1);
    && (forall id :: id in visits <==> id in slot && Due(slot[id], now))
    && (forall id :: id in visits ==> VisitsOk(v.dials, j, slot[id], now, nano, visits[id]))
  }

  /** The poll's result: for each due timer the object of its last visit. */
  ghost function Reported(slot: imap<TimerId, Timer>, nano: int, visits: map<TimerId, nat>): (r: Slot) {
    map id | id in visits && id in slot && visits[id] >= 1 :: Left(slot[id], nano, visits[id] - 1)
  }

  /** The repeating timers that the poll puts back. */
  ghost function Readded(ds: seq<Dial>, j: nat, slot: imap<TimerId, Timer>, now: int, nano: int,
                         visits: map<TimerId, nat>): (r: imap<TimerId, Move>)
    requires DialsOk(ds) && j < |ds|
  {
    imap id | id in visits && id in slot && visits[id] < slot[id].times ::
      Move(BackAt(ds, j, slot[id], now, nano, visits[id]), Left(slot[id], nano, visits[id]))
  }

  ghost function Visited(visits: map<TimerId, nat>): (r: iset<TimerId>) {
    iset id | id in visits
  }

  /** The wheels after a poll, started on wheel `j`, that visited the due timers so often. */
  ghost function PollWheels(v: Wheels, j: nat, now: int, nano: int, visits: map<TimerId, nat>): (out: Wheels)
    requires DialsOk(v.dials) && j < |v.dials|
    ensures out.dials == v.dials
  {
    var n := |v.dials| - 1;
    Land(Drop(v, n, v.dials[n].cur, Visited(visits)), Readded(v.dials, j, Current(v, n), now, nano, visits))
  }

  lemma NothingVisited(v: Wheels, j: nat, slot: imap<TimerId, Timer>, now: int, nano: int)
    requires DialsOk(v.dials) && j < |v.dials|
    ensures PollWheels(v, j, now, nano, map[]) == v && Reported(slot, nano, map[]) == map[]
  {
    assert PollWheels(v, j, now, nano, map[]).spots == v.spots;
  }

  /** A poll that has not visited `id` has left it where it was. */
  lemma NotVisited(v: Wheels, j: nat, now: int, nano: int, visits: map<TimerId, nat>, id: TimerId)
    requires DialsOk(v.dials) && j < |v.dials| && id !in visits
    ensures var n, out := |v.dials| - 1, PollWheels(v, j, now, nano, visits);
            && (id in Current(out, n) <==> id in Current(v, n))
            && (id in Current(v, n) ==> Current(out, n)[id] == Current(v, n)[id])
  {
  }

  lemma ReportedOneMore(ds: seq<Dial>, j: nat, slot: imap<TimerId, Timer>, now: int, nano: int,
                        visits: map<TimerId, nat>, id: TimerId, k: nat)
    requires DialsOk(ds) && j < |ds| && id in slot && id !in visits && VisitsOk(ds, j, slot[id], now, nano, k)
    ensures k >= 1 && Reported(slot, nano, visits[id := k]) == Reported(slot, nano, visits)[id := Left(slot[id], nano, k - 1)]
  {
  }

  /** The k-th renewal of a timer, and when a further visit of it is possible. */
  lemma RenewedAgain(ds: seq<Dial>, j: nat, t: Timer, now: int, nano: int, k: nat)
    requires DialsOk(ds) && j < |ds| && (k == 0 || VisitsOk(ds, j, t, now, nano, k))
    ensures Left(Left(t, nano, k), nano, 1) == Left(t, nano, k + 1) && Left(t, nano, k).times == t.times - k
    ensures k > 0 && k < t.times && Due(Left(t, nano, k), now) && BackAt(ds, j, t, now, nano, k) == Leaf(ds) ==>
              VisitsOk(ds, j, t, now, nano, k + 1)
    ensures VisitsOk(ds, j, t, now, nano, k + 1) && k > 0 ==> BackAt(ds, j, t, now, nano, k) == Leaf(ds)
    ensures VisitsOk(ds, j, t, now, nano, 1) && Left(t, nano, 0) == t
  {
  }

  /** The poll's loop has dealt with exactly the due timers of the slot outside `todo`. */
  ghost predicate VisitedAllBut(ds: seq<Dial>, j: nat, slot: imap<TimerId, Timer>, now: int, nano: int,
                                visits: map<TimerId, nat>, todo: set<TimerId>)
    requires DialsOk(ds) && j < |ds|
  {
    && (forall id :: id in todo ==> id in slot)
    && (forall id :: id in visits <==> id in slot && id !in todo && Due(slot[id], now))
    && (forall id :: id in visits ==> VisitsOk(ds, j, slot[id], now, nano, visits[id]))
  }

  lemma VisitedNone(ds: seq<Dial>, j: nat, slot: imap<TimerId, Timer>, now: int, nano: int, todo: set<TimerId>)
    requires DialsOk(ds) && j < |ds| && forall id :: id in todo <==> id in slot
    ensures VisitedAllBut(ds, j, slot, now, nano, map[], todo)
  {
  }

  lemma VisitedOneMore(ds: seq<Dial>, j: nat, slot: imap<TimerId, Timer>, now: int, nano: int,
                       visits: map<TimerId, nat>, todo: set<TimerId>, id: TimerId)
    requires DialsOk(ds) && j < |ds| && id in todo && VisitedAllBut(ds, j, slot, now, nano, visits, todo)
    ensures id in slot && id !in visits
    ensures !Due(slot[id], now) ==> VisitedAllBut(ds, j, slot, now, nano, visits, todo - {id})
    ensures Due(slot[id], now) ==>
              forall k :: VisitsOk(ds, j, slot[id], now, nano, k) ==>
                            VisitedAllBut(ds, j, slot, now, nano, visits[id := k], todo - {id})
  {
  }

  lemma VisitedAll(v: Wheels, j: nat, now: int, nano: int, visits: map<TimerId, nat>, todo: set<TimerId>)
    requires DialsOk(v.dials) && j < |v.dials| && |todo| == 0
    requires VisitedAllBut(v.dials, j, Current(v, |v.dials| - 1), now, nano, visits, todo)
    ensures PollOk(v, j, now, nano, visits)
  {
  }

  /** A timer taken from a slot and put somewhere is in that slot again only if that is where it was put. */
  lemma PutBack(v: Wheels, j: nat, at: Where, id: TimerId, t: Timer)
    requires j < |v.dials| && at.InSlot?
    ensures var out := Put(Drop(v, j, v.dials[j].cur, iset{id}), at, id, t);
            && (id in Current(out, j) <==> at == InSlot(j, v.dials[j].cur))
            && (id in Current(out, j) ==> Current(out, j)[id] == t)
  {
  }

  lemma ReaddedOneMore(ds: seq<Dial>, j: nat, slot: imap<TimerId, Timer>, now: int, nano: int,
                       visits: map<TimerId, nat>, id: TimerId, k: nat)
    requires DialsOk(ds) && j < |ds| && id in slot
    ensures var t := slot[id];
            var others := Readded(ds, j, slot, now, nano, visits) - {id};
            Readded(ds, j, slot, now, nano, visits[id := k]) ==
              if k < t.times then others[id := Move(BackAt(ds, j, t, now, nano, k), Left(t, nano, k))] else others
    ensures Visited(visits[id := k]) == Visited(visits) + iset{id}
    ensures id in Readded(ds, j, slot, now, nano, visits) ==>
              id in visits && Readded(ds, j, slot, now, nano, visits)[id].at == BackAt(ds, j, slot[id], now, nano, visits[id])
  {
  }

  /** One visit of the poll's loop: the timer leaves the slot and, when it still repeats, is put back. */
  lemma VisitOnce(v: Wheels, j: nat, now: int, nano: int, visits: map<TimerId, nat>, id: TimerId, k: nat)
    requires DialsOk(v.dials) && j < |v.dials| && id in Current(v, |v.dials| - 1)
    requires if k == 0 then id !in visits else id in visits && visits[id] == k
    requires k > 0 ==> BackAt(v.dials, j, Current(v, |v.dials| - 1)[id], now, nano, k) == Leaf(v.dials)
    ensures var n, t := |v.dials| - 1, Current(v, |v.dials| - 1)[id];
            var dropped := Drop(PollWheels(v, j, now, nano, visits), n, v.dials[n].cur, iset{id});
            PollWheels(v, j, now, nano, visits[id := k + 1]) ==
              if k + 1 < t.times
              then Put(dropped, BackAt(v.dials, j, t, now, nano, k + 1), id, Left(t, nano, k + 1)) else dropped
  {
    hide Land, Drop, Readded, Left, BackAt, Put, Current, Visited;
    var n, cur := |v.dials| - 1, v.dials[|v.dials| - 1].cur;
    var slot, ids := Current(v, n), Visited(visits);
    var moves := Readded(v.dials, j, slot, now, nano, visits);
    ReaddedOneMore(v.dials, j, slot, now, nano, visits, id, k + 1);
    DropOneMore(v, n, cur, ids, moves, id);
    if k + 1 < slot[id].times {
      LandOneMore(Drop(v, n, cur, ids + iset{id}), moves - {id}, id,
                  Move(BackAt(v.dials, j, slot[id], now, nano, k + 1), Left(slot[id], nano, k + 1)));
    }
  }

  // Ticks and polls, entry by entry.

  /** A tick of wheel `j`: what was in its current slot is where its delay puts it from this wheel down, with the next
      slot forced; everything else stays, and the pointer moves on by one. */
  ghost predicate Ticked(v: Wheels, j: nat, now: int, out: Wheels)
    requires DialsOk(v.dials) && j < |v.dials|
  {
    var d := v.dials[j];
    && out.dials == v.dials[j := Dial(d.interval, d.scales, (d.cur + 1) % d.scales)]
    && (forall id :: Spot(j, d.cur, id) in v.spots ==>
          var t := v.spots[Spot(j, d.cur, id)];
          var at := PlaceFrom(v.dials, j, t.unixts, now, true);
          Spot(at.wheel, at.slot, id) in out.spots && out.spots[Spot(at.wheel, at.slot, id)] == t)
    && (forall p :: p in out.spots ==>
          || (p in v.spots && !(p.wheel == j && p.slot == d.cur))
          || (Spot(j, d.cur, p.id) in v.spots
              && PlaceFrom(v.dials, j, v.spots[Spot(j, d.cur, p.id)].unixts, now, true) == InSlot(p.wheel, p.slot)))
    && (forall p :: p in v.spots && Spot(j, d.cur, p.id) !in v.spots ==> p in out.spots && out.spots[p] == v.spots[p])
  }

  /** What is in one entry after a slot was drained and its timers put back. */
  lemma TickSpot(v: Wheels, l: nat, i: int, moves: imap<TimerId, Move>, p: Spot)
    ensures var out := Land(Refresh(v, l, i), moves).spots;
            if p.id in moves && moves[p.id].at == InSlot(p.wheel, p.slot) then p in out && out[p] == moves[p.id].timer
            else (p in out <==> p in v.spots && !(p.wheel == l && p.slot == i)) && (p in out ==> out[p] == v.spots[p])
  {
  }

  lemma TickMeaning(v: Wheels, j: nat, now: int)
    requires DialsOk(v.dials) && j < |v.dials|
    ensures Ticked(v, j, now, TickWheel(v, j, now))
  {
    hide PlaceFrom, Land, Refresh, DialsOk;
    var cur, moves, out := v.dials[j].cur, Cascade(v.dials, j, Current(v, j), now), TickWheel(v, j, now);
    forall id | Spot(j, cur, id) in v.spots
      ensures var at := moves[id].at; at.InSlot? && Spot(at.wheel, at.slot, id) in out.spots
      ensures out.spots[Spot(moves[id].at.wheel, moves[id].at.slot, id)] == v.spots[Spot(j, cur, id)]
    {
      TickSpot(v, j, cur, moves, Spot(moves[id].at.wheel, moves[id].at.slot, id));
    }
    forall p
      ensures p in out.spots ==>
                (p in v.spots && !(p.wheel == j && p.slot == cur))
                || (p.id in moves && moves[p.id].at == InSlot(p.wheel, p.slot))
      ensures p in v.spots && Spot(j, cur, p.id) !in v.spots ==> p in out.spots && out.spots[p] == v.spots[p]
    {
      TickSpot(v, j, cur, moves, p);
    }
  }

  /** A poll that visited the timers of `reported` so often: they are exactly those of the finest wheel's current slot
      that are due within 100 ms. A timer visited once is reported as it was, else as its last visit found it. One that
      has firings left is back where its new due time puts it, one interval after the poll's nanosecond, with as many
      firings less; any other is gone. Only a timer due again at once is visited again. Everything else stays. */
  ghost predicate Polled(v: Wheels, j: nat, now: int, nano: int, visits: map<TimerId, nat>, out: Wheels,
                         reported: Slot)
    requires DialsOk(v.dials) && j < |v.dials|
  {
    var n, cur := |v.dials| - 1, v.dials[|v.dials| - 1].cur;
    && out.dials == v.dials && (forall id :: id in reported <==> id in visits)
    && (forall id :: id in reported <==> Spot(n, cur, id) in v.spots && v.spots[Spot(n, cur, id)].unixts - now < 100)
    && (forall p: Spot :: p.id !in reported ==>
          (p in out.spots <==> p in v.spots) && (p in v.spots ==> out.spots[p] == v.spots[p]))
    && forall id :: id in reported ==> TimerPolled(v, j, now, nano, visits[id], id, out, reported[id])
  }

  ghost predicate TimerPolled(v: Wheels, j: nat, now: int, nano: int, visits: nat, id: TimerId, out: Wheels,
                              reported: Timer)
    requires DialsOk(v.dials) && j < |v.dials|
  {
    var n, cur := |v.dials| - 1, v.dials[|v.dials| - 1].cur;
    Spot(n, cur, id) in v.spots
    && var t := v.spots[Spot(n, cur, id)];
       var due := GoDiv(nano + t.interval, 1_000_000);
       && visits >= 1 && reported == (if visits == 1 then t else Timer(due, t.interval, t.times - visits + 1))
       && (visits > 1 ==> visits <= t.times && due - now < 100)
       && if visits < t.times then
            var at := PlaceFrom(v.dials, j, due, now, false);
            && Spot(at.wheel, at.slot, id) in out.spots
            && out.spots[Spot(at.wheel, at.slot, id)] == Timer(due, t.interval, t.times - visits)
            && (at != InSlot(n, cur) ==> Spot(n, cur, id) !in out.spots)
          else Spot(n, cur, id) !in out.spots
  }

  /** What is in one entry after some timers left a slot and some were put back. */
  lemma LandSpot(v: Wheels, l: nat, i: int, ids: iset<TimerId>, moves: imap<TimerId, Move>, p: Spot)
    ensures var out := Land(Drop(v, l, i, ids), moves).spots;
            if p.id in moves && moves[p.id].at == InSlot(p.wheel, p.slot) then p in out && out[p] == moves[p.id].timer
            else (p in out <==> p in v.spots && !(p.wheel == l && p.slot == i && p.id in ids))
                 && (p in out ==> out[p] == v.spots[p])
  {
  }

  lemma ReaddedMeaning(v: Wheels, j: nat, now: int, nano: int, visits: map<TimerId, nat>, id: TimerId)
    requires DialsOk(v.dials) && j < |v.dials| && PollOk(v, j, now, nano, visits)
    ensures var n := |v.dials| - 1; var moves := Readded(v.dials, j, Current(v, n), now, nano, visits);
            var here := Spot(n, v.dials[n].cur, id);
            && (id in visits <==> here in v.spots && v.spots[here].unixts - now < 100)
            && (id in visits ==>
                  var t := v.spots[here];
                  var due := GoDiv(nano + t.interval, 1_000_000);
                  && visits[id] >= 1 && (visits[id] > 1 ==> visits[id] <= t.times && due - now < 100)
                  && (id in moves <==> visits[id] < t.times)
                  && (id in moves ==> moves[id] == Move(PlaceFrom(v.dials, j, due, now, false),
                                                        Timer(due, t.interval, t.times - visits[id]))))
            && (id !in visits ==> id !in moves)
  {
    hide PlaceFrom, GoDiv;
  }

  lemma ReportedMeaning(v: Wheels, nano: int, visits: map<TimerId, nat>, id: TimerId)
    requires |v.dials| > 0 && (id in visits ==> Spot(|v.dials| - 1, v.dials[|v.dials| - 1].cur, id) in v.spots)
    requires id in visits ==> visits[id] >= 1
    ensures var n := |v.dials| - 1; var reported := Reported(Current(v, n), nano, visits);
            && (id in reported <==> id in visits)
            && (id in visits ==>
                  var t := v.spots[Spot(n, v.dials[n].cur, id)];
                  reported[id] == if visits[id] == 1 then t
                                  else Timer(GoDiv(nano + t.interval, 1_000_000), t.interval, t.times - visits[id] + 1))
  {
    hide GoDiv;
  }

  lemma PollMeaning(v: Wheels, j: nat, now: int, nano: int, visits: map<TimerId, nat>)
    requires DialsOk(v.dials) && j < |v.dials| && PollOk(v, j, now, nano, visits)
    ensures Polled(v, j, now, nano, visits, PollWheels(v, j, now, nano, visits),
                   Reported(Current(v, |v.dials| - 1), nano, visits))
  {
    hide PlaceFrom, GoDiv, TimerPolled, Land, Drop, Reported, Readded, PollOk, Current, DialsOk;
    var n, out := |v.dials| - 1, PollWheels(v, j, now, nano, visits);
    var reported := Reported(Current(v, n), nano, visits);
    forall id
      ensures id in reported <==>
              Spot(n, v.dials[n].cur, id) in v.spots && v.spots[Spot(n, v.dials[n].cur, id)].unixts - now < 100
      ensures id in reported <==> id in visits
      ensures id in reported ==> TimerPolled(v, j, now, nano, visits[id], id, out, reported[id])
    {
      ReaddedMeaning(v, j, now, nano, visits, id);
      ReportedMeaning(v, nano, visits, id);
      if id in visits { TimerMeaning(v, j, now, nano, visits, id); }
    }
    forall p: Spot | p.id !in reported
      ensures (p in out.spots <==> p in v.spots) && (p in v.spots ==> out.spots[p] == v.spots[p])
    {
      ReaddedMeaning(v, j, now, nano, visits, p.id);
      LandSpot(v, n, v.dials[n].cur, Visited(visits), Readded(v.dials, j, Current(v, n), now, nano, visits), p);
    }
  }

  lemma TimerMeaning(v: Wheels, j: nat, now: int, nano: int, visits: map<TimerId, nat>, id: TimerId)
    requires DialsOk(v.dials) && j < |v.dials| && PollOk(v, j, now, nano, visits) && id in visits
    ensures id in Reported(Current(v, |v.dials| - 1), nano, visits)
    ensures TimerPolled(v, j, now, nano, visits[id], id, PollWheels(v, j, now, nano, visits),
                        Reported(Current(v, |v.dials| - 1), nano, visits)[id])
  {
    hide PlaceFrom, GoDiv, Land, Drop, Reported, Readded, PollOk, Current, DialsOk;
    var n := |v.dials| - 1;
    ReaddedMeaning(v, j, now, nano, visits, id);
    ReportedMeaning(v, nano, visits, id);
    var due := GoDiv(nano + v.spots[Spot(n, v.dials[n].cur, id)].interval, 1_000_000);
    var at := PlaceFrom(v.dials, j, due, now, false);
    var moves := Readded(v.dials, j, Current(v, n), now, nano, visits);
    LandSpot(v, n, v.dials[n].cur, Visited(visits), moves, Spot(at.wheel, at.slot, id));
    LandSpot(v, n, v.dials[n].cur, Visited(visits), moves, Spot(n, v.dials[n].cur, id));
  }
}
