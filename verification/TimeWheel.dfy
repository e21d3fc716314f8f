/** The timing wheel and its scheduler as the source's objects (jtimer/timewheel.go, jtimer/timescheduler.go).
    The clock is a parameter: `now` is the present millisecond, `nano` the present nanosecond. */
module TimeWheels {
  import opened Collections
  import opened Arithmetic
  import opened WheelSpec

  /** The specification view that the wheels of one hierarchy share. */
  class Hierarchy {
    ghost var chain: seq<TimeWheel>
    ghost var v: Wheels

    ghost predicate Linked(k: nat)
      requires k < |chain| == |v.dials|
      reads this, chain
    {
      var w := chain[k];
      && w.all == this && w.level == k
      && w.nextTimeWheel == (if k + 1 < |chain| then chain[k + 1] else null)
      && v.dials[k] == Dial(w.interval, w.scales, w.curIndex) && v.dials[k].Ok()
    }

    ghost predicate Agrees(k: nat)
      requires k < |chain|
      reads this, chain
    {
      var queue, scales := chain[k].timerQueue, chain[k].scales;
      && (forall i :: i in queue <==> 0 <= i < scales)
      && (forall i, id :: Spot(k, i, id) in v.spots <==> i in queue && id in queue[i])
      && (forall i, id :: i in queue && id in queue[i] ==> v.spots[Spot(k, i, id)] == queue[i][id])
    }

    ghost predicate Valid()
      reads this, chain
    {
      && |chain| == |v.dials| > 0
      && (forall k :: 0 <= k < |chain| ==> Linked(k))
      && (forall k :: 0 <= k < |chain| ==> Agrees(k))
      && (forall s :: s in v.spots ==> s.wheel < |chain|)
    }

    ghost constructor Nothing() {
      chain, v := [], Wheels([], imap[]);
    }

    /** Takes over the three wheels of a scheduler, just made and linked. */
    ghost constructor Of(hour: TimeWheel, minute: TimeWheel, second: TimeWheel)
      requires hour.IsNew() && minute.IsNew() && second.IsNew() && hour != minute && hour != second && minute != second
      requires hour.nextTimeWheel == minute && minute.nextTimeWheel == second && second.nextTimeWheel == null
      requires [hour.Face(), minute.Face(), second.Face()] == StandardDials()
      modifies hour`all, hour`level, minute`all, minute`level, second`all, second`level
      ensures hour.all == this && hour.Valid() && hour.level == 0
      ensures v == Wheels(StandardDials(), imap[])
    {
      hide Agrees;
      chain := [hour, minute, second];
      v := Wheels(StandardDials(), imap[]);
      new;
      hour.level, minute.level, second.level := 0, 1, 2;
      hour.all, minute.all, second.all := this, this, this;
      assert Linked(0) && Linked(1) && Linked(2);
      NewAgrees(0);
      NewAgrees(1);
      NewAgrees(2);
    }

    lemma NewAgrees(k: nat)
      requires k < |chain| && chain[k].IsNew() && v.spots == imap[]
      ensures Agrees(k)
    {
    }

    lemma DialsAreOk()
      requires Valid()
      ensures DialsOk(v.dials)
    {
      assert forall k :: 0 <= k < |chain| ==> Linked(k) && v.dials[k].Ok();
    }
  }

  class TimeWheel {
    const interval: int
    const scales: int
    var curIndex: int
    var timerQueue: map<int, Slot>
    var nextTimeWheel: TimeWheel?
    ghost var all: Hierarchy
    ghost var level: nat

    ghost predicate Valid()
      reads this, all, all.chain
      ensures Valid() ==> all.Valid() && DialsOk(all.v.dials) && level < |all.v.dials| == |all.chain|
      ensures Valid() ==> level < |all.chain| && this == all.chain[level]
      ensures Valid() ==> all.Linked(level) && all.Agrees(level) && curIndex in timerQueue
    {
      && all.Valid() && level < |all.chain| && all.chain[level] == this
      && (all.DialsAreOk(); true)
    }

    ghost function Face(): (r: Dial)
      reads this
    {
      Dial(interval, scales, curIndex)
    }

    /** A wheel as its constructor leaves it: the pointer at 0 and every slot an empty map. */
    ghost predicate IsNew()
      reads this
    {
      && curIndex == 0
      && (forall i :: i in timerQueue <==> 0 <= i < scales)
      && (forall i :: i in timerQueue ==> timerQueue[i] == map[])
    }

    constructor (interval: int, scales: int)
      requires 0 <= scales
      ensures IsNew() && nextTimeWheel == null && Face() == Dial(interval, scales, 0)
    {
      this.interval, this.scales, this.curIndex := interval, scales, 0;
      this.nextTimeWheel, this.level := null, 0;
      var queue: map<int, Slot> := map[];
      for i := 0 to scales
        invariant forall k :: k in queue <==> 0 <= k < i
        invariant forall k :: k in queue ==> queue[k] == map[]
      {
        queue := queue[i := map[]];
      }
      this.timerQueue := queue;
      this.all := new Hierarchy.Nothing();
    }

    method AddTimeWheel(next: TimeWheel)
      modifies this`nextTimeWheel
      ensures nextTimeWheel == next
    {
      nextTimeWheel := next;
    }

    /** Writes a timer to a slot of this wheel. */
    method Assign(slot: int, tID: TimerId, t: Timer)
      requires Valid() && 0 <= slot < scales
      modifies this`timerQueue, all`v
      ensures Valid() && all.v == Put(old(all.v), InSlot(level, slot), tID, t)
    {
      timerQueue := timerQueue[slot := timerQueue[slot][tID := t]];
      all.v := Put(all.v, InSlot(level, slot), tID, t);
      forall k | 0 <= k < |all.chain|
        ensures all.Linked(k) && all.Agrees(k)
      {
        assert old(all.Linked(k)) && old(all.Agrees(k));
      }
    }

    lemma NextWheel()
      requires Valid()
      ensures nextTimeWheel == null <==> level == |all.chain| - 1
      ensures nextTimeWheel != null ==>
                nextTimeWheel.Valid() && nextTimeWheel.all == all && nextTimeWheel.level == level + 1
    {
      if level + 1 < |all.chain| {
        assert all.Linked(level + 1);
      }
    }

    method PlaceTimer(now: int, tID: TimerId, t: Timer, forceNext: bool)
      requires Valid()
      modifies all.chain`timerQueue, all`v
      ensures Valid()
      ensures all.v == Put(old(all.v), PlaceFrom(old(all.v.dials), level, t.unixts, now, forceNext), tID, t)
      decreases |all.chain| - level, 0
    {
      hide SlotAhead, Put, DialsOk, Hierarchy.Valid, Hierarchy.Agrees;
      var delayInterval := t.unixts - now;
      if delayInterval >= interval {
        Assign(SlotAhead(Dial(interval, scales, curIndex), delayInterval), tID, t);
      } else if nextTimeWheel == null {
        Assign(if forceNext then (curIndex + 1) % scales else curIndex, tID, t);
      } else {
        NextWheel();
        nextTimeWheel.AddTimer(now, tID, t);
      }
    }

    method AddTimer(now: int, tID: TimerId, t: Timer)
      requires Valid()
      modifies all.chain`timerQueue, all`v
      ensures Valid()
      ensures all.v == Put(old(all.v), PlaceFrom(old(all.v.dials), level, t.unixts, now, false), tID, t)
      decreases |all.chain| - level, 1
    {
      PlaceTimer(now, tID, t, false);
    }

    method RemoveTimer(tID: TimerId)
      requires Valid()
      modifies this`timerQueue, all`v
      ensures Valid() && all.v == Erase(old(all.v), level, tID)
    {
      DeleteEverywhere(tID);
      all.v := Erase(all.v, level, tID);
      forall k | 0 <= k < |all.chain|
        ensures all.Linked(k) && all.Agrees(k)
      {
        assert old(all.Linked(k)) && old(all.Agrees(k));
      }
    }

    method DeleteEverywhere(tID: TimerId)
      requires forall i :: i in timerQueue <==> 0 <= i < scales
      modifies this`timerQueue
      ensures forall i :: i in timerQueue <==> 0 <= i < scales
      ensures forall i :: i in timerQueue ==> timerQueue[i] == old(timerQueue)[i] - {tID}
    {
      var i := 0;
      while i < scales
        invariant forall k :: k in timerQueue <==> 0 <= k < scales
        invariant forall k :: k in timerQueue ==>
                    timerQueue[k] == if k < i then old(timerQueue)[k] - {tID} else old(timerQueue)[k]
      {
        if tID in timerQueue[i] {
          timerQueue := timerQueue[i := timerQueue[i] - {tID}];
        }
        i := i + 1;
      }
    }

    /** Installs a fresh map in the current slot and returns the one that was there. */
    method TakeSlot() returns (curTimers: Slot)
      requires Valid()
      modifies this`timerQueue, all`v
      ensures Valid() && all.v == Refresh(old(all.v), level, curIndex)
      ensures ToImap(curTimers) == Current(old(all.v), level)
    {
      curTimers := timerQueue[curIndex];
      timerQueue := timerQueue[curIndex := map[]];
      all.v := Refresh(all.v, level, curIndex);
      forall k | 0 <= k < |all.chain|
        ensures all.Linked(k) && all.Agrees(k)
      {
        assert old(all.Linked(k)) && old(all.Agrees(k));
      }
    }

    /** Re-adds, one by one, the timers taken from a slot. */
    method DrainSlot(now: int, curTimers: Slot)
      requires Valid()
      modifies all.chain`timerQueue, all`v
      ensures Valid()
      ensures all.v == Land(old(all.v), Cascade(old(all.v.dials), level, ToImap(curTimers), now))
    {
      ghost var was := all.v;
      var rest := curTimers.Keys;
      LandNothing(was, Cascade(was.dials, level, ToImap(curTimers - rest), now));
      while |rest| > 0
        invariant Valid() && rest <= curTimers.Keys
        invariant all.v == Land(was, Cascade(was.dials, level, ToImap(curTimers - rest), now))
        decreases |rest|
      {
        ghost var any := OneOf(rest);
        var tID :| tID in rest;
        OneKeyMore(curTimers, rest, tID);
        DrainOneMore(was, level, curTimers - rest, tID, curTimers[tID], now);
        PlaceTimer(now, tID, curTimers[tID], true);
        rest := rest - {tID};
      }
      assert curTimers - rest == curTimers;
    }

    method MovePointer()
      requires Valid()
      modifies this`curIndex, all`v
      ensures Valid() && all.v == Turn(old(all.v), level)
    {
      curIndex := (curIndex + 1) % scales;
      all.v := Turn(all.v, level);
      forall k | 0 <= k < |all.chain|
        ensures all.Linked(k) && all.Agrees(k)
      {
        assert old(all.Linked(k)) && old(all.Agrees(k));
      }
    }

    /** One turn of the loop of `run`, at the instant `now`. */
    method Tick(now: int)
      requires Valid()
      modifies this`curIndex, all.chain`timerQueue, all`v
      ensures Valid()
      ensures all.v == TickWheel(old(all.v), level, now) && Ticked(old(all.v), level, now, all.v)
    {
      TickMeaning(all.v, level, now);
      hide Land, Refresh, Cascade, Current, Turn, Ticked;
      var curTimers := TakeSlot();
      DrainSlot(now, curTimers);
      MovePointer();
    }

    /** `delete` on the current slot. */
    method DeleteCurrent(tID: TimerId)
      requires Valid()
      modifies this`timerQueue, all`v
      ensures Valid() && all.v == Drop(old(all.v), level, curIndex, iset{tID})
    {
      timerQueue := timerQueue[curIndex := timerQueue[curIndex] - {tID}];
      all.v := Drop(all.v, level, curIndex, iset{tID});
      forall k | 0 <= k < |all.chain|
        ensures all.Linked(k) && all.Agrees(k)
      {
        assert old(all.Linked(k)) && old(all.Agrees(k));
      }
    }

    method FindLeaf() returns (leaftw: TimeWheel)
      requires Valid()
      ensures leaftw.all == all && leaftw.Valid() && leaftw.level == |all.chain| - 1
    {
      leaftw := this;
      while leaftw.nextTimeWheel != null
        invariant leaftw.all == all && leaftw.Valid()
        decreases |all.chain| - leaftw.level
      {
        leaftw.NextWheel();
        leaftw := leaftw.nextTimeWheel;
      }
    }

    /** The entry the loop below looks at, in the map and in the specification view. */
    lemma CurrentEntry(tID: TimerId)
      requires Valid()
      ensures tID in timerQueue[curIndex] <==> tID in Current(all.v, level)
      ensures tID in timerQueue[curIndex] ==> timerQueue[curIndex][tID] == Current(all.v, level)[tID]
    {
    }

    /** Handles one due timer of the poll: report it, delete it, put it back if it repeats, and do the same
        again as often as the iteration over the map produces the entry that was put back. */
    method TriggerTimer(now: int, nano: int, leaftw: TimeWheel, tID: TimerId, ghost was: Wheels,
                        ghost before: map<TimerId, nat>)
      returns (timer: Timer, ghost visits: nat)
      requires Valid() && leaftw.Valid() && leaftw.all == all && leaftw.level == |all.chain| - 1
      requires was.dials == all.v.dials && all.v == PollWheels(was, level, now, nano, before)
      requires tID !in before && tID in Current(was, leaftw.level) && Due(Current(was, leaftw.level)[tID], now)
      requires tID in Current(all.v, leaftw.level) && Current(all.v, leaftw.level)[tID] == Current(was, leaftw.level)[tID]
      modifies all.chain`timerQueue, all`v
      ensures Valid() && leaftw.Valid()
      ensures VisitsOk(was.dials, level, Current(was, leaftw.level)[tID], now, nano, visits)
      ensures all.v == PollWheels(was, level, now, nano, before[tID := visits])
      ensures timer == Left(Current(was, leaftw.level)[tID], nano, visits - 1)
    {
      hide PollWheels, Current, Drop, Put, Land, Hierarchy.Valid, Hierarchy.Agrees;
      hide PlaceFrom, Left, VisitsOk, GoDiv;
      ghost var t := Current(was, leaftw.level)[tID];
      ghost var sofar := before;
      var again := true;
      visits := 0;
      leaftw.CurrentEntry(tID);
      timer := leaftw.timerQueue[leaftw.curIndex][tID];
      RenewedAgain(was.dials, level, t, now, nano, 0);
      while again
        invariant Valid() && leaftw.Valid()
        invariant sofar == if visits == 0 then before else before[tID := visits]
        invariant all.v == PollWheels(was, level, now, nano, sofar)
        invariant visits > 0 ==> VisitsOk(was.dials, level, t, now, nano, visits)
        invariant visits > 0 ==> timer == Left(t, nano, visits - 1)
        invariant again ==> VisitsOk(was.dials, level, t, now, nano, visits + 1)
        invariant again ==> tID in leaftw.timerQueue[leaftw.curIndex]
        invariant again ==> leaftw.timerQueue[leaftw.curIndex][tID] == Left(t, nano, visits)
        invariant again || visits > 0
        decreases again, t.times - visits
      {
        timer := leaftw.timerQueue[leaftw.curIndex][tID];
        RenewedAgain(was.dials, level, t, now, nano, visits);
        VisitOnce(was, level, now, nano, sofar, tID, visits);
        ghost var held := all.v;
        leaftw.DeleteCurrent(tID);
        again := false;
        if timer.times > 1 {
          var newtimer := Left(timer, nano, 1);
          AddTimer(now, tID, newtimer);
          assert leaftw.Valid();
          PutBack(held, leaftw.level, BackAt(was.dials, level, t, now, nano, visits + 1), tID, newtimer);
          leaftw.CurrentEntry(tID);
          if tID in leaftw.timerQueue[leaftw.curIndex] && Due(newtimer, now) {
            again := *;
          }
        }
        RenewedAgain(was.dials, level, t, now, nano, visits + 1);
        visits := visits + 1;
        sofar := sofar[tID := visits];
      }
    }

    /** The poll, with nothing in between while it gives up the leaf's lock to put a timer back. `visits` says how often
        the loop over the current slot produced each due timer. */
    method GetTimerWithIn(now: int, nano: int) returns (timerList: Slot, ghost visits: map<TimerId, nat>)
      requires Valid()
      modifies all.chain`timerQueue, all`v
      ensures Valid()
      ensures PollOk(old(all.v), level, now, nano, visits)
      ensures all.v == PollWheels(old(all.v), level, now, nano, visits)
      ensures timerList == Reported(Current(old(all.v), |old(all.v.dials)| - 1), nano, visits)
      ensures Polled(old(all.v), level, now, nano, visits, all.v, timerList)
    {
      hide Polled, PollWheels, PollOk, VisitedAllBut, Current, Reported, VisitsOk, Due, Left;
      hide Hierarchy.Valid, Hierarchy.Agrees, Hierarchy.Linked;
      var leaftw := FindLeaf();
      ghost var was, slot := all.v, Current(all.v, leaftw.level);
      timerList, visits := map[], map[];
      NothingVisited(was, level, slot, now, nano);
      var todo := leaftw.timerQueue[leaftw.curIndex].Keys;
      leaftw.CurrentKeys();
      VisitedNone(was.dials, level, slot, now, nano, todo);
      while |todo| > 0
        invariant Valid() && leaftw.Valid()
        invariant all.v == PollWheels(was, level, now, nano, visits)
        invariant timerList == Reported(slot, nano, visits)
        invariant VisitedAllBut(was.dials, level, slot, now, nano, visits, todo)
        decreases |todo|
      {
        ghost var any := OneOf(todo);
        var tID :| tID in todo;
        VisitedOneMore(was.dials, level, slot, now, nano, visits, todo, tID);
        todo := todo - {tID};
        NotVisited(was, level, now, nano, visits, tID);
        leaftw.CurrentEntry(tID);
        if Due(leaftw.timerQueue[leaftw.curIndex][tID], now) {
          ghost var k;
          var timer;
          timer, k := TriggerTimer(now, nano, leaftw, tID, was, visits);
          ReportedOneMore(was.dials, level, slot, now, nano, visits, tID, k);
          timerList := timerList[tID := timer];
          visits := visits[tID := k];
        }
      }
      VisitedAll(was, level, now, nano, visits, todo);
      PollMeaning(was, level, now, nano, visits);
    }

    lemma CurrentKeys()
      requires Valid()
      ensures forall id :: id in timerQueue[curIndex] <==> id in Current(all.v, level)
    {
    }
  }

  class TimerScheduler {
    var tw: TimeWheel
    var IdGen: nat

    ghost predicate Valid()
      reads this, tw, tw.all, tw.all.chain
    {
      tw.Valid() && tw.level == 0
    }

    /** The wheels as the scheduler sees them. */
    ghost function View(): (r: Wheels)
      reads this, tw, tw.all
    {
      tw.all.v
    }

    constructor ()
      ensures Valid() && IdGen == 0
      ensures View() == Wheels(StandardDials(), imap[])
      ensures View().dials == [Dial(3_600_000, 12, 0), Dial(60_000, 60, 0), Dial(1_000, 60, 0)]
    {
      hide Hierarchy.Valid, Hierarchy.Linked, Hierarchy.Agrees;
      var secondTw := new TimeWheel(1_000, 60);
      var minuteTw := new TimeWheel(60_000, 60);
      var hourTw := new TimeWheel(3_600_000, 12);
      hourTw.AddTimeWheel(minuteTw);
      minuteTw.AddTimeWheel(secondTw);
      ghost var all := new Hierarchy.Of(hourTw, minuteTw, secondTw);
      tw, IdGen := hourTw, 0;
    }

    method CreateTimerAt(now: int, unixNano: int) returns (id: TimerId)
      requires Valid()
      modifies this`IdGen, tw.all.chain`timerQueue, tw.all`v
      ensures Valid() && tw == old(tw) && id == IdGen == old(IdGen) + 1
      ensures var t := Timer(GoDiv(unixNano, NANOS_PER_MILLI), 0, 1);
              View() == Put(old(View()), PlaceFrom(old(View()).dials, 0, t.unixts, now, false), id, t)
    {
      IdGen := IdGen + 1;
      id := IdGen;
      tw.AddTimer(now, id, Timer(GoDiv(unixNano, NANOS_PER_MILLI), 0, 1));
    }

    method CreateTimerAfter(now: int, nano: int, duration: int, times: int, interval: int) returns (id: TimerId)
      requires Valid()
      modifies this`IdGen, tw.all.chain`timerQueue, tw.all`v
      ensures Valid() && tw == old(tw) && id == IdGen == old(IdGen) + 1
      ensures var t := Timer(GoDiv(nano + duration, NANOS_PER_MILLI), interval, times);
              View() == Put(old(View()), PlaceFrom(old(View()).dials, 0, t.unixts, now, false), id, t)
    {
      IdGen := IdGen + 1;
      id := IdGen;
      tw.AddTimer(now, id, Timer(GoDiv(nano + duration, NANOS_PER_MILLI), interval, times));
    }

    /** With nothing in between, the scan leaves the id in no wheel. */
    method RomoveTimer(tID: TimerId)
      requires Valid()
      modifies tw.all.chain`timerQueue, tw.all`v
      ensures Valid() && View() == EraseUpTo(old(View()), |old(View()).dials|, tID)
      ensures forall s :: s in View().spots ==> s.id != tID
    {
      hide Hierarchy.Valid, Hierarchy.Linked, Hierarchy.Agrees, Erase, EraseUpTo;
      ghost var was := View();
      AllOnWheels(tID);
      var w: TimeWheel? := tw;
      ghost var k := 0;
      EraseOneWheelMore(was, 0, tID);
      while w != null
        invariant Valid() && k <= |was.dials|
        invariant if w == null then k == |was.dials| else w.Valid() && w.all == tw.all && w.level == k
        invariant View() == EraseUpTo(was, k, tID)
        decreases |was.dials| - k
      {
        EraseOneWheelMore(was, k, tID);
        w.RemoveTimer(tID);
        w.NextWheel();
        w, k := w.nextTimeWheel, k + 1;
      }
    }

    lemma AllOnWheels(tID: TimerId)
      requires Valid()
      ensures forall s :: s in EraseUpTo(View(), |View().dials|, tID).spots ==> s.id != tID
    {
      assert forall s :: s in View().spots ==> s.wheel < |tw.all.chain| == |View().dials|;
    }

    /** One turn of the loop of `Start`: the timers whose functions are sent to the trigger channel. */
    method PollOnce(now: int, nano: int) returns (timerList: Slot, ghost visits: map<TimerId, nat>)
      requires Valid()
      modifies tw.all.chain`timerQueue, tw.all`v
      ensures Valid()
      ensures PollOk(old(View()), 0, now, nano, visits) && View() == PollWheels(old(View()), 0, now, nano, visits)
      ensures timerList == Reported(Current(old(View()), |old(View()).dials| - 1), nano, visits)
      ensures Polled(old(View()), 0, now, nano, visits, View(), timerList)
    {
      hide Polled, PollOk, PollWheels, Reported, Current, Hierarchy.Valid, Hierarchy.Linked, Hierarchy.Agrees;
      timerList, visits := tw.GetTimerWithIn(now, nano);
    }
  }
}
