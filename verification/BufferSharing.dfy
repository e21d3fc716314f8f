/** Any number of connections on top of one slice pool (jnet/tcpconn.go, jnet/tcpmsgparser.go with
    memorypool/slicepool.go): who holds which buffer, under all interleavings. The pool is what SlicePools proves of it:
    it hands out a buffer that it holds, and then no longer holds, or a new one, and keeps what is released. */
module BufferSharing {
  import opened Collections
  import opened ConnSpec
  import opened ConnMachine

  type Mem = nat

  /** The buffer that was given to a connection as its `id`-th. */
  datatype Owner = Owner(conn: nat, id: nat)

  /** `place` says which memory a given buffer is, `lent` are the buffers of messages that were read, `seen` all the
      memory ever made, `nils` counts the nil slices that were released. */
  datatype System = System(
    conns: map<nat, State>, place: map<Owner, Mem>, pooled: set<Mem>, lent: set<Mem>, seen: set<Mem>, nils: nat)

  /** `Send`: a frame is built in a buffer of the pool and given to `Write`. `Do`: any other step of a connection.
      `Lend` and `Return`: a message is read into a buffer, and that buffer is released. `Forget`: the pool drops a
      buffer, at its release because it is too large or later. */
  datatype Act =
    | Open(conn: nat)
    | Send(conn: nat, bytes: seq<SlicePools.byte>, mem: Mem)
    | Do(conn: nat, step: Step)
    | Lend(mem: Mem)
    | Return(mem: Mem)
    | Forget(mem: Mem)

  function Init(): (r: System) {
    System(map[], map[], {}, {}, {}, 0)
  }

  /** `MakeByteSlice` may hand out this buffer. */
  predicate Makes(y: System, mem: Mem) {
    mem in y.pooled || mem !in y.seen
  }

  predicate Enabled(y: System, act: Act) {
    match act
    case Open(c) => c !in y.conns
    case Send(c, _, mem) => c in y.conns && Makes(y, mem)
    case Do(c, step) => c in y.conns && ConnMachine.Enabled(y.conns[c], step) && (step.Write? ==> step.bytes.None?)
    case Lend(mem) => Makes(y, mem)
    case Return(mem) => mem in y.lent
    case Forget(mem) => mem in y.pooled
  }

  /** What a step of a connection released. */
  function Fresh(s: State, t: State): (r: seq<Option<Buf>>) {
    if |s.conn.released| <= |t.conn.released| then t.conn.released[|s.conn.released|..] else []
  }

  function MemsOf(place: map<Owner, Mem>, c: nat, bs: seq<Buf>): (r: set<Mem>) {
    set b | b in bs && Owner(c, b.id) in place :: place[Owner(c, b.id)]
  }

  /** A connection goes on, and what it releases goes to the pool. */
  function Moved(y: System, c: nat, t: State): (r: System)
    requires c in y.conns
  {
    var out := Fresh(y.conns[c], t);
    y.(conns := y.conns[c := t], pooled := y.pooled + MemsOf(y.place, c, Buffers(out)),
       nils := y.nils + |out| - |Buffers(out)|)
  }

  function Apply(y: System, act: Act): (r: System)
    requires Enabled(y, act)
  {
    match act
    case Open(c) => y.(conns := y.conns[c := ConnMachine.Init()])
    case Send(c, bytes, mem) =>
      var made := y.(pooled := y.pooled - {mem}, seen := y.seen + {mem},
                     place := y.place[Owner(c, |y.conns[c].given|) := mem]);
      Moved(made, c, ConnMachine.Apply(y.conns[c], Write(Some(bytes))))
    case Do(c, step) => Moved(y, c, ConnMachine.Apply(y.conns[c], step))
    case Lend(mem) => y.(pooled := y.pooled - {mem}, seen := y.seen + {mem}, lent := y.lent + {mem})
    case Return(mem) => y.(pooled := y.pooled + {mem}, lent := y.lent - {mem})
    case Forget(mem) => y.(pooled := y.pooled - {mem})
  }

  /** The buffer is queued in its connection or in the writer's hand. */
  ghost predicate Live(y: System, o: Owner) {
    o.conn in y.conns && var s := y.conns[o.conn]; o.id < |s.given| && s.given[o.id] !in Buffers(s.conn.released)
  }

  /** No memory is in two hands: of a connection, of the reader of a message, or of the pool. */
  ghost predicate Apart(y: System) {
    && (forall o :: Live(y, o) ==> o in y.place && y.place[o] in y.seen - y.pooled - y.lent)
    && (forall o, p :: Live(y, o) && Live(y, p) && o != p ==> y.place[o] != y.place[p])
    && y.pooled !! y.lent && y.pooled + y.lent <= y.seen
  }

  /** The nil slices that a connection releases: one for each nil buffer it was given, and one for a close that found
      its queue full. */
  function NilsOf(s: State): (r: nat) {
    s.nilGiven + s.fullCloses
  }

  ghost predicate NilsOk(y: System) {
    && (forall c :: c in y.conns ==> NilsOf(y.conns[c]) <= y.nils)
    && (y.nils > 0 ==> exists c :: c in y.conns && NilsOf(y.conns[c]) > 0)
  }

  ghost predicate SystemOk(y: System) {
    Apart(y) && NilsOk(y) && forall c :: c in y.conns ==> Good(y.conns[c])
  }

  /** Each buffer that a connection releases is one that the pool does not hold, and none comes twice: the condition
      under which `SlicePoolList.ReleaseByteSlice` leaves the pools in order, nil apart. */
  ghost predicate ReleasesClean(y: System, c: nat, out: seq<Option<Buf>>) {
    && (forall i :: 0 <= i < |out| && out[i].Some? ==>
          Owner(c, out[i].value.id) in y.place && y.place[Owner(c, out[i].value.id)] !in y.pooled + y.lent)
    && (forall i, j :: 0 <= i < j < |out| && out[i].Some? && out[j].Some? ==>
          Owner(c, out[i].value.id) in y.place && Owner(c, out[j].value.id) in y.place
          && y.place[Owner(c, out[i].value.id)] != y.place[Owner(c, out[j].value.id)])
  }

  // Part 1: What one step of a connection releases.

  lemma StepGrows(s: State, step: Step)
    requires ConnMachine.Enabled(s, step)
    ensures var t := ConnMachine.Apply(s, step);
            && s.conn.released <= t.conn.released
            && t.given == if step.Write? && step.bytes.Some? then s.given + [Buf(|s.given|, step.bytes.value)]
                          else s.given
  {
    hide Buffers, Somes;
  }

  lemma {:induction false} BufferAt(chan: seq<Option<Buf>>, i: nat)
    requires i < |chan| && chan[i].Some?
    ensures chan[i].value in Buffers(chan)
  {
    if i < |chan| - 1 { BufferAt(chan[..|chan| - 1], i); }
  }

  lemma {:induction false} BuffersTwice(chan: seq<Option<Buf>>, i: nat, j: nat)
    requires i < j < |chan| && chan[i].Some? && chan[i] == chan[j]
    ensures multiset(Buffers(chan))[chan[i].value] >= 2
  {
    var last := |chan| - 1;
    if j < last {
      BuffersTwice(chan[..last], i, j);
    } else {
      BufferAt(chan[..last], i);
    }
  }

  /** What was released by a state in order are given buffers, each once. */
  lemma ReleasedOnce(t: State, b: Buf)
    requires Conserved(t) && b in Buffers(t.conn.released)
    ensures b.id < |t.given| && t.given[b.id] == b && multiset(Buffers(t.conn.released))[b] == 1
  {
    hide Buffers;
    assert b in multiset(t.given);
    var i :| 0 <= i < |t.given| && t.given[i] == b;
    GivenOnce(t.given, b);
  }

  // Part 2: Releases keep the hands apart.

  /** The connection after a step, before anything that it released is gone. */
  function Unreleased(s: State, t: State): (r: State) {
    t.(conn := t.conn.(released := s.conn.released))
  }

  lemma NewlyReleased(s: State, t: State, b: Buf)
    requires Conserved(t) && s.conn.released <= t.conn.released && b in Buffers(Fresh(s, t))
    ensures b.id < |t.given| && t.given[b.id] == b && b !in Buffers(s.conn.released) && b in Buffers(t.conn.released)
    ensures multiset(Buffers(Fresh(s, t)))[b] == 1
  {
    hide Buffers;
    var out := Fresh(s, t);
    assert t.conn.released == s.conn.released + out;
    BuffersOf(s.conn.released, out);
    ReleasedOnce(t, b);
    assert b in multiset(Buffers(out));
    assert b in Buffers(s.conn.released) ==> b in multiset(Buffers(s.conn.released));
  }

  lemma StillReleased(s: State, t: State, b: Buf)
    requires s.conn.released <= t.conn.released
    ensures b in Buffers(t.conn.released) <==> b in Buffers(s.conn.released) || b in Buffers(Fresh(s, t))
  {
    hide Buffers;
    assert t.conn.released == s.conn.released + Fresh(s, t);
    BuffersOf(s.conn.released, Fresh(s, t));
  }

  /** What a connection releases, its owners held until now. */
  lemma ReleasedWasLive(y: System, c: nat, s: State, t: State, b: Buf)
    requires c in y.conns && y.conns[c] == Unreleased(s, t) && Conserved(t) && s.conn.released <= t.conn.released
    requires b in Buffers(Fresh(s, t))
    ensures Live(y, Owner(c, b.id)) && y.conns[c].given[b.id] == b
  {
    hide Buffers, Conserved;
    NewlyReleased(s, t, b);
  }

  lemma CleanReleases(y: System, c: nat, s: State, t: State)
    requires Apart(y) && c in y.conns && y.conns[c] == Unreleased(s, t) && Conserved(t)
    requires s.conn.released <= t.conn.released
    ensures ReleasesClean(y, c, Fresh(s, t))
  {
    hide Buffers, Conserved, Fresh, Live;
    var out := Fresh(s, t);
    forall i | 0 <= i < |out| && out[i].Some?
      ensures Live(y, Owner(c, out[i].value.id)) && out[i].value.id < |y.conns[c].given|
      ensures y.conns[c].given[out[i].value.id] == out[i].value
    {
      BufferAt(out, i);
      ReleasedWasLive(y, c, s, t, out[i].value);
      LiveIsGiven(y, Owner(c, out[i].value.id));
    }
    forall i, j | 0 <= i < j < |out| && out[i].Some? && out[j].Some? ensures out[i].value != out[j].value {
      if out[i] == out[j] {
        BufferAt(out, i);
        NewlyReleased(s, t, out[i].value);
        BuffersTwice(out, i, j);
      }
    }
  }

  lemma LiveIsGiven(y: System, o: Owner)
    requires Live(y, o)
    ensures o.conn in y.conns && o.id < |y.conns[o.conn].given|
  {
    hide Buffers;
  }

  /** The system once what a connection released has reached the pool. */
  function Pooled(y: System, c: nat, s: State, t: State): (r: System) {
    var out := Fresh(s, t);
    y.(conns := y.conns[c := t], pooled := y.pooled + MemsOf(y.place, c, Buffers(out)),
       nils := y.nils + |out| - |Buffers(out)|)
  }

  lemma LiveAfter(y: System, c: nat, s: State, t: State, o: Owner)
    requires c in y.conns && y.conns[c] == Unreleased(s, t) && Conserved(t) && s.conn.released <= t.conn.released
    requires Live(Pooled(y, c, s, t), o)
    ensures Live(y, o) && forall b :: b in Buffers(Fresh(s, t)) ==> o != Owner(c, b.id)
  {
    hide Buffers, Conserved, Fresh;
    if o.conn == c {
      StillReleased(s, t, t.given[o.id]);
      forall b | b in Buffers(Fresh(s, t)) ensures o != Owner(c, b.id) { NewlyReleased(s, t, b); }
    }
  }

  lemma PooledApart(y: System, c: nat, s: State, t: State)
    requires Apart(y) && c in y.conns && y.conns[c] == Unreleased(s, t) && Conserved(t)
    requires s.conn.released <= t.conn.released
    ensures Apart(Pooled(y, c, s, t))
  {
    hide Buffers, Conserved, Fresh, Live;
    var z := Pooled(y, c, s, t);
    forall b | b in Buffers(Fresh(s, t))
      ensures Live(y, Owner(c, b.id)) && y.place[Owner(c, b.id)] in y.seen - y.lent
    {
      ReleasedWasLive(y, c, s, t, b);
    }
    forall o | Live(z, o) ensures Live(y, o) && y.place[o] !in MemsOf(y.place, c, Buffers(Fresh(s, t))) {
      LiveAfter(y, c, s, t, o);
    }
  }

  // Part 3: Every step, and every run.

  /** The step that a connection takes, if any. */
  function StepOf(act: Act): (r: Option<(nat, Step)>) {
    match act
    case Send(c, bytes, _) => Some((c, Write(Some(bytes))))
    case Do(c, step) => Some((c, step))
    case _ => None
  }

  lemma StepEnabled(y: System, act: Act)
    requires Enabled(y, act) && StepOf(act).Some?
    ensures var (c, step) := StepOf(act).value; c in y.conns && ConnMachine.Enabled(y.conns[c], step)
  {
  }

  /** The state of the system in which the connection has taken its step and nothing is released yet. */
  function Held(y: System, act: Act): (r: System)
    requires Enabled(y, act) && StepOf(act).Some?
  {
    var (c, step) := StepOf(act).value;
    var s := y.conns[c];
    var out := y.(conns := y.conns[c := Unreleased(s, ConnMachine.Apply(s, step))]);
    if act.Send? then
      out.(pooled := y.pooled - {act.mem}, seen := y.seen + {act.mem},
           place := y.place[Owner(c, |s.given|) := act.mem])
    else out
  }

  lemma HeldThenPooled(y: System, act: Act)
    requires Enabled(y, act) && StepOf(act).Some?
    ensures var (c, step) := StepOf(act).value;
            Apply(y, act) == Pooled(Held(y, act), c, y.conns[c], ConnMachine.Apply(y.conns[c], step))
  {
    hide Buffers, ConnMachine.Apply, ConnMachine.Enabled, Fresh, MemsOf;
  }

  lemma HeldApart(y: System, act: Act)
    requires Apart(y) && Enabled(y, act) && StepOf(act).Some? && Numbered(y.conns[StepOf(act).value.0].given)
    ensures Apart(Held(y, act))
  {
    hide Buffers, ConnMachine.Apply, ConnMachine.Enabled;
    var (c, step) := StepOf(act).value;
    StepEnabled(y, act);
    StepGrows(y.conns[c], step);
    var z := Held(y, act);
    forall o | Live(z, o) ensures Live(y, o) || (act.Send? && o == Owner(c, |y.conns[c].given|)) {
    }
  }

  lemma ActKeepsOk(y: System, act: Act)
    requires SystemOk(y) && Enabled(y, act)
    ensures SystemOk(Apply(y, act))
    ensures StepOf(act).Some? ==>
              var (c, step) := StepOf(act).value;
              ReleasesClean(Held(y, act), c, Fresh(y.conns[c], ConnMachine.Apply(y.conns[c], step)))
  {
    hide Good, Apart, Enabled, Apply, ConnMachine.Apply, ConnMachine.Enabled, ReleasesClean, Conserved, Numbered;
    if StepOf(act).Some? {
      StepEnabled(y, act);
      var (c, step) := StepOf(act).value;
      var s, t := y.conns[c], ConnMachine.Apply(y.conns[c], step);
      StepKeepsGood(s, step);
      GoodIs(s);
      GoodIs(t);
      StepGrows(s, step);
      HeldApart(y, act);
      HeldThenPooled(y, act);
      CleanReleases(Held(y, act), c, s, t);
      PooledApart(Held(y, act), c, s, t);
      NilsCounted(s, t);
      NilsKept(y, act);
    } else {
      InitGood();
      OthersApart(y, act);
    }
  }

  lemma NilsCounted(s: State, t: State)
    requires Conserved(s) && Conserved(t) && s.conn.released <= t.conn.released
    ensures |Fresh(s, t)| - |Buffers(Fresh(s, t))| == NilsOf(t) - NilsOf(s)
  {
    hide Buffers, Balanced, Numbered;
    assert t.conn.released == s.conn.released + Fresh(s, t);
    BuffersOf(s.conn.released, Fresh(s, t));
  }

  lemma NilsKept(y: System, act: Act)
    requires NilsOk(y) && Enabled(y, act) && StepOf(act).Some?
    requires var (c, step) := StepOf(act).value; c in y.conns && ConnMachine.Enabled(y.conns[c], step)
    requires var (c, step) := StepOf(act).value; var t := ConnMachine.Apply(y.conns[c], step);
             |Fresh(y.conns[c], t)| - |Buffers(Fresh(y.conns[c], t))| == NilsOf(t) - NilsOf(y.conns[c])
             && |Buffers(Fresh(y.conns[c], t))| <= |Fresh(y.conns[c], t)|
    ensures NilsOk(Apply(y, act))
  {
    hide Buffers, ConnMachine.Apply, ConnMachine.Enabled, Fresh, MemsOf, NilsOf;
    var (c, step) := StepOf(act).value;
    var z := Apply(y, act);
    if z.nils > 0 {
      if y.nils > 0 {
        var d :| d in y.conns && NilsOf(y.conns[d]) > 0;
        assert d in z.conns && NilsOf(z.conns[d]) > 0;
      } else {
        assert c in z.conns && NilsOf(z.conns[c]) > 0;
      }
    }
  }

  lemma GoodIs(s: State)
    requires Good(s)
    ensures Conserved(s) && Numbered(s.given)
  {
    hide Buffers;
  }

  lemma InitGood()
    ensures Good(ConnMachine.Init())
  {
  }

  lemma OthersApart(y: System, act: Act)
    requires Apart(y) && Enabled(y, act) && StepOf(act).None?
    ensures Apart(Apply(y, act))
    ensures var z := Apply(y, act);
            && z.nils == y.nils && y.conns.Keys <= z.conns.Keys
            && forall c :: c in z.conns ==> z.conns[c] == if c in y.conns then y.conns[c] else ConnMachine.Init()
  {
    hide Buffers;
    forall o | Live(Apply(y, act), o) ensures Live(y, o) {
    }
  }

  ghost predicate Run(states: seq<System>, acts: seq<Act>) {
    && |states| == |acts| + 1 && states[0] == Init()
    && forall i :: 0 <= i < |acts| ==> Enabled(states[i], acts[i]) && states[i + 1] == Apply(states[i], acts[i])
  }

  lemma {:induction false} RunOk(states: seq<System>, acts: seq<Act>, i: nat)
    requires Run(states, acts) && i < |states|
    ensures SystemOk(states[i])
  {
    hide SystemOk, Enabled, Apply;
    if i == 0 {
      NobodyHolds();
    } else {
      RunOk(states, acts, i - 1);
      assert Enabled(states[i - 1], acts[i - 1]) && states[i] == Apply(states[i - 1], acts[i - 1]);
      ActKeepsOk(states[i - 1], acts[i - 1]);
    }
  }

  lemma NobodyHolds()
    ensures SystemOk(Init())
  {
  }

  /** Single ownership over every run: no buffer is at once in the queue or the writer's hand of a connection, in the
      hands of another, lent to the reader of a message, or in the pool; whatever a connection releases the pool does
      not hold at that moment; and nil reaches the pool exactly when some connection was given a nil buffer or closed
      with its queue full. */
  lemma NeverShared(states: seq<System>, acts: seq<Act>, i: nat)
    requires Run(states, acts) && i < |states|
    ensures Apart(states[i])
    ensures states[i].nils == 0 <==> forall c :: c in states[i].conns ==> NilsOf(states[i].conns[c]) == 0
    ensures i < |acts| && StepOf(acts[i]).Some? ==>
              var (c, step) := StepOf(acts[i]).value;
              && Enabled(states[i], acts[i])
              && ReleasesClean(Held(states[i], acts[i]), c,
                               Fresh(states[i].conns[c], ConnMachine.Apply(states[i].conns[c], step)))
  {
    hide Apart, Good, Enabled, Apply, ReleasesClean, NilsOf;
    RunOk(states, acts, i);
    if i < |acts| {
      assert Enabled(states[i], acts[i]);
      ActKeepsOk(states[i], acts[i]);
    }
  }

  // What goes back to the pool.

  lemma LeavingIsPooled(y: System, c: nat, s: State, t: State, o: Owner)
    requires Apart(y) && c in y.conns && y.conns[c] == Unreleased(s, t) && Numbered(t.given)
    requires s.conn.released <= t.conn.released && Live(y, o) && !Live(Pooled(y, c, s, t), o)
    ensures o in y.place && y.place[o] in Pooled(y, c, s, t).pooled
  {
    hide Buffers, Fresh;
    StillReleased(s, t, t.given[o.id]);
  }

  lemma StaysLive(y: System, act: Act, o: Owner)
    requires Enabled(y, act) && Live(y, o)
    ensures StepOf(act).None? ==> Live(Apply(y, act), o)
    ensures StepOf(act).Some? ==> Live(Held(y, act), o)
  {
    hide Buffers, ConnMachine.Apply, ConnMachine.Enabled;
    if StepOf(act).Some? {
      StepEnabled(y, act);
      StepGrows(y.conns[StepOf(act).value.0], StepOf(act).value.1);
    }
  }

  /** A buffer just given to a connection. */
  predicate NewlyGiven(y: System, act: Act, o: Owner) {
    act.Send? && act.conn in y.conns && o == Owner(act.conn, |y.conns[act.conn].given|)
  }

  lemma NewIsLive(y: System, act: Act, o: Owner)
    requires Enabled(y, act) && NewlyGiven(y, act, o) && Good(y.conns[act.conn])
    ensures Live(Held(y, act), o) && Held(y, act).place[o] == act.mem
  {
    hide ConnMachine.Apply, ConnMachine.Enabled, Buffers;
    var s := y.conns[act.conn];
    StepEnabled(y, act);
    StepGrows(s, Write(Some(act.bytes)));
    GoodIs(s);
    if Buf(o.id, act.bytes) in Buffers(s.conn.released) { ReleasedOnce(s, Buf(o.id, act.bytes)); }
  }

  /** A buffer that a connection lets go, queued, in the writer's hand or just given to it, is in the pool at once; and
      so is one whose message is done with. */
  lemma ReleasedIsPooled(states: seq<System>, acts: seq<Act>, i: nat, o: Owner)
    requires Run(states, acts) && i < |acts|
    ensures (Live(states[i], o) || NewlyGiven(states[i], acts[i], o)) && !Live(states[i + 1], o) ==>
              o in states[i + 1].place && states[i + 1].place[o] in states[i + 1].pooled
    ensures NewlyGiven(states[i], acts[i], o) ==> o in states[i + 1].place && states[i + 1].place[o] == acts[i].mem
    ensures acts[i].Return? ==> acts[i].mem in states[i + 1].pooled && acts[i].mem !in states[i + 1].lent
  {
    hide SystemOk, Enabled, Apply, NewlyGiven, Live;
    RunOk(states, acts, i);
    assert Enabled(states[i], acts[i]) && states[i + 1] == Apply(states[i], acts[i]);
    ActPools(states[i], acts[i], o);
  }

  lemma ActPools(y: System, act: Act, o: Owner)
    requires SystemOk(y) && Enabled(y, act)
    ensures (Live(y, o) || NewlyGiven(y, act, o)) && !Live(Apply(y, act), o) ==>
              o in Apply(y, act).place && Apply(y, act).place[o] in Apply(y, act).pooled
    ensures NewlyGiven(y, act, o) ==> o in Apply(y, act).place && Apply(y, act).place[o] == act.mem
    ensures act.Return? ==> act.mem in Apply(y, act).pooled && act.mem !in Apply(y, act).lent
  {
    hide Good, Apart, NilsOk, ConnMachine.Apply, ConnMachine.Enabled, Numbered, Fresh, MemsOf, Buffers, Live;
    if Live(y, o) { StaysLive(y, act, o); }
    if NewlyGiven(y, act, o) { NewIsLive(y, act, o); }
    if StepOf(act).Some? && (Live(y, o) || NewlyGiven(y, act, o)) && !Live(Apply(y, act), o) {
      StepEnabled(y, act);
      var (c, step) := StepOf(act).value;
      var s, t := y.conns[c], ConnMachine.Apply(y.conns[c], step);
      StepGrows(s, step);
      StepKeepsGood(s, step);
      GoodIs(s);
      GoodIs(t);
      HeldApart(y, act);
      HeldThenPooled(y, act);
      LeavingIsPooled(Held(y, act), c, s, t, o);
    }
  }

  /** Whatever state the system is in, a frame can be built for any connection and a message be read, and a connection
      can take each step that it could take alone. */
  lemma ConnectionsGoOn(y: System, c: nat, bytes: seq<SlicePools.byte>, step: Step) returns (mem: Mem)
    requires c in y.conns
    ensures Enabled(y, Send(c, bytes, mem)) && Enabled(y, Lend(mem))
    ensures ConnMachine.Enabled(y.conns[c], step) && (step.Write? ==> step.bytes.None?) ==> Enabled(y, Do(c, step))
  {
    mem := Above(y.seen);
  }
}
