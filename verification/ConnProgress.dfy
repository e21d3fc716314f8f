/** That the writer of a connection gets somewhere (jnet/tcpconn.go): whatever state the connection is in, the writer
    can come to its end, and with a socket that works everything that was accepted goes out before. */
module ConnProgress {
  import opened Collections
  import opened ConnSpec
  import opened ConnMachine

  /** The steps lead from one state to another. */
  ghost predicate Leads(s: State, steps: seq<Step>, t: State)
    decreases |steps|
  {
    if steps == [] then t == s else Enabled(s, steps[0]) && Leads(Apply(s, steps[0]), steps[1..], t)
  }

  lemma OneMore(s: State, step: Step, steps: seq<Step>, t: State)
    requires Enabled(s, step) && Leads(Apply(s, step), steps, t)
    ensures Leads(s, [step] + steps, t)
  {
    hide Enabled, Apply;
    assert ([step] + steps)[1..] == steps;
  }

  /** A connection whose channel is open although it is closed has a nil buffer in it, until the writer finds it. */
  ghost predicate NilWaits(s: State) {
    s.conn.isClosed && s.conn.closes == 0 && !s.writer.Leaving? && !s.writer.Finished? ==>
      s.conn.chan != [] && s.conn.chan[|s.conn.chan| - 1].None?
  }

  lemma NilWaitsKept(s: State, step: Step)
    requires NilWaits(s) && ChannelOk(s) && Enabled(s, step)
    ensures NilWaits(Apply(s, step))
  {
    hide Buffers, Somes;
  }

  lemma {:induction false} RunNilWaits(states: seq<State>, steps: seq<Step>, i: nat)
    requires Run(states, steps) && i < |states|
    ensures NilWaits(states[i])
  {
    if i > 0 {
      hide Enabled, Apply, NilWaits, Conserved, WireOk, ChannelOk;
      RunNilWaits(states, steps, i - 1);
      RunGood(states, steps, i - 1);
      assert Enabled(states[i - 1], steps[i - 1]) && states[i] == Apply(states[i - 1], steps[i - 1]);
      NilWaitsKept(states[i - 1], steps[i - 1]);
    }
  }

  /** The writer met with no failed write. */
  predicate Unharmed(w: Writer) {
    match w
    case Letting(_, failed) => !failed
    case Leaving(why) => !why.WriteError?
    case Finished(why) => !why.WriteError?
    case _ => true
  }

  /** The next thing the writer does; an open connection with nothing to write is closed first. */
  function Next(s: State): (step: Step)
    requires !s.writer.Finished?
  {
    match s.writer
    case Holding(b) => if s.conn.socketOpen then Put(|b.bytes|, false) else Put(0, true)
    case Letting(_, _) => Let
    case Leaving(_) => Leave
    case Waiting => if s.conn.chan != [] then Take else if s.conn.closes > 0 then End else Close
  }

  function Phase(w: Writer): (n: nat) {
    match w
    case Finished(_) => 0
    case Leaving(_) => 1
    case Waiting => 2
    case Letting(_, _) => 3
    case Holding(_) => 4
  }

  function Left(s: State): (n: nat) {
    3 * |s.conn.chan| + Phase(s.writer) + if s.conn.isClosed then 0 else 6
  }

  lemma NextGoesOn(s: State)
    requires ChannelOk(s) && NilWaits(s) && !s.writer.Finished?
    ensures Enabled(s, Next(s))
    ensures var t := Apply(s, Next(s));
            && Left(t) < Left(s) && t.accepted == s.accepted && t.given == s.given
            && (s.conn.socketOpen && Unharmed(s.writer) ==>
                  Unharmed(t.writer) && (t.writer.Finished? || t.conn.socketOpen))
  {
    hide Buffers, Somes;
  }

  lemma {:induction false} WriterGoesOn(s: State) returns (steps: seq<Step>, t: State)
    requires Good(s) && NilWaits(s)
    ensures Leads(s, steps, t) && Good(t) && t.writer.Finished? && t.accepted == s.accepted && t.given == s.given
    ensures (s.conn.socketOpen || s.writer.Finished?) && Unharmed(s.writer) ==> Unharmed(t.writer)
    decreases Left(s)
  {
    assert ChannelOk(s);
    hide Good, Enabled, Apply, NilWaits, Left, ChannelOk;
    steps, t := [], s;
    if !s.writer.Finished? {
      NextGoesOn(s);
      StepKeepsGood(s, Next(s));
      NilWaitsKept(s, Next(s));
      steps, t := WriterGoesOn(Apply(s, Next(s)));
      OneMore(s, Next(s), steps, t);
      steps := [Next(s)] + steps;
    }
  }

  lemma FinishedIsBalanced(s: State)
    requires Good(s) && s.writer.Finished?
    ensures multiset(s.given) == multiset(Buffers(s.conn.released))
    ensures Unharmed(s.writer) ==> s.wire == Flat(s.accepted)
  {
    hide Flat;
    NoBuffers<Buf>();
  }

  /** From every state of every run the writer can come to its end without any further write: then every buffer is
      released, and if the socket was open and no write had failed, everything accepted is out. */
  lemma WriterCanFinish(states: seq<State>, steps: seq<Step>, i: nat) returns (more: seq<Step>, t: State)
    requires Run(states, steps) && i < |states|
    ensures Leads(states[i], more, t) && t.writer.Finished? && t.given == states[i].given
    ensures t.accepted == states[i].accepted && multiset(t.given) == multiset(Buffers(t.conn.released))
    ensures states[i].conn.socketOpen && Unharmed(states[i].writer) ==> t.wire == Flat(t.accepted)
  {
    hide Run, Good, NilWaits, Leads, Buffers, Flat, Unharmed;
    RunGood(states, steps, i);
    RunNilWaits(states, steps, i);
    more, t := WriterGoesOn(states[i]);
    FinishedIsBalanced(t);
  }
}
