/** All interleavings of senders, closers and the writer of one connection (jnet/tcpconn.go), at the grain of the
    connection's lock. */
module ConnMachine {
  import opened Collections
  import opened ConnSpec
  import opened SlicePools
  import opened Framing

  /** A buffer given to `Write`, known by the order in which buffers were given. */
  datatype Buf = Buf(id: nat, bytes: seq<byte>)

  /** Why the writer left its loop: a nil buffer, a failed write, or the end of a closed channel. */
  datatype Reason = NilBuffer | WriteError | EndOfChannel

  datatype Writer =
    | Waiting
    | Holding(buf: Buf)
    | Letting(buf: Buf, failed: bool)
    | Leaving(why: Reason)
    | Finished(why: Reason)

  /** `given` are the buffers passed to `Write`, `accepted` those that it queued, `sent` those that the writer wrote
      in full; `wire` are all bytes that went out. `nilGiven` counts the nil buffers passed to `Write`, `fullCloses`
      the calls of `Close` that found the queue full. */
  datatype State = State(
    conn: Conn<Buf>, writer: Writer, given: seq<Buf>, accepted: seq<Buf>, sent: seq<Buf>, wire: seq<byte>,
    nilGiven: nat, fullCloses: nat)

  /** `Write`, `Close`, `Destroy` run under the lock. `Take`: the writer receives from the channel, `Put`: the socket
      takes the first `n` bytes, `Let`: the writer releases the buffer, `End`: the writer finds the channel closed
      and empty, `Leave`: it closes the socket and frees the channel under the lock. */
  datatype Step =
    | Write(bytes: Option<seq<byte>>)
    | Close
    | Destroy
    | Take
    | Put(n: nat, failed: bool)
    | Let
    | End
    | Leave

  function Init(): (r: State) {
    State(New(), Waiting, [], [], [], [], 0, 0)
  }

  /** A write to a closed socket fails; a write that does not fail takes all bytes. */
  predicate Enabled(s: State, step: Step) {
    match step
    case Take => s.writer.Waiting? && s.conn.chan != []
    case Put(n, failed) =>
      && s.writer.Holding? && n <= |s.writer.buf.bytes|
      && (!s.conn.socketOpen ==> failed) && (!failed ==> n == |s.writer.buf.bytes|)
    case Let => s.writer.Letting?
    case End => s.writer.Waiting? && s.conn.chan == [] && s.conn.closes > 0
    case Leave => s.writer.Leaving?
    case _ => true
  }

  function Apply(s: State, step: Step): (r: State)
    requires Enabled(s, step)
  {
    match step
    case Write(None) => s.(conn := Written(s.conn, None), nilGiven := s.nilGiven + 1)
    case Write(Some(bytes)) =>
      var b := Buf(|s.given|, bytes);
      s.(conn := Written(s.conn, Some(b)), given := s.given + [b],
         accepted := if Takes(s.conn, Some(b)) then s.accepted + [b] else s.accepted)
    case Close =>
      s.(conn := Closed(s.conn),
         fullCloses := if !s.conn.isClosed && |s.conn.chan| == WRITE_CHANNEL then s.fullCloses + 1 else s.fullCloses)
    case Destroy => s.(conn := Destroyed(s.conn))
    case Take =>
      var c := s.conn.(chan := s.conn.chan[1..]);
      s.(conn := c, writer := if s.conn.chan[0].None? then Leaving(NilBuffer) else Holding(s.conn.chan[0].value))
    case Put(n, failed) =>
      s.(wire := s.wire + s.writer.buf.bytes[..n], writer := Letting(s.writer.buf, failed),
         sent := if failed then s.sent else s.sent + [s.writer.buf])
    case Let =>
      s.(conn := Released(s.conn, Some(s.writer.buf)),
         writer := if s.writer.failed then Leaving(WriteError) else Waiting)
    case End => s.(writer := Leaving(EndOfChannel))
    case Leave => s.(conn := Freed(s.conn), writer := Finished(s.writer.why))
  }

  // Part 1: The channel.

  /** The channel is closed at most once and never sent to afterwards, no sender finds it full, and a nil buffer is
      the last thing in it. */
  ghost predicate ChannelOk(s: State) {
    var c := s.conn;
    && c.closes <= 1 && c.sentAfterClose == 0 && (c.closes > 0 ==> c.isClosed) && |c.chan| <= WRITE_CHANNEL
    && (forall i :: 0 <= i < |c.chan| && c.chan[i].None? ==> i == |c.chan| - 1 && c.isClosed)
    && (s.writer.Finished? ==> c.isClosed && c.chan == [])
  }

  lemma ChannelKept(s: State, step: Step)
    requires ChannelOk(s) && Enabled(s, step)
    ensures ChannelOk(Apply(s, step))
  {
    hide Buffers, Somes;
  }

  // Part 2: The buffers.

  function Hand(w: Writer): (r: seq<Buf>) {
    if w.Holding? || w.Letting? then [w.buf] else []
  }

  /** Every buffer given to `Write` is in the queue, in the writer's hand, or released, and in one of them only. */
  ghost predicate Conserved(s: State) {
    && Balanced(s.given, Buffers(s.conn.released), Hand(s.writer), Buffers(s.conn.chan))
    && |s.conn.released| - |Buffers(s.conn.released)| == s.nilGiven + s.fullCloses
    && Numbered(s.given)
  }

  ghost predicate Balanced(given: seq<Buf>, released: seq<Buf>, hand: seq<Buf>, queued: seq<Buf>) {
    multiset(given) == multiset(released) + multiset(hand) + multiset(queued)
  }

  ghost predicate Numbered(given: seq<Buf>) {
    forall i :: 0 <= i < |given| ==> given[i].id == i
  }

  lemma BuffersOfOne(chan: seq<Option<Buf>>, b: Option<Buf>)
    ensures Buffers(chan + [b]) == Buffers(chan) + if b.Some? then [b.value] else []
  {
    assert (chan + [b])[..|chan|] == chan;
  }

  lemma OneMoreGiven(given: seq<Buf>, released: seq<Buf>, hand: seq<Buf>, queued: seq<Buf>, b: Buf)
    requires Balanced(given, released, hand, queued) && Numbered(given) && b.id == |given|
    ensures Balanced(given + [b], released + [b], hand, queued) && Balanced(given + [b], released, hand, queued + [b])
    ensures Numbered(given + [b])
  {
  }

  lemma WriteConserves(s: State, bytes: seq<byte>)
    requires Conserved(s)
    ensures Conserved(Apply(s, Write(Some(bytes))))
  {
    hide Buffers, Somes, Balanced, Numbered;
    var b := Buf(|s.given|, bytes);
    BuffersOfOne(s.conn.released, Some(b));
    BuffersOfOne(s.conn.chan, Some(b));
    OneMoreGiven(s.given, Buffers(s.conn.released), Hand(s.writer), Buffers(s.conn.chan), b);
  }

  lemma NilConserves(s: State, step: Step)
    requires Conserved(s) && (step == Write(None) || step.Close? || step.Destroy?)
    ensures Conserved(Apply(s, step))
  {
    hide Buffers, Somes, Balanced, Numbered;
    BuffersOfOne(s.conn.released, None);
    BuffersOfOne(s.conn.chan, None);
    assert Buffers(s.conn.released) + [] == Buffers(s.conn.released);
    assert Buffers(s.conn.chan) + [] == Buffers(s.conn.chan);
  }

  lemma TakeConserves(s: State)
    requires Conserved(s) && Enabled(s, Take)
    ensures Conserved(Apply(s, Take))
  {
    hide Buffers, Somes;
    BuffersOfRest(s.conn.chan);
  }

  lemma LetConserves(s: State)
    requires Conserved(s) && Enabled(s, Let)
    ensures Conserved(Apply(s, Let))
  {
    hide Buffers, Somes;
    BuffersOfOne(s.conn.released, Some(s.writer.buf));
  }

  lemma LeaveConserves(s: State)
    requires Conserved(s) && Enabled(s, Leave)
    ensures Conserved(Apply(s, Leave))
  {
    hide Buffers, Somes;
    var left := Buffers(s.conn.chan);
    BuffersOf(s.conn.released, Somes(left));
    BuffersOfSomes(left);
    NoBuffers<Buf>();
  }

  lemma StepConserves(s: State, step: Step)
    requires Conserved(s) && Enabled(s, step)
    ensures Conserved(Apply(s, step))
  {
    hide Buffers, Somes;
    match step
    case Take => TakeConserves(s);
    case Let => LetConserves(s);
    case Leave => LeaveConserves(s);
    case Write(Some(bytes)) => WriteConserves(s, bytes);
    case Write(None) => NilConserves(s, step);
    case Close => NilConserves(s, step);
    case Destroy => NilConserves(s, step);
    case _ =>
  }

  // Part 3: The bytes.

  /** The bytes of several buffers, one after the other. */
  function Flat(bs: seq<Buf>): (r: seq<byte>) {
    if bs == [] then [] else Flat(bs[..|bs| - 1]) + bs[|bs| - 1].bytes
  }

  lemma {:induction false} FlatOf(front: seq<Buf>, tail: seq<Buf>)
    ensures Flat(front + tail) == Flat(front) + Flat(tail)
    decreases |tail|
  {
    if tail == [] {
      assert front + tail == front;
    } else {
      FlatOf(front, tail[..|tail| - 1]);
      assert (front + tail)[|front + tail| - 1] == tail[|tail| - 1];
      assert (front + tail)[..|front + tail| - 1] == front + tail[..|tail| - 1];
    }
  }

  lemma NoBytes()
    ensures Flat([]) == []
  {
  }

  lemma FlatOfOne(front: seq<Buf>, b: Buf)
    ensures Flat(front + [b]) == Flat(front) + b.bytes
  {
    assert (front + [b])[..|front|] == front;
  }

  lemma FlatGrows(bs: seq<Buf>, more: seq<Buf>)
    requires bs <= more
    ensures Flat(bs) <= Flat(more)
  {
    assert more == bs + more[|bs|..];
    FlatOf(bs, more[|bs|..]);
  }

  /** What is out is a front part of the accepted buffers; as long as no write failed it is exactly the buffers that
      are sent, and what is accepted and not sent is still in hand or queued. */
  ghost predicate WireOk(s: State) {
    match s.writer
    case Waiting => s.accepted == s.sent + Buffers(s.conn.chan) && s.wire == Flat(s.sent)
    case Holding(b) => s.accepted == s.sent + [b] + Buffers(s.conn.chan) && s.wire == Flat(s.sent)
    case Letting(b, false) => s.accepted == s.sent + Buffers(s.conn.chan) && s.wire == Flat(s.sent)
    case Letting(_, true) => s.wire <= Flat(s.accepted)
    case Leaving(why) => LeftOk(s, why)
    case Finished(why) => LeftOk(s, why)
  }

  ghost predicate LeftOk(s: State, why: Reason) {
    if why.WriteError? then s.wire <= Flat(s.accepted)
    else s.conn.isClosed && s.conn.chan == [] && s.wire == Flat(s.accepted)
  }

  lemma SendKeepsWire(s: State, step: Step)
    requires WireOk(s) && ChannelOk(s) && Enabled(s, step) && (step.Write? || step.Close? || step.Destroy?)
    ensures WireOk(Apply(s, step))
  {
    hide Buffers, Somes, Flat;
    var b := if step.Write? && step.bytes.Some? then Some(Buf(|s.given|, step.bytes.value)) else None;
    BuffersOfOne(s.conn.chan, b);
    if b.Some? {
      FlatGrows(s.accepted, s.accepted + [b.value]);
      assert s.wire <= Flat(s.accepted) ==> s.wire <= Flat(s.accepted + [b.value]);
      var queued, hand := Buffers(s.conn.chan), Hand(s.writer);
      assert s.sent + queued + [b.value] == s.sent + (queued + [b.value]);
      assert s.sent + hand + queued + [b.value] == s.sent + hand + (queued + [b.value]);
    } else {
      assert Buffers(s.conn.chan) + [] == Buffers(s.conn.chan);
    }
  }

  lemma TakeKeepsWire(s: State)
    requires WireOk(s) && ChannelOk(s) && Enabled(s, Take)
    ensures WireOk(Apply(s, Take))
  {
    hide Buffers, Somes, Flat;
    BuffersOfRest(s.conn.chan);
    NoBuffers<Buf>();
    if s.conn.chan[0].None? {
      assert s.conn.chan[1..] == [];
      assert s.accepted == s.sent;
    } else {
      var b, rest := s.conn.chan[0].value, Buffers(s.conn.chan[1..]);
      assert s.sent + ([b] + rest) == s.sent + [b] + rest;
    }
  }

  lemma PutKeepsWire(s: State, n: nat, failed: bool)
    requires WireOk(s) && Enabled(s, Put(n, failed))
    ensures WireOk(Apply(s, Put(n, failed)))
  {
    hide Buffers, Somes, Flat;
    var b := s.writer.buf;
    FlatOfOne(s.sent, b);
    FlatGrows(s.sent + [b], s.accepted);
    assert !failed ==> b.bytes[..n] == b.bytes;
    assert s.wire + b.bytes[..n] <= Flat(s.sent + [b]);
  }

  lemma EndKeepsWire(s: State)
    requires WireOk(s) && ChannelOk(s) && Enabled(s, End)
    ensures WireOk(Apply(s, End))
  {
    hide Somes, Flat;
    NoBuffers<Buf>();
    assert s.accepted == s.sent;
  }

  lemma StepKeepsWire(s: State, step: Step)
    requires WireOk(s) && ChannelOk(s) && Enabled(s, step)
    ensures WireOk(Apply(s, step))
  {
    hide Buffers, Somes, Flat;
    match step
    case Take => TakeKeepsWire(s);
    case Put(n, failed) => PutKeepsWire(s, n, failed);
    case End => EndKeepsWire(s);
    case Let =>
    case Leave =>
    case _ => SendKeepsWire(s, step);
  }

  // Part 4: Every run.

  ghost predicate Good(s: State) {
    ChannelOk(s) && Conserved(s) && WireOk(s)
  }

  ghost predicate Run(states: seq<State>, steps: seq<Step>) {
    && |states| == |steps| + 1 && states[0] == Init()
    && forall i :: 0 <= i < |steps| ==> Enabled(states[i], steps[i]) && states[i + 1] == Apply(states[i], steps[i])
  }

  lemma StepKeepsGood(s: State, step: Step)
    requires Good(s) && Enabled(s, step)
    ensures Good(Apply(s, step))
  {
    hide ChannelOk, Conserved, WireOk, Enabled, Apply;
    ChannelKept(s, step);
    StepConserves(s, step);
    StepKeepsWire(s, step);
  }

  lemma {:induction false} RunGood(states: seq<State>, steps: seq<Step>, i: nat)
    requires Run(states, steps) && i < |states|
    ensures Good(states[i])
  {
    if i > 0 {
      RunGood(states, steps, i - 1);
      hide Good, Enabled, Apply;
      assert Enabled(states[i - 1], steps[i - 1]) && states[i] == Apply(states[i - 1], steps[i - 1]);
      StepKeepsGood(states[i - 1], steps[i - 1]);
    }
  }

  /** Conservation: once the writer has finished, the buffers given to `Write` are exactly the buffers released, each
      of them once; nil buffers are released only for nil writes and for closes that found the queue full. */
  lemma ReleasedExactlyOnce(states: seq<State>, steps: seq<Step>, i: nat)
    requires Run(states, steps) && i < |states| && states[i].writer.Finished?
    ensures var s := states[i];
            && multiset(Buffers(s.conn.released)) == multiset(s.given)
            && (forall b :: b in s.given ==> multiset(Buffers(s.conn.released))[b] == 1)
            && |s.conn.released| - |s.given| == s.nilGiven + s.fullCloses
  {
    RunGood(states, steps, i);
    var s := states[i];
    NoBuffers<Buf>();
    assert |multiset(Buffers(s.conn.released))| == |multiset(s.given)|;
    forall b | b in s.given ensures multiset(s.given)[b] == 1 {
      GivenOnce(s.given, b);
    }
  }

  lemma {:induction false} GivenOnce(bs: seq<Buf>, b: Buf)
    requires forall i :: 0 <= i < |bs| ==> bs[i].id == i
    ensures multiset(bs)[b] <= 1 && (b in bs ==> multiset(bs)[b] == 1)
  {
    if bs != [] {
      var last := |bs| - 1;
      GivenOnce(bs[..last], b);
      assert bs == bs[..last] + [bs[last]];
    }
  }

  /** In every state of every run the channel was closed at most once and never sent to afterwards, and no send had
      to wait for room. */
  lemma ChannelIsSafe(states: seq<State>, steps: seq<Step>, i: nat)
    requires Run(states, steps) && i < |states|
    ensures states[i].conn.closes <= 1 && states[i].conn.sentAfterClose == 0
    ensures |states[i].conn.chan| <= WRITE_CHANNEL
  {
    RunGood(states, steps, i);
  }

  /** The step cuts the connection: a destroy, a write or a close that finds 1024 buffers queued, or the writer's
      leaving. */
  predicate Cuts(s: State, step: Step) {
    || step.Destroy? || step.Leave?
    || (!s.conn.isClosed && |s.conn.chan| == 1024 && (step.Close? || (step.Write? && step.bytes.Some?)))
  }

  lemma CutShuts(s: State, step: Step)
    requires Enabled(s, step) && (Cuts(s, step) || !s.conn.socketOpen)
    ensures var t := Apply(s, step);
            !t.conn.socketOpen && t.sent == s.sent && (Cuts(s, step) || s.conn.isClosed ==> t.conn.isClosed)
  {
    hide Buffers, Somes;
  }

  /** A connection that was cut is closed for good: whatever is still queued, its socket stays closed, every later
      write to the socket fails, and no further buffer is sent in full. */
  lemma {:induction false} CutForGood(states: seq<State>, steps: seq<Step>, i: nat, j: nat)
    requires Run(states, steps) && i < j < |states| && Cuts(states[i], steps[i])
    ensures !states[j].conn.socketOpen && states[j].conn.isClosed && states[j].sent == states[i].sent
    ensures j < |steps| && steps[j].Put? ==> steps[j].failed
    decreases j
  {
    hide Apply, Cuts;
    assert Enabled(states[j - 1], steps[j - 1]) && states[j] == Apply(states[j - 1], steps[j - 1]);
    if i < j - 1 { CutForGood(states, steps, i, j - 1); }
    CutShuts(states[j - 1], steps[j - 1]);
    assert j < |steps| ==> Enabled(states[j], steps[j]);
  }

  /** Every accepted buffer is the frame of a message; what the reader makes of its length is open. */
  ghost predicate Framed(s: State, p: Parser, ms: seq<Message>) {
    && |ms| == |s.accepted| && Framable(ms)
    && forall i :: 0 <= i < |ms| ==> s.accepted[i].bytes == Encode(p.littleEndian, ms[i])
  }

  lemma {:induction false} FlatIsEncoded(bs: seq<Buf>, p: Parser, ms: seq<Message>)
    requires |ms| == |bs| && Framable(ms)
    requires forall i :: 0 <= i < |ms| ==> bs[i].bytes == Encode(p.littleEndian, ms[i])
    ensures Flat(bs) == EncodeAll(p.littleEndian, ms)
    decreases |bs|
  {
    hide Encode, Flat;
    NoBytes();
    if bs != [] {
      FlatIsEncoded(bs[1..], p, ms[1..]);
      FlatOf([bs[0]], bs[1..]);
      assert bs == [bs[0]] + bs[1..];
      FlatOfOne([], bs[0]);
      assert [] + [bs[0]] == [bs[0]];
    }
  }

  /** Wherever the writer stops, even within a frame, and however much of what is out has arrived, the reads of the
      peer return exactly the accepted messages that arrived in full, in order and unchanged, up to the first one
      whose length the peer refuses. */
  lemma PeerReadsPrefix(states: seq<State>, steps: seq<Step>, i: nat, arrived: seq<byte>, p: Parser, ms: seq<Message>)
    requires Run(states, steps) && i < |states| && arrived <= states[i].wire && Framed(states[i], p, ms)
    ensures DecodeAll(p, arrived) == ms[..Min(Accepted(p, ms), Whole(ms, |arrived|))]
  {
    hide Encode, DecodeAll, EncodeAll;
    RunGood(states, steps, i);
    var s := states[i];
    WireIsPrefix(s);
    FlatIsEncoded(s.accepted, p, ms);
    PrefixDecodes(p, ms, arrived);
  }

  lemma WireIsPrefix(s: State)
    requires WireOk(s)
    ensures s.wire <= Flat(s.accepted)
  {
    hide Buffers, Flat;
    if s.writer.Waiting? || s.writer.Holding? || (s.writer.Letting? && !s.writer.failed) {
      FlatGrows(s.sent, s.accepted);
    }
  }

  /** Without a failed write the writer does not leave because of one. */
  lemma {:induction false} NoWriteFailed(states: seq<State>, steps: seq<Step>, i: nat)
    requires Run(states, steps) && i < |states| && forall j :: 0 <= j < i && steps[j].Put? ==> !steps[j].failed
    ensures var w := states[i].writer;
            && (w.Letting? ==> !w.failed) && (w.Leaving? || w.Finished? ==> !w.why.WriteError?)
  {
    if i > 0 {
      hide Buffers, Somes;
      NoWriteFailed(states, steps, i - 1);
      assert Enabled(states[i - 1], steps[i - 1]) && states[i] == Apply(states[i - 1], steps[i - 1]);
    }
  }

  /** Graceful close: when the writer has finished, no write failed and everything arrived, the peer has read all
      messages that were ever accepted, as far as it does not refuse one. */
  lemma GracefulCloseDeliversAll(states: seq<State>, steps: seq<Step>, i: nat, p: Parser, ms: seq<Message>)
    requires Run(states, steps) && i < |states| && Framed(states[i], p, ms)
    requires states[i].writer.Finished? && forall j :: 0 <= j < i && steps[j].Put? ==> !steps[j].failed
    ensures DecodeAll(p, states[i].wire) == ms[..Accepted(p, ms)]
    ensures (forall j :: 0 <= j < |ms| ==> p.Accepts(|ms[j].body|)) ==> DecodeAll(p, states[i].wire) == ms
  {
    hide Encode, DecodeAll, EncodeAll, Enabled, Apply;
    NoWriteFailed(states, steps, i);
    RunGood(states, steps, i);
    FlatIsEncoded(states[i].accepted, p, ms);
    AllDecode(p, ms);
  }
}
