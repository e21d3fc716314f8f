/** A connection with its queue of buffers to be written (jnet/tcpconn.go). `B` stands for buffers; in the queue and
    among the releases, `None` is the nil buffer. */
module ConnSpec {
  import opened Collections

  const WRITE_CHANNEL := 1024

  /** `closes` counts how often the channel was closed, `sentAfterClose` how often something was sent after that. */
  datatype Conn<B> = Conn(
    chan: seq<Option<B>>, closes: nat, sentAfterClose: nat, isClosed: bool, socketOpen: bool, released: seq<Option<B>>)

  function New<B>(): (r: Conn<B>) {
    Conn([], 0, 0, false, true, [])
  }

  function Released<B>(c: Conn<B>, b: Option<B>): (r: Conn<B>) {
    c.(released := c.released + [b])
  }

  /** `doDestroy`: the socket is closed, and the channel unless the connection was closed before. */
  function Destroyed<B>(c: Conn<B>): (r: Conn<B>) {
    c.(socketOpen := false, closes := if c.isClosed then c.closes else c.closes + 1, isClosed := true)
  }

  /** `doWrite`: a full queue destroys the connection. */
  function Sent<B>(c: Conn<B>, b: Option<B>): (r: Conn<B>) {
    if |c.chan| == WRITE_CHANNEL then Destroyed(Released(c, b))
    else c.(chan := c.chan + [b], sentAfterClose := if c.closes > 0 then c.sentAfterClose + 1 else c.sentAfterClose)
  }

  /** `Write` gets through to the queue. */
  predicate Takes<B>(c: Conn<B>, b: Option<B>) {
    !c.isClosed && b.Some? && |c.chan| < WRITE_CHANNEL
  }

  function Written<B>(c: Conn<B>, b: Option<B>): (r: Conn<B>) {
    if c.isClosed || b == None then Released(c, b) else Sent(c, b)
  }

  /** `Close`: a nil buffer tells the writer to stop after all that is queued. */
  function Closed<B>(c: Conn<B>): (r: Conn<B>) {
    if c.isClosed then c else Sent(c, None).(isClosed := true)
  }

  /** The buffers among some entries, without the nils. */
  function Buffers<B>(chan: seq<Option<B>>): (bs: seq<B>)
    ensures |bs| <= |chan|
  {
    if chan == [] then []
    else Buffers(chan[..|chan| - 1]) + if chan[|chan| - 1].Some? then [chan[|chan| - 1].value] else []
  }

  /** The entries that hold a buffer. */
  function Somes<B>(bs: seq<B>): (s: seq<Option<B>>)
    ensures |s| == |bs|
  {
    seq(|bs|, i requires 0 <= i < |bs| => Some(bs[i]))
  }

  /** `freeChannel` and the end of the writer. */
  function Freed<B>(c: Conn<B>): (r: Conn<B>) {
    c.(chan := [], released := c.released + Somes(Buffers(c.chan)), isClosed := true, socketOpen := false)
  }

  lemma {:induction false} BuffersOf<B>(front: seq<Option<B>>, tail: seq<Option<B>>)
    ensures Buffers(front + tail) == Buffers(front) + Buffers(tail)
    decreases |tail|
  {
    if tail == [] {
      assert front + tail == front;
    } else {
      BuffersOf(front, tail[..|tail| - 1]);
      assert (front + tail)[..|front + tail| - 1] == front + tail[..|tail| - 1];
    }
  }

  lemma BuffersOfRest<B>(chan: seq<Option<B>>)
    requires chan != []
    ensures Buffers(chan) == (if chan[0].Some? then [chan[0].value] else []) + Buffers(chan[1..])
  {
    assert chan == [chan[0]] + chan[1..];
    BuffersOf([chan[0]], chan[1..]);
    assert [chan[0]][..0] == [];
  }

  lemma NoBuffers<B>()
    ensures Buffers<B>([]) == []
  {
  }

  lemma SomesOf<B>(front: seq<B>, tail: seq<B>)
    ensures Somes(front + tail) == Somes(front) + Somes(tail)
  {
  }

  lemma BuffersOfSomes<B>(bs: seq<B>)
    ensures Buffers(Somes(bs)) == bs
  {
    if bs != [] {
      BuffersOfSomes(bs[..|bs| - 1]);
      assert Somes(bs)[..|bs| - 1] == Somes(bs[..|bs| - 1]);
    }
  }
}
