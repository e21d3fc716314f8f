/** The connection and the message parser as objects (jnet/tcpconn.go, jnet/tcpmsgparser.go). Module ConnMachine
    interleaves their steps. */
module TcpConns {
  import opened Collections
  import opened ConnSpec
  import opened SlicePools
  import opened Framing

  /** What the peer has sent and nobody has read; a read that asks for more fails and gets the rest. */
  class Socket {
    var input: seq<byte>

    constructor (input: seq<byte>)
      ensures this.input == input
    {
      this.input := input;
    }

    method ReadFull(n: nat) returns (bytes: seq<byte>, ok: bool)
      modifies this
      ensures ok == (n <= |old(input)|) && old(input) == bytes + input
      ensures if ok then |bytes| == n else input == []
    {
      ok := n <= |input|;
      if ok {
        bytes, input := input[..n], input[n..];
      } else {
        bytes, input := input, [];
      }
    }
  }

  class TcpConn {
    var writeChan: seq<Option<Slice>>
    var isClosed: bool
    var socketOpen: bool
    ghost var closes: nat
    ghost var sentAfterClose: nat
    /** The slices handed back to the pool, in order. */
    var released: seq<Option<Slice>>

    ghost function View(): (r: Conn<Slice>)
      reads this
    {
      Conn(writeChan, closes, sentAfterClose, isClosed, socketOpen, released)
    }

    constructor ()
      ensures View() == New()
    {
      writeChan, isClosed, socketOpen, closes, sentAfterClose, released := [], false, true, 0, 0, [];
    }

    method ReleaseByteSlice(b: Option<Slice>)
      modifies this
      ensures View() == Released(old(View()), b)
    {
      released := released + [b];
    }

    method DoDestroy()
      modifies this
      ensures View() == Destroyed(old(View()))
    {
      socketOpen := false;
      if !isClosed {
        closes := closes + 1;
        isClosed := true;
      }
    }

    method DoWrite(b: Option<Slice>) returns (ok: bool)
      modifies this
      ensures View() == Sent(old(View()), b) && ok == (|old(writeChan)| != WRITE_CHANNEL)
    {
      if |writeChan| == WRITE_CHANNEL {
        ReleaseByteSlice(b);
        DoDestroy();
        return false;
      }
      if closes > 0 {
        sentAfterClose := sentAfterClose + 1;
      }
      writeChan := writeChan + [b];
      return true;
    }

    method Write(b: Option<Slice>) returns (ok: bool)
      requires |writeChan| <= WRITE_CHANNEL
      modifies this
      ensures View() == Written(old(View()), b) && ok == Takes(old(View()), b)
      ensures ok <==> !old(isClosed) && b.Some? && |old(writeChan)| < 1024
      ensures ok ==> writeChan == old(writeChan) + [b] && released == old(released)
      ensures !ok ==> writeChan == old(writeChan) && released == old(released) + [b]
      ensures !ok && !old(isClosed) && b.Some? ==> !socketOpen && isClosed && closes == old(closes) + 1
      ensures ok || old(isClosed) || b.None? ==>
                socketOpen == old(socketOpen) && isClosed == old(isClosed) && closes == old(closes)
    {
      if isClosed || b == None {
        ReleaseByteSlice(b);
        return false;
      }
      ok := DoWrite(b);
    }

    method Destroy()
      modifies this
      ensures View() == Destroyed(old(View()))
      ensures !socketOpen && isClosed && writeChan == old(writeChan) && released == old(released)
      ensures closes == if old(isClosed) then old(closes) else old(closes) + 1
    {
      DoDestroy();
    }

    method Close()
      requires |writeChan| <= WRITE_CHANNEL
      modifies this
      ensures View() == Closed(old(View())) && isClosed
      ensures old(isClosed) ==> View() == old(View())
      ensures !old(isClosed) && |old(writeChan)| < 1024 ==>
                && writeChan == old(writeChan) + [None] && released == old(released)
                && socketOpen == old(socketOpen) && closes == old(closes)
      ensures !old(isClosed) && |old(writeChan)| == 1024 ==>
                && writeChan == old(writeChan) && released == old(released) + [None]
                && !socketOpen && closes == old(closes) + 1
    {
      if isClosed {
        return;
      }
      var _ := DoWrite(None);
      isClosed := true;
    }

    method FreeChannel()
      modifies this`writeChan, this`released
      ensures writeChan == [] && released == old(released) + Somes(Buffers(old(writeChan)))
    {
      hide Buffers, Somes;
      ghost var was, freed := writeChan, [];
      NothingFreed(was);
      while |writeChan| > 0
        invariant released == old(released) + Somes(freed) && freed + Buffers(writeChan) == Buffers(was)
      {
        var b := writeChan[0];
        BuffersOfRest(writeChan);
        assert [] + Buffers(writeChan[1..]) == Buffers(writeChan[1..]);
        if b.Some? {
          OneMoreFreed(old(released), freed, b.value);
          assert freed + ([b.value] + Buffers(writeChan[1..])) == freed + [b.value] + Buffers(writeChan[1..]);
          released := released + [b];
          freed := freed + [b.value];
        }
        writeChan := writeChan[1..];
      }
      assert writeChan == [];
      NoBuffers<Slice>();
      assert freed + [] == freed;
    }

    lemma NothingFreed(was: seq<Option<Slice>>)
      ensures Somes<Slice>([]) == [] && released == released + Somes<Slice>([])
      ensures [] + Buffers(was) == Buffers(was)
    {
    }

    lemma OneMoreFreed(released: seq<Option<Slice>>, freed: seq<Slice>, b: Slice)
      ensures released + Somes(freed) + [Some(b)] == released + Somes(freed + [b])
    {
      SomesOf(freed, [b]);
    }

    /** The end of the writer. */
    method Leave()
      modifies this
      ensures View() == Freed(old(View())) && !socketOpen && isClosed && writeChan == []
    {
      socketOpen := false;
      FreeChannel();
      isClosed := true;
    }
  }

  datatype WriteError = MessageTooLong | MessageTooShort

  class MsgParser {
    const limits: Parser
    const pool: SlicePoolList

    constructor (limits: Parser, pool: SlicePoolList)
      ensures this.limits == limits && this.pool == pool
    {
      this.limits, this.pool := limits, pool;
    }

    /** `binary.PutUint32` at a position of a buffer. */
    method PutUint32At(data: array<byte>, at: nat, n: uint32)
      requires at + 4 <= data.Length
      modifies data
      ensures data[..] == old(data[..at]) + PutUint32(limits.littleEndian, n) + old(data[at + 4..])
    {
      var s := PutUint32(limits.littleEndian, n);
      data[at], data[at + 1], data[at + 2], data[at + 3] := s[0], s[1], s[2], s[3];
    }

    method Copy(data: array<byte>, at: nat, body: seq<byte>)
      requires at + |body| <= data.Length
      modifies data
      ensures data[..] == old(data[..at]) + body + old(data[at + |body|..])
    {
      var i := 0;
      while i < |body|
        invariant 0 <= i <= |body|
        invariant data[..] == old(data[..at]) + body[..i] + old(data[at + i..])
      {
        data[at + i] := body[i];
        i := i + 1;
      }
      assert body[..i] == body;
    }

    /** Head and body of a message, at the front of a buffer. */
    method Fill(data: array<byte>, m: Message)
      requires |m.body| + HEAD_LEN <= data.Length && |m.body| + HEAD_LEN < U32_LIMIT
      modifies data
      ensures data[..|m.body| + HEAD_LEN] == Encode(limits.littleEndian, m)
    {
      hide PutUint32;
      PutUint32At(data, 0, |m.body|);
      PutUint32At(data, 4, m.number);
      assert data[..8] == PutUint32(limits.littleEndian, |m.body|) + PutUint32(limits.littleEndian, m.number);
      data[8] := m.protocol;
      assert data[..HEAD_LEN] == Head(limits.littleEndian, m);
      Copy(data, HEAD_LEN, m.body);
    }

    /** A message within the limits goes to the connection as one frame, in a buffer that the pool does not hold; what
        the connection makes of it is not reported. The size of the frame is computed in 32 bits: exactly when it
        overflows, the slice is too short for the head, and the write of its ninth byte panics. */
    method WriteMsg(conn: TcpConn, m: Message)
      returns (err: Option<WriteError>, panics: bool, ghost data: Option<Slice>)
      requires pool.Valid() && |conn.writeChan| <= WRITE_CHANNEL && |m.body| < U32_LIMIT
      modifies conn, pool.pools, pool.Buffers()
      ensures pool.Valid() && panics == (limits.Accepts(|m.body|) && |m.body| + HEAD_LEN >= U32_LIMIT)
      ensures err == if |m.body| > limits.maxLen then Some(MessageTooLong)
                     else if |m.body| < limits.minLen then Some(MessageTooShort) else None
      ensures err.Some? || panics ==> conn.View() == old(conn.View()) && data == None
      ensures err.None? && !panics ==>
                && data.Some? && data.value.Slice? && data.value.Ok() && data.value.buf !in pool.Buffers()
                && data.value.Bytes() == Encode(limits.littleEndian, m)
                && conn.View() == Written(old(conn.View()), data)
      ensures err.None? && !panics ==>
                var b: seq<int> := data.value.Bytes();
                && |b| == 9 + |m.body| && b[8] == m.protocol && b[9..] == m.body
                && (limits.littleEndian ==>
                      && |m.body| == b[0] + 256 * b[1] + 65536 * b[2] + 16777216 * b[3]
                      && m.number == b[4] + 256 * b[5] + 65536 * b[6] + 16777216 * b[7])
                && (!limits.littleEndian ==>
                      && |m.body| == b[3] + 256 * b[2] + 65536 * b[1] + 16777216 * b[0]
                      && m.number == b[7] + 256 * b[6] + 65536 * b[5] + 16777216 * b[4])
    {
      hide Encode, Written, Takes, pool.Valid, pool.Buffers, pool.Keeps, pool.Largest;
      data, panics := None, false;
      if |m.body| > limits.maxLen {
        return Some(MessageTooLong), false, None;
      } else if |m.body| < limits.minLen {
        return Some(MessageTooShort), false, None;
      }
      var slice := pool.MakeByteSlice((|m.body| + HEAD_LEN) % U32_LIMIT);
      if slice.len < HEAD_LEN {
        return None, true, None;
      }
      Fill(slice.buf, m);
      FrameBytes(limits.littleEndian, m);
      var _ := conn.Write(Some(slice));
      return None, false, Some(slice);
    }

    /** The body of a message in a slice of the pool, which has it back when the socket ends too early. */
    method ReadBody(socket: Socket, len: nat) returns (body: Slice, full: bool)
      requires pool.Valid()
      modifies socket, pool.pools, pool.Buffers()
      ensures pool.Valid() && full == (len <= |old(socket.input)|)
      ensures full ==> body.Slice? && body.Ok() && body.buf !in pool.Buffers()
      ensures full ==> body.Bytes() == old(socket.input)[..len] && socket.input == old(socket.input)[len..]
      ensures !full ==> body == Nil
    {
      hide pool.Valid, pool.Buffers, pool.Keeps, pool.Largest;
      var slice := pool.MakeByteSlice(len);
      var bytes;
      bytes, full := socket.ReadFull(len);
      if full {
        assert old(socket.input)[..len] == bytes && old(socket.input)[len..] == socket.input;
        Copy(slice.buf, 0, bytes);
        assert slice.buf[..len] == bytes;
        return slice, full;
      }
      var _, _ := pool.ReleaseByteSlice(slice);
      body := Nil;
    }

    /** What a reader with these limits finds in bytes whose head announces a body of that length. */
    predicate ReadAs(read: Read, b: seq<int>, len: int) {
      && |b| >= 9
      && (read == TooLong <==> len > limits.maxLen)
      && (read == TooShort <==> len <= limits.maxLen && len < limits.minLen)
      && (read.Got? <==> limits.minLen <= len <= limits.maxLen && 9 + len <= |b|)
      && (read.Got? ==> read.m.body == b[9..9 + len] && read.rest == b[9 + len..] && read.m.protocol == b[8])
    }

    lemma ReadMeaning(s: seq<byte>)
      ensures |s| >= 9 && limits.littleEndian ==>
                var b: seq<int> := s;
                && ReadAs(Decode(limits, s), b, b[0] + 256 * b[1] + 65536 * b[2] + 16777216 * b[3])
                && (Decode(limits, s).Got? ==>
                      Decode(limits, s).m.number == b[4] + 256 * b[5] + 65536 * b[6] + 16777216 * b[7])
      ensures |s| >= 9 && !limits.littleEndian ==>
                var b: seq<int> := s;
                && ReadAs(Decode(limits, s), b, b[3] + 256 * b[2] + 65536 * b[1] + 16777216 * b[0])
                && (Decode(limits, s).Got? ==>
                      Decode(limits, s).m.number == b[7] + 256 * b[6] + 65536 * b[5] + 16777216 * b[4])
    {
      if |s| >= 9 {
        var b: seq<int> := s;
        var little, big := b[0] + 256 * b[1] + 65536 * b[2] + 16777216 * b[3],
                           b[3] + 256 * b[2] + 65536 * b[1] + 16777216 * b[0];
        DecodedBytes(limits, s, b, if limits.littleEndian then little else big);
      }
    }

    /** Reads one message off the socket, into a slice of the pool, or finds out why there is none; then the pool has
        its slice back. */
    method ReadMsg(socket: Socket) returns (read: Read, body: Slice)
      requires pool.Valid()
      modifies socket, pool.pools, pool.Buffers()
      ensures pool.Valid() && read == Decode(limits, old(socket.input))
      ensures read.Got? ==> socket.input == read.rest && body.Slice? && body.Ok() && body.Bytes() == read.m.body
      ensures read.Got? ==> body.buf !in pool.Buffers()
      ensures !read.Got? ==> body == Nil
      ensures |old(socket.input)| < 9 ==> read == Short
      ensures |old(socket.input)| >= 9 && limits.littleEndian ==>
                var b: seq<int> := old(socket.input);
                && ReadAs(read, b, b[0] + 256 * b[1] + 65536 * b[2] + 16777216 * b[3])
                && (read.Got? ==> read.m.number == b[4] + 256 * b[5] + 65536 * b[6] + 16777216 * b[7])
      ensures |old(socket.input)| >= 9 && !limits.littleEndian ==>
                var b: seq<int> := old(socket.input);
                && ReadAs(read, b, b[3] + 256 * b[2] + 65536 * b[1] + 16777216 * b[0])
                && (read.Got? ==> read.m.number == b[7] + 256 * b[6] + 65536 * b[5] + 16777216 * b[4])
    {
      ReadMeaning(old(socket.input));
      hide Uint32, pool.Valid, pool.Buffers;
      var head, ok := socket.ReadFull(HEAD_LEN);
      if !ok {
        return Short, Nil;
      }
      ghost var rest := socket.input;
      DecodeBody(limits, head, rest);
      hide Decode;
      var len := Uint32(limits.littleEndian, head[..4]);
      if len > limits.maxLen {
        return TooLong, Nil;
      } else if len < limits.minLen {
        return TooShort, Nil;
      }
      var full;
      body, full := ReadBody(socket, len);
      if !full {
        return Short, Nil;
      }
      read := Got(Message(Uint32(limits.littleEndian, head[4..8]), head[8], body.buf[..len]), socket.input);
    }
  }
}
