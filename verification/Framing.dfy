/** The frames on a connection (jnet/tcpmsgparser.go, jnet/message.go): four bytes of body length, four of sequence
    number, one of protocol type, then the body. */
module Framing {
  import opened SlicePools

  const HEAD_LEN := 9
  const U32_LIMIT := 0x1_0000_0000

  type uint32 = n: int | 0 <= n < U32_LIMIT

  datatype Message = Message(number: uint32, protocol: byte, body: seq<byte>)

  datatype Parser = Parser(minLen: uint32, maxLen: uint32, littleEndian: bool) {
    predicate Accepts(len: int) {
      minLen <= len <= maxLen
    }
  }

  // Part 1: Numbers of four bytes.

  function PutUint32(little: bool, n: uint32): (s: seq<byte>)
    ensures |s| == 4
  {
    var a, b, c, d := n % 256, n / 256 % 256, n / 65536 % 256, n / 16777216;
    if little then [a, b, c, d] else [d, c, b, a]
  }

  function Uint32(little: bool, s: seq<byte>): (r: uint32)
    requires |s| == 4
  {
    var a: int, b: int, c: int, d: int := s[0], s[1], s[2], s[3];
    if little then a + 256 * b + 65536 * c + 16777216 * d else d + 256 * c + 65536 * b + 16777216 * a
  }

  /** Reading a number gives back what was written, and writing it the bytes that were read. */
  lemma Uint32RoundTrip(little: bool, n: uint32, s: seq<byte>)
    requires |s| == 4
    ensures Uint32(little, PutUint32(little, n)) == n
    ensures PutUint32(little, Uint32(little, s)) == s
    ensures var b: seq<int> := s;
            if little then Uint32(little, s) == b[0] + 256 * b[1] + 65536 * b[2] + 16777216 * b[3]
            else Uint32(little, s) == b[3] + 256 * b[2] + 65536 * b[1] + 16777216 * b[0]
  {
    DigitsBack(n);
    if little { Digits(s[0], s[1], s[2], s[3]); } else { Digits(s[3], s[2], s[1], s[0]); }
  }

  lemma DigitsBack(n: uint32)
    ensures n % 256 + 256 * (n / 256 % 256) + 65536 * (n / 65536 % 256) + 16777216 * (n / 16777216) == n
  {
    assert n / 65536 == n / 256 / 256;
    assert n / 16777216 == n / 65536 / 256;
  }

  lemma Digits(a: byte, b: byte, c: byte, d: byte)
    ensures var n := a + 256 * b + 65536 * c + 16777216 * d;
            n % 256 == a && n / 256 % 256 == b && n / 65536 % 256 == c && n / 16777216 == d
  {
    var n := a + 256 * b + 65536 * c + 16777216 * d;
    assert n == 256 * (b + 256 * c + 65536 * d) + a;
    assert n / 256 == b + 256 * c + 65536 * d;
    assert n == 65536 * (c + 256 * d) + (a + 256 * b);
    assert n / 65536 == c + 256 * d;
  }

  // Part 2: One frame.

  function Head(little: bool, m: Message): (s: seq<byte>)
    requires |m.body| < U32_LIMIT
    ensures |s| == HEAD_LEN
  {
    PutUint32(little, |m.body|) + PutUint32(little, m.number) + [m.protocol]
  }

  /** `WriteMsg`'s bytes. */
  function Encode(little: bool, m: Message): (s: seq<byte>)
    requires |m.body| < U32_LIMIT
    ensures |s| == HEAD_LEN + |m.body|
  {
    Head(little, m) + m.body
  }

  lemma HeadParts(little: bool, m: Message, tail: seq<byte>)
    requires |m.body| < U32_LIMIT
    ensures var s := Head(little, m) + tail;
            && |s| == HEAD_LEN + |tail| && s[..4] == PutUint32(little, |m.body|)
            && s[4..8] == PutUint32(little, m.number) && s[8] == m.protocol && s[HEAD_LEN..] == tail
  {
  }

  /** The bytes of a frame, one by one. */
  lemma FrameBytes(little: bool, m: Message)
    requires |m.body| < U32_LIMIT
    ensures var b: seq<int> := Encode(little, m);
            && b[8] == m.protocol && b[9..] == m.body
            && (little ==>
                  && |m.body| == b[0] + 256 * b[1] + 65536 * b[2] + 16777216 * b[3]
                  && m.number == b[4] + 256 * b[5] + 65536 * b[6] + 16777216 * b[7])
            && (!little ==>
                  && |m.body| == b[3] + 256 * b[2] + 65536 * b[1] + 16777216 * b[0]
                  && m.number == b[7] + 256 * b[6] + 65536 * b[5] + 16777216 * b[4])
  {
    hide PutUint32;
    Uint32RoundTrip(little, |m.body|, PutUint32(little, |m.body|));
    Uint32RoundTrip(little, m.number, PutUint32(little, m.number));
    HeadParts(little, m, m.body);
  }

  /** The result of one `ReadMsg`: a message and the bytes after it, the end of the bytes, or a refused length. */
  datatype Read = Got(m: Message, rest: seq<byte>) | Short | TooLong | TooShort

  function Decode(p: Parser, s: seq<byte>): (r: Read) {
    if |s| < HEAD_LEN then Short
    else
      var len := Uint32(p.littleEndian, s[..4]);
      if len > p.maxLen then TooLong
      else if len < p.minLen then TooShort
      else if |s| < HEAD_LEN + len then Short
      else Got(Message(Uint32(p.littleEndian, s[4..8]), s[8], s[HEAD_LEN..HEAD_LEN + len]), s[HEAD_LEN + len..])
  }

  /** What a reader makes of the bytes at its front. */
  lemma DecodedBytes(p: Parser, s: seq<byte>, b: seq<int>, len: nat)
    requires b == s && |b| >= 9
    requires p.littleEndian ==> len == b[0] + 256 * b[1] + 65536 * b[2] + 16777216 * b[3]
    requires !p.littleEndian ==> len == b[3] + 256 * b[2] + 65536 * b[1] + 16777216 * b[0]
    ensures var read := Decode(p, s);
            && (read == TooLong <==> len > p.maxLen)
            && (read == TooShort <==> len <= p.maxLen && len < p.minLen)
            && (read.Got? <==> p.minLen <= len <= p.maxLen && 9 + len <= |b|)
            && (read.Got? ==> read.m.body == b[9..9 + len] && read.rest == b[9 + len..] && read.m.protocol == b[8])
            && (read.Got? && p.littleEndian ==>
                  read.m.number == b[4] + 256 * b[5] + 65536 * b[6] + 16777216 * b[7])
            && (read.Got? && !p.littleEndian ==>
                  read.m.number == b[7] + 256 * b[6] + 65536 * b[5] + 16777216 * b[4])
  {
  }

  /** Decoding, once the head is read. */
  lemma DecodeBody(p: Parser, head: seq<byte>, rest: seq<byte>)
    requires |head| == HEAD_LEN
    ensures var len := Uint32(p.littleEndian, head[..4]);
            Decode(p, head + rest)
            == if len > p.maxLen then TooLong else if len < p.minLen then TooShort else if |rest| < len then Short
               else Got(Message(Uint32(p.littleEndian, head[4..8]), head[8], rest[..len]), rest[len..])
  {
    hide Uint32;
    var s, len := head + rest, Uint32(p.littleEndian, head[..4]);
    assert s[..4] == head[..4] && s[4..8] == head[4..8] && s[8] == head[8];
    if |rest| >= len {
      assert s[HEAD_LEN..HEAD_LEN + len] == rest[..len] && s[HEAD_LEN + len..] == rest[len..];
    }
  }

  /** Whatever follows a frame, its reader gets the message and exactly what follows, or refuses its length. */
  lemma FrameRoundTrip(p: Parser, m: Message, tail: seq<byte>)
    requires |m.body| < U32_LIMIT
    ensures Decode(p, Encode(p.littleEndian, m) + tail)
         == if |m.body| > p.maxLen then TooLong else if |m.body| < p.minLen then TooShort else Got(m, tail)
  {
    var little := p.littleEndian;
    var s := Encode(little, m) + tail;
    assert s == Head(little, m) + (m.body + tail);
    HeadParts(little, m, m.body + tail);
    Uint32RoundTrip(little, |m.body|, s[..4]);
    Uint32RoundTrip(little, m.number, s[4..8]);
    assert s[HEAD_LEN..HEAD_LEN + |m.body|] == m.body;
    assert s[HEAD_LEN + |m.body|..] == tail;
  }

  /** Part of a frame gives no message. */
  lemma PartOfFrame(p: Parser, m: Message, part: seq<byte>)
    requires |m.body| < U32_LIMIT && part < Encode(p.littleEndian, m)
    ensures !Decode(p, part).Got?
  {
    if |part| >= HEAD_LEN {
      var little := p.littleEndian;
      HeadParts(little, m, m.body);
      assert part[..4] == Encode(little, m)[..4];
      Uint32RoundTrip(little, |m.body|, part[..4]);
    }
  }

  // Part 3: All frames of a connection.

  /** The lengths fit the head of a frame. */
  ghost predicate Framable(ms: seq<Message>) {
    forall i :: 0 <= i < |ms| ==> |ms[i].body| < U32_LIMIT
  }

  /** The bytes of several messages, one frame after the other. */
  function EncodeAll(little: bool, ms: seq<Message>): (r: seq<byte>)
    requires Framable(ms)
    decreases |ms|
  {
    if ms == [] then [] else Encode(little, ms[0]) + EncodeAll(little, ms[1..])
  }

  /** What `ReadMsg` returns, call after call, until it fails. */
  function DecodeAll(p: Parser, s: seq<byte>): (r: seq<Message>)
    decreases |s|
  {
    match Decode(p, s)
    case Got(m, rest) => [m] + DecodeAll(p, rest)
    case _ => []
  }

  /** How many of the messages come before the first whose length the reader refuses. */
  function Accepted(p: Parser, ms: seq<Message>): (k: nat)
    ensures k <= |ms| && (k < |ms| ==> |ms[k].body| < p.minLen || p.maxLen < |ms[k].body|)
    ensures forall i :: 0 <= i < k ==> p.minLen <= |ms[i].body| <= p.maxLen
    decreases |ms|
  {
    if ms == [] || !p.Accepts(|ms[0].body|) then 0 else 1 + Accepted(p, ms[1..])
  }

  /** How many of the messages have come in full within the first `n` bytes. */
  function Whole(ms: seq<Message>, n: nat): (k: nat)
    ensures k <= |ms|
    decreases |ms|
  {
    if ms == [] || n < HEAD_LEN + |ms[0].body| then 0
    else 1 + Whole(ms[1..], n - (HEAD_LEN + |ms[0].body|))
  }

  /** Those messages do fit, and one more would not. */
  lemma {:induction false} WholeMeaning(little: bool, ms: seq<Message>, n: nat)
    requires Framable(ms)
    ensures var k := Whole(ms, n);
            && |EncodeAll(little, ms[..k])| <= n
            && (k < |ms| ==> n < |EncodeAll(little, ms[..k + 1])|)
    decreases |ms|
  {
    hide Encode;
    if ms != [] {
      assert EncodeAll(little, ms[..1]) == Encode(little, ms[0]) + EncodeAll(little, []);
      if n >= HEAD_LEN + |ms[0].body| {
        WholeMeaning(little, ms[1..], n - (HEAD_LEN + |ms[0].body|));
        var k := Whole(ms, n);
        assert ms[..k][1..] == ms[1..][..k - 1];
        if k < |ms| { assert ms[..k + 1][1..] == ms[1..][..k]; }
      }
    }
  }

  function Min(a: nat, b: nat): (m: nat)
    ensures m <= a && m <= b && (m == a || m == b)
  {
    if a < b then a else b
  }

  /** Reading any front part of the bytes of some messages gives exactly those that are complete in it, in order and
      unchanged, up to the first one whose length the reader refuses. */
  lemma {:induction false} PrefixDecodes(p: Parser, ms: seq<Message>, s: seq<byte>)
    requires Framable(ms) && s <= EncodeAll(p.littleEndian, ms)
    ensures DecodeAll(p, s) == ms[..Min(Accepted(p, ms), Whole(ms, |s|))]
    decreases |ms|
  {
    hide Encode, Decode;
    if ms == [] {
      NothingDecodes(p);
    } else {
      var frame, rest := Encode(p.littleEndian, ms[0]), EncodeAll(p.littleEndian, ms[1..]);
      SplitPrefix(frame, rest, s);
      if |s| < |frame| {
        PartOfFrame(p, ms[0], s);
      } else {
        var tail := s[|frame|..];
        FrameRoundTrip(p, ms[0], tail);
        if p.Accepts(|ms[0].body|) {
          PrefixDecodes(p, ms[1..], tail);
          var k := Min(Accepted(p, ms[1..]), Whole(ms[1..], |tail|));
          assert ms[..k + 1] == [ms[0]] + ms[1..][..k];
        }
      }
    }
  }

  lemma NothingDecodes(p: Parser)
    ensures Decode(p, []) == Short
  {
  }

  lemma SplitPrefix(front: seq<byte>, rest: seq<byte>, s: seq<byte>)
    requires s <= front + rest
    ensures if |s| < |front| then s < front else s[|front|..] <= rest && s == front + s[|front|..]
  {
    if |s| >= |front| {
      assert s[..|front|] == (front + rest)[..|front|] == front;
    }
  }

  /** All bytes give all messages up to the first one that is refused. */
  lemma AllDecode(p: Parser, ms: seq<Message>)
    requires Framable(ms)
    ensures DecodeAll(p, EncodeAll(p.littleEndian, ms)) == ms[..Accepted(p, ms)]
  {
    PrefixDecodes(p, ms, EncodeAll(p.littleEndian, ms));
    AllWhole(p.littleEndian, ms);
  }

  lemma {:induction false} AllWhole(little: bool, ms: seq<Message>)
    requires Framable(ms)
    ensures Whole(ms, |EncodeAll(little, ms)|) == |ms|
    decreases |ms|
  {
    if ms != [] { AllWhole(little, ms[1..]); }
  }
}
