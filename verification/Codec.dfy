/** The binary frame format: big-endian fields, encoding of one message, and the
    decoding of the frame at the head of a byte sequence. */
module Codec {

  datatype Option<+T> = None | Some(value: T)

  type Byte = x: int | 0 <= x < 0x100
  type U16 = x: int | 0 <= x < 0x1_0000
  type U64 = x: int | 0 <= x < 0x1_0000_0000_0000_0000

  const MAGIC := 0x50554C53
  const VERSION := 1
  const HEADER_SIZE := 20
  const MAX_PAYLOAD_SIZE := 64 * 1024
  const SIZE_MAX := 0xFFFF_FFFF_FFFF_FFFF

  // The wire values of the message types. A message's type is kept as its raw
  // 16-bit value, because a C++ scoped enumeration can hold any of them.
  const ECHO_REQUEST := 1
  const ECHO_RESPONSE := 2
  const WORK_REQUEST := 3
  const WORK_RESPONSE := 4
  const ERROR_RESPONSE := 5

  datatype Message = Message(kind: U16, requestId: U64, payload: seq<Byte>)

  datatype ProtocolError =
    | InvalidMagic
    | UnsupportedVersion
    | UnknownMessageType
    | PayloadTooLarge
    | FrameSizeOverflow

  datatype DecodeResult =
    | NeedMoreData
    | Decoded(message: Message, bytesConsumed: nat)
    | Error(error: ProtocolError)

  predicate IsKnownMessageType(kind: int) {
    ECHO_REQUEST <= kind <= ERROR_RESPONSE
  }

  // ---------------------------------------------------------------- integers

  function Pow256(n: nat): (p: nat)
    ensures p >= 1
  {
    if n == 0 then 1 else 256 * Pow256(n - 1)
  }

  /** The low `n` bytes of `v`, most significant first. */
  function BigEndian(v: nat, n: nat): (s: seq<Byte>)
    ensures |s| == n
  {
    if n == 0 then [] else BigEndian(v / 256, n - 1) + [v % 256]
  }

  function FromBigEndian(s: seq<Byte>): (v: nat)
    ensures v < Pow256(|s|)
  {
    if s == [] then 0 else 256 * FromBigEndian(s[..|s| - 1]) + s[|s| - 1]
  }

  /** Reading what was written gives the value back, at every width. */
  lemma {:induction false} ReadWrite(v: nat, n: nat)
    requires v < Pow256(n)
    ensures FromBigEndian(BigEndian(v, n)) == v
  {
    if n != 0 {
      var init := BigEndian(v / 256, n - 1);
      assert (init + [v % 256])[..n - 1] == init;
      ReadWrite(v / 256, n - 1);
      Recompose(v / 256, v % 256);
    }
  }

  lemma Recompose(high: nat, low: Byte)
    ensures (256 * high + low) / 256 == high && (256 * high + low) % 256 == low
  {}

  /** Writing what was read gives the bytes back, at every width. */
  lemma {:induction false} WriteRead(s: seq<Byte>)
    ensures BigEndian(FromBigEndian(s), |s|) == s
  {
    if s != [] {
      var init, last := s[..|s| - 1], s[|s| - 1];
      WriteRead(init);
      Recompose(FromBigEndian(init), last);
      assert FromBigEndian(s) == 256 * FromBigEndian(init) + last;
      assert s == init + [last];
    }
  }

  lemma Widths()
    ensures Pow256(2) == 0x1_0000
    ensures Pow256(4) == 0x1_0000_0000
    ensures Pow256(8) == 0x1_0000_0000_0000_0000
  {
    assert Pow256(4) == 256 * (256 * Pow256(2));
    assert Pow256(6) == 256 * (256 * Pow256(4));
    assert Pow256(8) == 256 * (256 * Pow256(6));
  }

  // ------------------------------------------------------------------ frames

  function Header(m: Message): (h: seq<Byte>)
    ensures |h| == HEADER_SIZE
  {
    BigEndian(MAGIC, 4) + BigEndian(VERSION, 2) + BigEndian(m.kind, 2)
    + BigEndian(|m.payload|, 4) + BigEndian(m.requestId, 8)
  }

  /** The messages that have an encoding. */
  predicate Encodable(m: Message) {
    |m.payload| <= MAX_PAYLOAD_SIZE && IsKnownMessageType(m.kind)
  }

  function EncodeMessage(m: Message): (r: Option<seq<Byte>>)
    ensures r.Some? <==> Encodable(m)
    ensures r.Some? ==> |r.value| == HEADER_SIZE + |m.payload|
  {
    if |m.payload| > MAX_PAYLOAD_SIZE then None
    else if !IsKnownMessageType(m.kind) then None
    else Some(Header(m) + m.payload)
  }

  /** The payload length announced by a frame whose header is complete. */
  function AnnouncedPayload(s: seq<Byte>): nat
    requires |s| >= HEADER_SIZE
  {
    FromBigEndian(s[8..12])
  }

  function TryDecodeFrame(s: seq<Byte>): (r: DecodeResult)
    ensures r.Decoded? ==> HEADER_SIZE <= r.bytesConsumed <= |s|
  {
    if |s| < HEADER_SIZE then NeedMoreData
    else if FromBigEndian(s[0..4]) != MAGIC then Error(InvalidMagic)
    else if FromBigEndian(s[4..6]) != VERSION then Error(UnsupportedVersion)
    else
      var kind := FromBigEndian(s[6..8]);
      if !IsKnownMessageType(kind) then Error(UnknownMessageType)
      else
        var payloadSize := AnnouncedPayload(s);
        if payloadSize > MAX_PAYLOAD_SIZE then Error(PayloadTooLarge)
        else if payloadSize > SIZE_MAX - HEADER_SIZE then Error(FrameSizeOverflow)
        else
          var frameSize := HEADER_SIZE + payloadSize;
          if |s| < frameSize then NeedMoreData
          else
            Widths();
            Decoded(Message(kind, FromBigEndian(s[12..20]), s[HEADER_SIZE..frameSize]), frameSize)
  }

  lemma HeaderFields(m: Message, rest: seq<Byte>)
    ensures var s := Header(m) + rest;
            && s[0..4] == BigEndian(MAGIC, 4)
            && s[4..6] == BigEndian(VERSION, 2)
            && s[6..8] == BigEndian(m.kind, 2)
            && s[8..12] == BigEndian(|m.payload|, 4)
            && s[12..20] == BigEndian(m.requestId, 8)
            && s[20..] == rest
  {
    hide BigEndian;
    var a, b, c := BigEndian(MAGIC, 4), BigEndian(VERSION, 2), BigEndian(m.kind, 2);
    var d, e := BigEndian(|m.payload|, 4), BigEndian(m.requestId, 8);
    var s := a + b + c + d + e + rest;
    assert s == Header(m) + rest;
    assert s[0..4] == a && s[4..6] == b && s[6..8] == c && s[8..12] == d && s[12..20] == e;
  }

  /** Byte `i` of a field of `n` bytes, at every width: the most significant comes first. */
  lemma {:induction false} ByteAt(v: nat, n: nat, i: nat)
    requires i < n
    ensures BigEndian(v, n)[i] == v / Pow256(n - 1 - i) % 256
  {
    if i < n - 1 {
      ByteAt(v / 256, n - 1, i);
      DivideTwice(v, Pow256(n - 2 - i));
    }
  }

  lemma DivideTwice(v: nat, d: nat)
    requires d > 0
    ensures v / 256 / d == v / (256 * d)
  {
    var q := v / (256 * d);
    var r := v % (256 * d);
    assert v == 256 * d * q + r;
    assert v == 256 * (d * q) + r;
    assert v / 256 == d * q + r / 256;
    assert 0 <= r / 256 < d by { Smaller(r, d); }
    Quotient(d, q, r / 256);
  }

  lemma Smaller(r: nat, d: nat)
    requires r < 256 * d
    ensures r / 256 < d
  {}

  lemma Quotient(d: nat, q: nat, r: nat)
    requires r < d
    ensures (d * q + r) / d == q
  {
    var x := (d * q + r) / d;
    assert d * q + r == d * x + (d * q + r) % d;
    if x > q {
      Scaled(d, q + 1, x);
    } else if x < q {
      Scaled(d, x, q - 1);
    }
  }

  lemma Scaled(d: nat, x: nat, y: nat)
    requires x <= y
    ensures d * x <= d * y
  {}

  lemma FourBytes(v: nat)
    ensures BigEndian(v, 4) == [v / 0x100_0000 % 0x100, v / 0x1_0000 % 0x100, v / 0x100 % 0x100, v % 0x100]
  {
    var s := BigEndian(v, 4);
    ByteAt(v, 4, 0);
    ByteAt(v, 4, 1);
    ByteAt(v, 4, 2);
    ByteAt(v, 4, 3);
    assert Pow256(0) == 1 && Pow256(1) == 0x100 && Pow256(2) == 0x1_0000 && Pow256(3) == 0x100_0000;
    assert s == [s[0], s[1], s[2], s[3]];
  }

  lemma EightBytes(v: nat)
    ensures BigEndian(v, 8) ==
            [v / 0x100_0000_0000_0000 % 0x100, v / 0x1_0000_0000_0000 % 0x100, v / 0x100_0000_0000 % 0x100,
             v / 0x1_0000_0000 % 0x100, v / 0x100_0000 % 0x100, v / 0x1_0000 % 0x100, v / 0x100 % 0x100, v % 0x100]
  {
    hide BigEndian;
    var s := BigEndian(v, 8);
    forall i | 0 <= i < 8 ensures s[i] == v / Pow256(7 - i) % 256 {
      ByteAt(v, 8, i);
    }
    assert Pow256(0) == 1 && Pow256(1) == 0x100 && Pow256(2) == 0x1_0000 && Pow256(3) == 0x100_0000;
    assert Pow256(4) == 0x1_0000_0000 && Pow256(5) == 0x100_0000_0000 && Pow256(6) == 0x1_0000_0000_0000;
    assert Pow256(7) == 0x100_0000_0000_0000;
    assert s == [s[0], s[1], s[2], s[3], s[4], s[5], s[6], s[7]];
  }

  /** The wire format in plain numbers: which messages have a frame, and every byte of it. */
  lemma WireFormat(m: Message)
    ensures EncodeMessage(m).Some? <==> 1 <= m.kind <= 5 && |m.payload| <= 65536
    ensures EncodeMessage(m).Some? ==>
              var n, id := |m.payload|, m.requestId;
              EncodeMessage(m).value ==
                [0x50, 0x55, 0x4C, 0x53, 0, 1, 0, m.kind]
                + [n / 0x100_0000 % 0x100, n / 0x1_0000 % 0x100, n / 0x100 % 0x100, n % 0x100]
                + [id / 0x100_0000_0000_0000 % 0x100, id / 0x1_0000_0000_0000 % 0x100,
                   id / 0x100_0000_0000 % 0x100, id / 0x1_0000_0000 % 0x100,
                   id / 0x100_0000 % 0x100, id / 0x1_0000 % 0x100, id / 0x100 % 0x100, id % 0x100]
                + m.payload
  {
    if EncodeMessage(m).Some? {
      FourBytes(|m.payload|);
      EightBytes(m.requestId);
      FourBytes(MAGIC);
      assert BigEndian(VERSION, 2) == [0, 1] && BigEndian(m.kind, 2) == [0, m.kind] by { TwoBytes(m.kind); }
      hide BigEndian;
      var a, b := BigEndian(MAGIC, 4) + BigEndian(VERSION, 2) + BigEndian(m.kind, 2), m.payload;
      assert a == [0x50, 0x55, 0x4C, 0x53, 0, 1, 0, m.kind];
    }
  }

  lemma TwoBytes(v: nat)
    requires v < 256
    ensures BigEndian(VERSION, 2) == [0, 1] && BigEndian(v, 2) == [0, v]
  {}

  /** The golden frame: an echo request with id 0x0102030405060708 and payload 41 42. */
  lemma GoldenFrame()
    ensures var m := Message(1, 0x0102_0304_0506_0708, [0x41, 0x42]);
            var frame := [0x50, 0x55, 0x4C, 0x53, 0, 1, 0, 1] + [0, 0, 0, 2] + [1, 2, 3, 4, 5, 6, 7, 8] + [0x41, 0x42];
            EncodeMessage(m) == Some(frame) && TryDecodeFrame(frame) == Decoded(m, 22)
  {
    hide EncodeMessage, TryDecodeFrame;
    var m := Message(1, 0x0102_0304_0506_0708, [0x41, 0x42]);
    WireFormat(m);
    DecodeEncode(m, []);
    var f := EncodeMessage(m).value;
    assert f + [] == f;
    assert f == [0x50, 0x55, 0x4C, 0x53, 0, 1, 0, 1] + [0, 0, 0, 2] + [1, 2, 3, 4, 5, 6, 7, 8] + [0x41, 0x42];
  }

  /** Decoding an encoded message, whatever follows it on the stream, gives the
      message back and consumes exactly its encoding. */
  lemma DecodeEncode(m: Message, tail: seq<Byte>)
    requires Encodable(m)
    ensures var frame := EncodeMessage(m).value;
            TryDecodeFrame(frame + tail) == Decoded(m, |frame|)
  {
    hide FromBigEndian, BigEndian, Pow256, Header;
    var frame := EncodeMessage(m).value;
    var s := frame + tail;
    assert s == Header(m) + (m.payload + tail);
    HeaderFields(m, m.payload + tail);
    Widths();
    ReadWrite(MAGIC, 4);
    ReadWrite(VERSION, 2);
    ReadWrite(m.kind, 2);
    ReadWrite(|m.payload|, 4);
    ReadWrite(m.requestId, 8);
    assert s[HEADER_SIZE..|frame|] == m.payload;
  }

  /** Whenever decoding consumes some bytes, encoding the message it yields gives
      exactly those bytes: no two frames decode to the same message. */
  lemma EncodeDecode(s: seq<Byte>)
    requires TryDecodeFrame(s).Decoded?
    ensures var r := TryDecodeFrame(s);
            EncodeMessage(r.message) == Some(s[..r.bytesConsumed])
  {
    var r := TryDecodeFrame(s);
    var n := r.bytesConsumed;
    WriteRead(s[0..4]);
    WriteRead(s[4..6]);
    WriteRead(s[6..8]);
    WriteRead(s[8..12]);
    WriteRead(s[12..20]);
    assert s[..n] == s[0..4] + s[4..6] + s[6..8] + s[8..12] + s[12..20] + s[20..n];
    assert Header(r.message) == s[0..4] + s[4..6] + s[6..8] + s[8..12] + s[12..20];
  }

  /** A verdict other than "need more data" is final: more bytes do not change it.
      The size-overflow verdict never occurs, because the payload limit is tested first. */
  lemma VerdictIsStable(s: seq<Byte>, more: seq<Byte>)
    ensures !TryDecodeFrame(s).NeedMoreData? ==> TryDecodeFrame(s + more) == TryDecodeFrame(s)
    ensures TryDecodeFrame(s) != Error(FrameSizeOverflow)
  {
    if |s| >= HEADER_SIZE {
      var t := s + more;
      assert t[0..4] == s[0..4] && t[4..6] == s[4..6] && t[6..8] == s[6..8];
      assert t[8..12] == s[8..12] && t[12..20] == s[12..20];
      var n := HEADER_SIZE + AnnouncedPayload(s);
      if n <= |s| {
        assert t[HEADER_SIZE..n] == s[HEADER_SIZE..n];
      }
    }
  }

  /** A complete header decides whether the frame is rejected, whatever follows. */
  lemma HeaderDecides(s: seq<Byte>, more: seq<Byte>)
    requires |s| >= HEADER_SIZE
    ensures TryDecodeFrame(s + more).Error? <==> TryDecodeFrame(s).Error?
  {
    hide FromBigEndian;
    var t := s + more;
    assert t[0..4] == s[0..4] && t[4..6] == s[4..6] && t[6..8] == s[6..8] && t[8..12] == s[8..12];
  }

  /** A frame that more bytes complete ends in these bytes. */
  lemma CompletedLater(s: seq<Byte>, more: seq<Byte>)
    requires TryDecodeFrame(s).NeedMoreData? && TryDecodeFrame(s + more).Decoded?
    ensures TryDecodeFrame(s + more).bytesConsumed > |s|
  {
    hide FromBigEndian;
    var t := s + more;
    if |s| >= HEADER_SIZE {
      assert t[0..4] == s[0..4] && t[4..6] == s[4..6] && t[6..8] == s[6..8] && t[8..12] == s[8..12];
    }
  }
}
