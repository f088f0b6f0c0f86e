/** The meaning of a whole byte stream, free of buffers and chunks: the messages it
    holds, what is left over, and the error that ends it. */
module Streams {
  import opened Codec

  datatype Parsed = Parsed(messages: seq<Message>, rest: seq<Byte>, error: Option<ProtocolError>)

  function Parse(s: seq<Byte>): (p: Parsed)
    ensures |p.rest| <= |s|
    decreases |s|
  {
    match TryDecodeFrame(s)
    case NeedMoreData => Parsed([], s, None)
    case Error(e) => Parsed([], s, Some(e))
    case Decoded(m, n) =>
      var p := Parse(s[n..]);
      p.(messages := [m] + p.messages)
  }

  /** Reading on after `p`: nothing more is understood once an error was met. */
  function Resume(p: Parsed, more: seq<Byte>): (q: Parsed) {
    if p.error.Some? then p.(rest := p.rest + more)
    else
      var q := Parse(p.rest + more);
      q.(messages := p.messages + q.messages)
  }

  /** Parsing is independent of where the stream is cut. */
  lemma {:induction false} ParseAppend(s: seq<Byte>, more: seq<Byte>)
    ensures Parse(s + more) == Resume(Parse(s), more)
    decreases |s|
  {
    hide TryDecodeFrame;
    VerdictIsStable(s, more);
    match TryDecodeFrame(s)
    case NeedMoreData =>
      assert Parse(s).messages + Parse(s + more).messages == Parse(s + more).messages;
    case Error(e) =>
    case Decoded(m, n) =>
      assert (s + more)[n..] == s[n..] + more;
      ParseAppend(s[n..], more);
      var p := Parse(s[n..]);
      if p.error.None? {
        var q := Parse(p.rest + more);
        assert [m] + (p.messages + q.messages) == ([m] + p.messages) + q.messages;
      }
  }

  /** Where a parse stops: the leftover yields no further frame. */
  lemma {:induction false} ParseStops(s: seq<Byte>)
    ensures var p := Parse(s);
            match p.error
            case None => TryDecodeFrame(p.rest).NeedMoreData?
            case Some(e) => TryDecodeFrame(p.rest) == Error(e)
    decreases |s|
  {
    hide TryDecodeFrame;
    var r := TryDecodeFrame(s);
    if r.Decoded? {
      ParseStops(s[r.bytesConsumed..]);
    }
  }

  // ------------------------------------------------- streams made of pieces

  /** The pieces `f` makes of the elements of `xs`, one after the other. */
  function Concat<T, U>(f: T -> seq<U>, xs: seq<T>): (s: seq<U>) {
    if xs == [] then [] else Concat(f, xs[..|xs| - 1]) + f(xs[|xs| - 1])
  }

  lemma ConcatSnoc<T, U>(f: T -> seq<U>, xs: seq<T>, x: T)
    ensures Concat(f, xs + [x]) == Concat(f, xs) + f(x)
  {
    assert (xs + [x])[..|xs|] == xs;
  }

  lemma {:induction false} ConcatAppend<T, U>(f: T -> seq<U>, xs: seq<T>, ys: seq<T>)
    ensures Concat(f, xs + ys) == Concat(f, xs) + Concat(f, ys)
  {
    if ys == [] {
      assert xs + ys == xs;
    } else {
      var zs, y := ys[..|ys| - 1], ys[|ys| - 1];
      assert xs + ys == (xs + zs) + [y];
      ConcatAppend(f, xs, zs);
      ConcatSnoc(f, xs + zs, y);
      assert (Concat(f, xs) + Concat(f, zs)) + f(y) == Concat(f, xs) + (Concat(f, zs) + f(y));
    }
  }

  lemma ConcatOne<T, U>(f: T -> seq<U>, x: T)
    ensures Concat(f, [x]) == f(x)
  {
    assert [x][..0] == [];
  }

  lemma ConcatCons<T, U>(f: T -> seq<U>, x: T, xs: seq<T>, tail: seq<U>)
    ensures Concat(f, [x] + xs) + tail == f(x) + (Concat(f, xs) + tail)
  {
    ConcatAppend(f, [x], xs);
    ConcatOne(f, x);
  }

  /** The frame of a message; a message that cannot be encoded has none. */
  function Frame(m: Message): (s: seq<Byte>) {
    match EncodeMessage(m)
    case None => []
    case Some(f) => f
  }

  function EncodeAll(ms: seq<Message>): (s: seq<Byte>) {
    Concat(Frame, ms)
  }

  lemma Associative<T>(a: seq<T>, b: seq<T>, c: seq<T>)
    ensures (a + b) + c == a + (b + c)
  {}

  lemma SuffixOf<T>(a: seq<T>, b: seq<T>)
    ensures (a + b)[|a|..] == b
  {}

  predicate AllEncodable(ms: seq<Message>) {
    forall i :: 0 <= i < |ms| ==> Encodable(ms[i])
  }

  /** A frame at the head of a stream contributes its message. */
  lemma ParseFrame(m: Message, tail: seq<Byte>)
    requires Encodable(m)
    ensures var p := Parse(tail);
            Parse(Frame(m) + tail) == p.(messages := [m] + p.messages)
  {
    hide TryDecodeFrame, EncodeMessage;
    DecodeEncode(m, tail);
    SuffixOf(Frame(m), tail);
  }

  /** The head of a stream that decodes is the frame of the message it decodes to. */
  lemma UnparseFrame(s: seq<Byte>) returns (m: Message, tail: seq<Byte>)
    requires TryDecodeFrame(s).Decoded?
    ensures Encodable(m) && s == Frame(m) + tail && |tail| < |s|
    ensures var p := Parse(tail);
            Parse(s) == p.(messages := [m] + p.messages)
  {
    hide TryDecodeFrame, EncodeMessage;
    var r := TryDecodeFrame(s);
    EncodeDecode(s);
    m, tail := r.message, s[r.bytesConsumed..];
    assert s == s[..r.bytesConsumed] + tail;
  }

  /** The stream of frames of any encodable messages parses back to those messages,
      followed by whatever the bytes behind them mean. */
  lemma {:induction false} ParseEncodeAll(ms: seq<Message>, tail: seq<Byte>)
    requires AllEncodable(ms)
    ensures var p := Parse(tail);
            Parse(EncodeAll(ms) + tail) == p.(messages := ms + p.messages)
  {
    hide TryDecodeFrame, EncodeMessage;
    if ms == [] {
      assert EncodeAll(ms) + tail == tail;
      assert ms + Parse(tail).messages == Parse(tail).messages;
    } else {
      var m, others := ms[0], ms[1..];
      assert ms == [m] + others;
      ParseEncodeAll(others, tail);
      ParseFrame(m, EncodeAll(others) + tail);
      ConcatCons(Frame, m, others, tail);
      assert [m] + (others + Parse(tail).messages) == ms + Parse(tail).messages;
    }
  }

  /** Conversely a stream is exactly the frames of its messages followed by its leftover. */
  lemma {:induction false} EncodeAllParse(s: seq<Byte>)
    ensures EncodeAll(Parse(s).messages) + Parse(s).rest == s
    ensures AllEncodable(Parse(s).messages)
    decreases |s|
  {
    hide TryDecodeFrame, EncodeMessage;
    if TryDecodeFrame(s).Decoded? {
      var m, t := UnparseFrame(s);
      EncodeAllParse(t);
      ConcatCons(Frame, m, Parse(t).messages, Parse(t).rest);
    }
  }

  // ------------------------------------------------- which streams are rejected

  /** Some frame begins with `s`. */
  ghost predicate Begins(s: seq<Byte>) {
    exists m :: Encodable(m) && s <= Frame(m)
  }

  lemma SameSlice<T>(s: seq<T>, f: seq<T>, n: nat, i: nat, j: nat)
    requires i <= j <= n <= |s| && s[..n] <= f
    ensures s[i..j] == f[i..j]
  {}

  /** Some frame begins with the first `n` bytes of a complete header exactly if the fields
      in these bytes are those of a frame. */
  lemma FieldsOfBeginning(s: seq<Byte>, n: nat)
    requires |s| >= HEADER_SIZE && n in {4, 6, 8, 12} && Begins(s[..n])
    ensures FromBigEndian(s[0..4]) == MAGIC
    ensures n >= 6 ==> FromBigEndian(s[4..6]) == VERSION
    ensures n >= 8 ==> IsKnownMessageType(FromBigEndian(s[6..8]))
    ensures n >= 12 ==> AnnouncedPayload(s) <= MAX_PAYLOAD_SIZE
  {
    hide FromBigEndian, BigEndian, Pow256, Header;
    var m :| Encodable(m) && s[..n] <= Frame(m);
    var f := Frame(m);
    HeaderFields(m, m.payload);
    Widths();
    SameSlice(s, f, n, 0, 4);
    if n >= 6 { SameSlice(s, f, n, 4, 6); }
    if n >= 8 { SameSlice(s, f, n, 6, 8); }
    if n >= 12 { SameSlice(s, f, n, 8, 12); }
    ReadWrite(MAGIC, 4);
    ReadWrite(VERSION, 2);
    ReadWrite(m.kind, 2);
    ReadWrite(|m.payload|, 4);
  }

  lemma BeginningOfFields(s: seq<Byte>, n: nat)
    requires |s| >= HEADER_SIZE && n in {4, 6, 8, 12}
    requires FromBigEndian(s[0..4]) == MAGIC
    requires n >= 6 ==> FromBigEndian(s[4..6]) == VERSION
    requires n >= 8 ==> IsKnownMessageType(FromBigEndian(s[6..8]))
    requires n >= 12 ==> AnnouncedPayload(s) <= MAX_PAYLOAD_SIZE
    ensures Begins(s[..n])
  {
    hide FromBigEndian, BigEndian, Pow256, Header;
    Widths();
    var kind := if n >= 8 then FromBigEndian(s[6..8]) else ECHO_REQUEST;
    var m := Message(kind, 0, seq(if n >= 12 then AnnouncedPayload(s) else 0, _ => 0));
    var f := Frame(m);
    HeaderFields(m, m.payload);
    WriteRead(s[0..4]);
    WriteRead(s[4..6]);
    WriteRead(s[6..8]);
    WriteRead(s[8..12]);
    assert s[..4] == s[0..4] && s[..6] == s[0..4] + s[4..6] && s[..8] == s[..6] + s[6..8]
           && s[..12] == s[..8] + s[8..12];
    assert f[..4] == f[0..4] && f[..6] == f[0..4] + f[4..6] && f[..8] == f[..6] + f[6..8]
           && f[..12] == f[..8] + f[8..12];
    assert s[..n] == f[..n];
  }

  /** An unfinished frame whose header is not rejected can be finished. */
  lemma Completion(s: seq<Byte>)
    requires |s| >= HEADER_SIZE && TryDecodeFrame(s).NeedMoreData?
    ensures Begins(s)
  {
    hide FromBigEndian, BigEndian, Pow256, Header, EncodeMessage;
    var t := s + seq(HEADER_SIZE + AnnouncedPayload(s) - |s|, _ => 0);
    assert t[0..4] == s[0..4] && t[4..6] == s[4..6] && t[6..8] == s[6..8] && t[8..12] == s[8..12];
    EncodeDecode(t);
    var m := TryDecodeFrame(t).message;
    assert Frame(m) == t;
  }

  /** What the decoder rejects, said without its tests. A head shorter than a header is never
      judged. A complete header is rejected exactly if no frame begins with the stream and the
      stream begins with no frame; and the error names the first field at which the bytes leave
      the format. */
  lemma RejectsExactlyNonFrames(s: seq<Byte>)
    ensures |s| < HEADER_SIZE ==> TryDecodeFrame(s) == NeedMoreData
    ensures |s| >= HEADER_SIZE ==>
              var r := TryDecodeFrame(s);
              && (r.Error? <==> !Begins(s) && !exists m :: Encodable(m) && Frame(m) <= s)
              && (r == Error(InvalidMagic) <==> !Begins(s[..4]))
              && (r == Error(UnsupportedVersion) <==> Begins(s[..4]) && !Begins(s[..6]))
              && (r == Error(UnknownMessageType) <==> Begins(s[..6]) && !Begins(s[..8]))
              && (r == Error(PayloadTooLarge) <==> Begins(s[..8]) && !Begins(s[..12]))
  {
    if |s| >= HEADER_SIZE {
      BeginningIff(s);
      NoFrameIff(s);
      VerdictByField(s);
    }
  }

  lemma BeginningIff(s: seq<Byte>)
    requires |s| >= HEADER_SIZE
    ensures Begins(s[..4]) <==> FromBigEndian(s[0..4]) == MAGIC
    ensures Begins(s[..6]) <==> Begins(s[..4]) && FromBigEndian(s[4..6]) == VERSION
    ensures Begins(s[..8]) <==> Begins(s[..6]) && IsKnownMessageType(FromBigEndian(s[6..8]))
    ensures Begins(s[..12]) <==> Begins(s[..8]) && AnnouncedPayload(s) <= MAX_PAYLOAD_SIZE
  {
    hide Begins, FromBigEndian;
    forall n | n in {4, 6, 8, 12} && Begins(s[..n])
      ensures FromBigEndian(s[0..4]) == MAGIC
      ensures n >= 6 ==> FromBigEndian(s[4..6]) == VERSION
      ensures n >= 8 ==> IsKnownMessageType(FromBigEndian(s[6..8]))
      ensures n >= 12 ==> AnnouncedPayload(s) <= MAX_PAYLOAD_SIZE
    {
      FieldsOfBeginning(s, n);
    }
    if FromBigEndian(s[0..4]) == MAGIC {
      BeginningOfFields(s, 4);
      if FromBigEndian(s[4..6]) == VERSION {
        BeginningOfFields(s, 6);
        if IsKnownMessageType(FromBigEndian(s[6..8])) {
          BeginningOfFields(s, 8);
          if AnnouncedPayload(s) <= MAX_PAYLOAD_SIZE {
            BeginningOfFields(s, 12);
          }
        }
      }
    }
  }

  lemma VerdictByField(s: seq<Byte>)
    requires |s| >= HEADER_SIZE
    ensures var r := TryDecodeFrame(s);
            && (r == Error(InvalidMagic) <==> !Begins(s[..4]))
            && (r == Error(UnsupportedVersion) <==> Begins(s[..4]) && !Begins(s[..6]))
            && (r == Error(UnknownMessageType) <==> Begins(s[..6]) && !Begins(s[..8]))
            && (r == Error(PayloadTooLarge) <==> Begins(s[..8]) && !Begins(s[..12]))
  {
    hide Begins, FromBigEndian;
    BeginningIff(s);
  }

  lemma ComparableAccepted(s: seq<Byte>, m: Message)
    requires Encodable(m) && (s <= Frame(m) || Frame(m) <= s)
    ensures !TryDecodeFrame(s).Error?
  {
    hide TryDecodeFrame, EncodeMessage;
    var f := Frame(m);
    if s <= f {
      DecodeEncode(m, []);
      VerdictIsStable(s, f[|s|..]);
      assert s + f[|s|..] == f && f + [] == f;
    } else {
      DecodeEncode(m, s[|f|..]);
      assert f + s[|f|..] == s;
    }
  }

  lemma NoFrameIff(s: seq<Byte>)
    requires |s| >= HEADER_SIZE
    ensures TryDecodeFrame(s).Error? <==> !Begins(s) && !exists m :: Encodable(m) && Frame(m) <= s
  {
    hide TryDecodeFrame, EncodeMessage;
    var r := TryDecodeFrame(s);
    if r.Error? {
      forall m | Encodable(m) && (s <= Frame(m) || Frame(m) <= s)
        ensures false
      {
        ComparableAccepted(s, m);
      }
    } else if r.Decoded? {
      EncodeDecode(s);
      assert Frame(r.message) <= s;
    } else {
      Completion(s);
    }
  }

  // ------------------------------------------------------- streams of responses

  /** The bytes that answer one request. */
  function Answer(respond: Message -> Message): Message -> seq<Byte> {
    request => Frame(respond(request))
  }

  /** The bytes that answer `requests` in order. */
  function ResponseStream(respond: Message -> Message, requests: seq<Message>): (s: seq<Byte>) {
    Concat(Answer(respond), requests)
  }

  lemma ResponseStreamSnoc(respond: Message -> Message, requests: seq<Message>, request: Message)
    ensures ResponseStream(respond, requests + [request])
         == ResponseStream(respond, requests) + Frame(respond(request))
  {
    hide Frame;
    ConcatSnoc(Answer(respond), requests, request);
  }

  /** More requests only add responses at the end. */
  lemma ResponseStreamMonotone(respond: Message -> Message, some: seq<Message>, all: seq<Message>)
    requires some <= all
    ensures ResponseStream(respond, some) <= ResponseStream(respond, all)
  {
    hide Concat;
    ConcatAppend(Answer(respond), some, all[|some|..]);
    assert all == some + all[|some|..];
  }
}
