/** The outcomes of a read are exactly those of its loop: `ReadOutcome`, which the step system
    is built on, allows every read that some sequence of `recv` results leads to, and no other. */
module Reading {
  import opened Codec
  import opened Streams
  import opened FrameDecoding
  import opened Connections

  /** What the loop of a read holds: the buffered bytes, the messages so far, the bytes read. */
  datatype Scan = Scan(buffer: seq<Byte>, messages: seq<Message>, total: nat)

  /** The loop from `x` on, when `recv` yields `chunks` and then nothing more, because the peer
      has closed or has sent nothing yet. */
  predicate Reads(maxInput: nat, budget: nat, x: Scan, chunks: seq<seq<Byte>>, closed: bool,
                  r: ReadResult, after: seq<Byte>)
    decreases |chunks|
  {
    var p := Parse(x.buffer);
    var messages := x.messages + p.messages;
    if p.error.Some? then
      chunks == [] && after == p.rest && r == ReadResult(ReadProtocolError, messages, p.error)
    else if x.total >= budget then
      chunks == [] && after == p.rest && r == ReadResult(ReadOk, messages, None)
    else if |p.rest| >= maxInput then
      chunks == [] && after == p.rest && r == ReadResult(ReadProtocolError, messages, Some(PayloadTooLarge))
    else if chunks == [] then
      var status := if closed then ReadPeerClosed
                    else if x.total > 0 || messages != [] then ReadOk
                    else ReadWouldBlock;
      after == p.rest && r == ReadResult(status, messages, None)
    else
      var chunk := chunks[0];
      && 0 < |chunk| <= CHUNK && |chunk| <= budget - x.total && |chunk| <= maxInput - |p.rest|
      && Reads(maxInput, budget, Scan(p.rest + chunk, messages, x.total + |chunk|), chunks[1..], closed, r, after)
  }

  function Whole(): seq<Byte> -> seq<Byte> {
    chunk => chunk
  }

  function Joined(chunks: seq<seq<Byte>>): seq<Byte> {
    Concat(Whole(), chunks)
  }

  lemma JoinedCons(chunk: seq<Byte>, chunks: seq<seq<Byte>>)
    ensures Joined([chunk] + chunks) == chunk + Joined(chunks)
  {
    hide Concat;
    ConcatCons(Whole(), chunk, chunks, []);
    assert Joined([chunk] + chunks) + [] == Joined([chunk] + chunks) && Joined(chunks) + [] == Joined(chunks);
  }

  // ------------------------------------------------------------------ soundness

  /** The loop, some way into a call that has received `done`. */
  ghost predicate Underway(maxInput: nat, budget: nat, before: seq<Byte>, done: seq<Byte>, x: Scan) {
    && Agrees(before + done, x.messages, x.buffer)
    && x.total == |done| <= budget && |x.buffer| <= maxInput && AllFit(x.messages, maxInput)
    && (done != [] ==> Parse(before).error.None? && ErrorIsNear(x.buffer))
  }

  /** What is known once the buffer has been drained. */
  lemma DrainedMeans(maxInput: nat, budget: nat, before: seq<Byte>, done: seq<Byte>, x: Scan)
    requires Underway(maxInput, budget, before, done, x)
    ensures var p, q := Parse(x.buffer), Parse(before + done);
            && q == Parsed(x.messages + p.messages, p.rest, p.error)
            && AllFit(q.messages, maxInput) && |q.rest| <= maxInput
            && (q.error.Some? ==> done == [] || (Parse(before).error.None? && |q.rest| < HEADER_SIZE + CHUNK))
  {
    hide Parse, AllFit;
    AgreesMeans(before + done, x.messages, x.buffer);
    DrainFits(x.messages, x.buffer, maxInput);
  }

  lemma StaysUnderway(maxInput: nat, budget: nat, before: seq<Byte>, done: seq<Byte>, x: Scan, chunk: seq<Byte>)
    requires Underway(maxInput, budget, before, done, x) && Parse(x.buffer).error.None?
    requires |chunk| <= CHUNK && |chunk| <= budget - x.total && |chunk| <= maxInput - |Parse(x.buffer).rest|
    ensures var p := Parse(x.buffer);
            Underway(maxInput, budget, before, done + chunk,
                     Scan(p.rest + chunk, x.messages + p.messages, x.total + |chunk|))
  {
    DrainedMeans(maxInput, budget, before, done, x);
    hide Parse, Agrees, AllFit, ErrorIsNear;
    var q := Parse(before + done);
    DrainedAgrees(before + done);
    AgreesAfterAppend(before + done, q.messages, q.rest, chunk);
    Associative(before, done, chunk);
    ErrorComesNear(before + done, chunk);
    NoErrorBefore(before, done);
  }

  /** A loop that stops has come to an outcome. */
  lemma StopsWithOutcome(maxInput: nat, budget: nat, before: seq<Byte>, done: seq<Byte>, x: Scan, closed: bool,
                         r: ReadResult, after: seq<Byte>)
    requires Underway(maxInput, budget, before, done, x) && Reads(maxInput, budget, x, [], closed, r, after)
    ensures ReadOutcome(maxInput, budget, before, done, r, after)
  {
    DrainedMeans(maxInput, budget, before, done, x);
    hide Parse, Agrees, AllFit, ErrorIsNear;
  }

  lemma {:induction false} ReadsSoundly(maxInput: nat, budget: nat, before: seq<Byte>, done: seq<Byte>, x: Scan,
                                        chunks: seq<seq<Byte>>, closed: bool, r: ReadResult, after: seq<Byte>)
    requires Underway(maxInput, budget, before, done, x) && Reads(maxInput, budget, x, chunks, closed, r, after)
    ensures ReadOutcome(maxInput, budget, before, done + Joined(chunks), r, after)
    decreases |chunks|
  {
    hide Parse, Underway, ReadOutcome;
    if chunks == [] {
      StopsWithOutcome(maxInput, budget, before, done, x, closed, r, after);
      assert done + Joined(chunks) == done;
    } else {
      var chunk, p := chunks[0], Parse(x.buffer);
      StaysUnderway(maxInput, budget, before, done, x, chunk);
      ReadsSoundly(maxInput, budget, before, done + chunk,
                   Scan(p.rest + chunk, x.messages + p.messages, x.total + |chunk|), chunks[1..], closed, r, after);
      JoinedCons(chunk, chunks[1..]);
      assert chunks == [chunk] + chunks[1..];
      Associative(done, chunk, Joined(chunks[1..]));
    }
  }

  // --------------------------------------------------------------- completeness

  /** While more is to come, a read that ends well has room for it. */
  lemma RoomIsLeft(limit: nat, u: seq<Byte>, tail: seq<Byte>)
    requires Parse(u).error.None? && tail != []
    requires AllFit(Parse(u + tail).messages, limit) && |Parse(u + tail).rest| <= limit
    ensures |Parse(u).rest| < limit
  {
    hide TryDecodeFrame, EncodeMessage;
    var rest := Parse(u).rest;
    ParseAppend(u, tail);
    ParseStops(u);
    var r := TryDecodeFrame(rest + tail);
    if r.Decoded? {
      CompletedLater(rest, tail);
      EncodeDecode(rest + tail);
      assert Parse(u + tail).messages[|Parse(u).messages|] == r.message;
    }
  }

  /** An error shows with the last byte of a header. */
  lemma ErrorEmerges(u: seq<Byte>, tail: seq<Byte>)
    requires tail != [] && Parse(u).error.None? && Parse(u + tail[..1]).error.Some?
    ensures |Parse(u).rest| == HEADER_SIZE - 1
    ensures Parse(u + tail).rest == Parse(u).rest + tail
  {
    hide TryDecodeFrame, Parse;
    var rest, b := Parse(u).rest, tail[..1];
    ParseAppend(u, b);
    ParseStops(u);
    OneByteDecides(rest, b);
    ErrorKeepsRest(u, tail);
    assert rest + b + tail[1..] == rest + tail;
  }

  lemma ErrorKeepsRest(u: seq<Byte>, tail: seq<Byte>)
    requires tail != [] && Parse(u + tail[..1]).error.Some?
    ensures Parse(u + tail).error.Some? && Parse(u + tail).rest == Parse(u + tail[..1]).rest + tail[1..]
  {
    hide Parse;
    ParseAppend(u + tail[..1], tail[1..]);
    assert u + tail[..1] + tail[1..] == u + tail;
  }

  lemma OneByteDecides(rest: seq<Byte>, b: seq<Byte>)
    requires TryDecodeFrame(rest).NeedMoreData? && |b| == 1 && Parse(rest + b).error.Some?
    ensures |rest| == HEADER_SIZE - 1 && Parse(rest + b).rest == rest + b
  {
    hide FromBigEndian;
    var r := TryDecodeFrame(rest + b);
    if r.Decoded? {
      CompletedLater(rest, b);
      assert (rest + b)[r.bytesConsumed..] == [];
      EmptyStream();
    } else if |rest| >= HEADER_SIZE {
      HeaderDecides(rest, b);
    }
  }

  /** An outcome with nothing more to come is where the loop stops. */
  lemma OutcomeStops(maxInput: nat, budget: nat, before: seq<Byte>, done: seq<Byte>, r: ReadResult, after: seq<Byte>,
                     x: Scan)
    requires ReadOutcome(maxInput, budget, before, done, r, after) && Underway(maxInput, budget, before, done, x)
    ensures Reads(maxInput, budget, x, [], r.status.ReadPeerClosed?, r, after)
  {
    hide Parse, Agrees, AllFit, ErrorIsNear;
    DrainedMeans(maxInput, budget, before, done, x);
  }

  /** The next chunk on the way to the outcome: one byte, or at an error all that is left. */
  lemma NextChunk(maxInput: nat, budget: nat, before: seq<Byte>, done: seq<Byte>, tail: seq<Byte>,
                  r: ReadResult, after: seq<Byte>) returns (chunk: seq<Byte>)
    requires ReadOutcome(maxInput, budget, before, done + tail, r, after) && tail != []
    requires Parse(before + done).error.None?
    ensures 0 < |chunk| <= |tail| && chunk == tail[..|chunk|] && |chunk| <= CHUNK && |done| < budget
    ensures |Parse(before + done).rest| < maxInput && |chunk| <= maxInput - |Parse(before + done).rest|
    ensures |chunk| < |tail| ==> Parse(before + (done + chunk)).error.None?
  {
    hide Parse, AllFit;
    var u, b := before + done, tail[..1];
    assert before + (done + tail) == u + tail && before + (done + b) == u + b;
    RoomIsLeft(maxInput, u, tail);
    if Parse(u + b).error.Some? {
      ErrorEmerges(u, tail);
      ErrorKeepsRest(u, tail);
      chunk := tail;
    } else {
      chunk := b;
    }
  }

  /** From any point of the way, the loop can be led to the outcome. */
  lemma {:induction false} ReadsCompletely(maxInput: nat, budget: nat, before: seq<Byte>, done: seq<Byte>,
                                           tail: seq<Byte>, x: Scan, r: ReadResult, after: seq<Byte>)
    returns (chunks: seq<seq<Byte>>, closed: bool)
    requires ReadOutcome(maxInput, budget, before, done + tail, r, after)
    requires Underway(maxInput, budget, before, done, x)
    requires tail != [] ==> Parse(before + done).error.None?
    ensures Joined(chunks) == tail && Reads(maxInput, budget, x, chunks, closed, r, after)
    decreases |tail|
  {
    hide Parse, Underway, ReadOutcome;
    if tail == [] {
      assert done + tail == done;
      OutcomeStops(maxInput, budget, before, done, r, after, x);
      chunks, closed := [], r.status.ReadPeerClosed?;
    } else {
      var chunk := NextChunk(maxInput, budget, before, done, tail, r, after);
      var rest := tail[|chunk|..];
      assert chunk + rest == tail && (done + chunk) + rest == done + tail;
      Lengths(maxInput, budget, before, done, tail, x, r, after);
      StaysUnderway(maxInput, budget, before, done, x, chunk);
      var p := Parse(x.buffer);
      var y := Scan(p.rest + chunk, x.messages + p.messages, x.total + |chunk|);
      var later;
      later, closed := ReadsCompletely(maxInput, budget, before, done + chunk, rest, y, r, after);
      JoinedCons(chunk, later);
      assert ([chunk] + later)[1..] == later;
      chunks := [chunk] + later;
    }
  }

  lemma Lengths(maxInput: nat, budget: nat, before: seq<Byte>, done: seq<Byte>, tail: seq<Byte>, x: Scan,
                r: ReadResult, after: seq<Byte>)
    requires ReadOutcome(maxInput, budget, before, done + tail, r, after)
    requires Underway(maxInput, budget, before, done, x)
    ensures |tail| <= budget - x.total && x.total == |done|
    ensures Parse(x.buffer).rest == Parse(before + done).rest && Parse(x.buffer).error == Parse(before + done).error
  {
    hide Parse, Agrees, AllFit, ErrorIsNear;
    DrainedMeans(maxInput, budget, before, done, x);
  }

  /** The outcomes of a read are exactly what its loop can come to. */
  lemma {:induction false} ReadOutcomeIsExact(maxInput: nat, budget: nat, before: seq<Byte>, received: seq<Byte>,
                                              r: ReadResult, after: seq<Byte>)
    requires |before| <= maxInput
    ensures ReadOutcome(maxInput, budget, before, received, r, after) <==>
            exists chunks, closed ::
              Joined(chunks) == received && Reads(maxInput, budget, Scan(before, [], 0), chunks, closed, r, after)
  {
    hide ReadOutcome, Reads, Underway, Concat, Parse;
    var x := Scan(before, [], 0);
    Begins(maxInput, budget, before);
    if ReadOutcome(maxInput, budget, before, received, r, after) {
      StartsClean(maxInput, budget, before, received, r, after);
      assert [] + received == received && before + [] == before;
      var chunks, closed := ReadsCompletely(maxInput, budget, before, [], received, x, r, after);
    }
    if chunks, closed :| Joined(chunks) == received && Reads(maxInput, budget, x, chunks, closed, r, after) {
      ReadsSoundly(maxInput, budget, before, [], x, chunks, closed, r, after);
      assert [] + received == received;
    }
  }

  lemma Begins(maxInput: nat, budget: nat, before: seq<Byte>)
    requires |before| <= maxInput
    ensures Underway(maxInput, budget, before, [], Scan(before, [], 0))
  {
    hide Agrees, Parse;
    StartAgrees(before);
    assert before + [] == before;
  }

  lemma StartsClean(maxInput: nat, budget: nat, before: seq<Byte>, received: seq<Byte>, r: ReadResult, after: seq<Byte>)
    requires ReadOutcome(maxInput, budget, before, received, r, after)
    ensures received != [] ==> Parse(before).error.None?
  {
    hide Parse;
    if Parse(before + received).error.None? {
      NoErrorBefore(before, received);
    }
  }
}
