/** The incremental decoder: a growing buffer with a read offset that is compacted
    lazily. Whatever the order of its calls, it agrees with `Parse`. */
module FrameDecoding {
  import opened Codec
  import opened Streams

  /** What a decoder holds: its storage and how much of it was already read. */
  datatype Store = Store(buffer: seq<Byte>, readOffset: nat) {
    predicate Valid() {
      && readOffset <= |buffer|
      && (readOffset == 0 || |buffer| < 2 * BufferedSize())
    }

    function BufferedSize(): int {
      |buffer| - readOffset
    }

    function Pending(): seq<Byte>
      requires readOffset <= |buffer|
    {
      buffer[readOffset..]
    }

    /** Compaction is lazy: the storage stays as it is exactly while the dead prefix is empty
        or, by more than one byte, shorter than the rest. */
    function Compacted(): (s: Store)
      requires readOffset <= |buffer|
      ensures s.Valid() && s.Pending() == Pending()
      ensures s == this || s.readOffset == 0
      ensures s == this <==> readOffset == 0 || 2 * readOffset + 1 < |buffer|
    {
      if readOffset == 0 then this
      else if readOffset == |buffer| then Store([], 0)
      else if readOffset >= |buffer| / 2 then Store(buffer[readOffset..], 0)
      else this
    }

    function Appended(bytes: seq<Byte>): (s: Store)
      requires Valid()
      ensures s.Valid() && s.Pending() == Pending() + bytes && s.readOffset == readOffset
    {
      this.(buffer := buffer + bytes)
    }

    function Advanced(): (s: Store)
      requires Valid()
      ensures s.Valid()
      ensures var r := TryDecodeFrame(Pending());
              && s.Pending() == Pending()[if r.Decoded? then r.bytesConsumed else 0..]
              && (!r.Decoded? ==> s == this)
    {
      var r := TryDecodeFrame(Pending());
      if r.Decoded? then this.(readOffset := readOffset + r.bytesConsumed).Compacted() else this
    }
  }

  class FrameDecoder {
    var buffer: seq<Byte>
    var readOffset: nat

    function View(): Store
      reads this
    {
      Store(buffer, readOffset)
    }

    ghost predicate Valid()
      reads this
    {
      View().Valid()
    }

    function Pending(): seq<Byte>
      reads this
      requires Valid()
    {
      View().Pending()
    }

    function BufferedSize(): (n: nat)
      reads this
      requires Valid()
      ensures n == |Pending()|
    {
      |buffer| - readOffset
    }

    constructor ()
      ensures Valid() && View() == Store([], 0)
    {
      buffer, readOffset := [], 0;
    }

    method Append(bytes: seq<Byte>)
      requires Valid()
      modifies this
      ensures Valid() && View() == old(View()).Appended(bytes)
    {
      buffer := buffer + bytes;
    }

    method Next() returns (result: DecodeResult)
      requires Valid()
      modifies this
      ensures Valid()
      ensures result == TryDecodeFrame(old(Pending()))
      ensures View() == old(View()).Advanced()
    {
      var pending := buffer[readOffset..];
      result := TryDecodeFrame(pending);
      if result.Decoded? {
        readOffset := readOffset + result.bytesConsumed;
        CompactIfNeeded();
      }
    }

    method CompactIfNeeded()
      requires readOffset <= |buffer|
      modifies this
      ensures View() == old(View()).Compacted()
    {
      if readOffset == 0 {
        return;
      }
      if readOffset == |buffer| {
        buffer, readOffset := [], 0;
        return;
      }
      if readOffset >= |buffer| / 2 {
        buffer, readOffset := buffer[readOffset..], 0;
      }
    }
  }

  // ------------------------------------------------------- runs of a decoder

  datatype Call = Append(bytes: seq<Byte>) | Next

  /** A decoder together with its past: every byte fed, every message returned, how
      many bytes compactions left at the front, having moved them there, and how many
      compactions did so. */
  datatype Session =
    Session(store: Store, fed: seq<Byte>, taken: seq<Message>, shifted: nat, compactions: nat)

  const FRESH := Session(Store([], 0), [], [], 0, 0)

  function Perform(s: Session, call: Call): Session
    requires s.store.Valid()
  {
    match call
    case Append(bytes) => s.(store := s.store.Appended(bytes), fed := s.fed + bytes)
    case Next =>
      var r := TryDecodeFrame(s.store.Pending());
      if !r.Decoded? then s
      else
        var read, after := s.store.(readOffset := s.store.readOffset + r.bytesConsumed), s.store.Advanced();
        var moved := if after == read then 0 else |after.buffer|;
        s.(store := after,
           taken := s.taken + [r.message],
           shifted := s.shifted + moved,
           compactions := s.compactions + if moved > 0 then 1 else 0)
  }

  function Run(calls: seq<Call>): (s: Session)
    ensures s.store.Valid()
  {
    if calls == [] then FRESH else Perform(Run(calls[..|calls| - 1]), calls[|calls| - 1])
  }

  function Consumed(s: Session): int
    requires s.store.Valid()
  {
    |s.fed| - |s.store.Pending()|
  }

  /** The messages returned, followed by what is pending, mean what was fed. */
  ghost predicate Agrees(fed: seq<Byte>, taken: seq<Message>, pending: seq<Byte>) {
    var p := Parse(pending);
    Parse(fed) == p.(messages := taken + p.messages)
  }

  lemma AgreesAfterAppend(fed: seq<Byte>, taken: seq<Message>, pending: seq<Byte>, bytes: seq<Byte>)
    requires Agrees(fed, taken, pending)
    ensures Agrees(fed + bytes, taken, pending + bytes)
  {
    hide Parse;
    ParseAppend(fed, bytes);
    ParseAppend(pending, bytes);
    var p := Parse(pending);
    var q := Parse(p.rest + bytes);
    assert (taken + p.messages) + q.messages == taken + (p.messages + q.messages);
  }

  lemma AgreesAfterNext(fed: seq<Byte>, taken: seq<Message>, pending: seq<Byte>)
    requires Agrees(fed, taken, pending) && TryDecodeFrame(pending).Decoded?
    ensures var r := TryDecodeFrame(pending);
            Agrees(fed, taken + [r.message], pending[r.bytesConsumed..])
  {
    hide TryDecodeFrame;
    var r := TryDecodeFrame(pending);
    var q := Parse(pending[r.bytesConsumed..]);
    assert taken + ([r.message] + q.messages) == (taken + [r.message]) + q.messages;
  }

  /** The bytes moved by compactions are paid for by the bytes consumed. */
  predicate Paid(s: Session)
    requires s.store.Valid()
  {
    s.shifted + s.store.readOffset <= Consumed(s) + s.compactions
  }

  ghost predicate Faithful(s: Session) {
    s.store.Valid() && Agrees(s.fed, s.taken, s.store.Pending()) && Paid(s)
  }

  lemma PerformPaid(s: Session, call: Call)
    requires s.store.Valid() && Paid(s)
    ensures Paid(Perform(s, call))
  {
    hide TryDecodeFrame;
  }

  lemma PerformFaithful(s: Session, call: Call)
    requires Faithful(s)
    ensures Faithful(Perform(s, call))
  {
    hide TryDecodeFrame, Agrees, Store.Compacted;
    PerformPaid(s, call);
    match call
    case Append(bytes) => AgreesAfterAppend(s.fed, s.taken, s.store.Pending(), bytes);
    case Next =>
      if TryDecodeFrame(s.store.Pending()).Decoded? {
        AgreesAfterNext(s.fed, s.taken, s.store.Pending());
      }
  }

  lemma {:induction false} RunFaithful(calls: seq<Call>)
    ensures Faithful(Run(calls))
  {
    if calls == [] {
      assert Parse([]) == Parsed([], [], None);
    } else {
      hide Perform;
      RunFaithful(calls[..|calls| - 1]);
      PerformFaithful(Run(calls[..|calls| - 1]), calls[|calls| - 1]);
    }
  }

  /** Chunk independence. After any calls whatever, the messages returned so far are the
      first ones of the stream fed so far, and the verdict of the next call is fixed by
      the stream and by how many messages were returned: the next message while there
      is one, then the stream's error if it has one, else a request for more data. */
  lemma {:induction false} ChunkIndependence(calls: seq<Call>)
    ensures var s := Run(calls);
            var p := Parse(s.fed);
            && s.taken <= p.messages
            && TryDecodeFrame(s.store.Pending()) ==
               if |s.taken| < |p.messages| then
                 Decoded(p.messages[|s.taken|], |Frame(p.messages[|s.taken|])|)
               else if p.error.Some? then Error(p.error.value)
               else NeedMoreData
  {
    hide TryDecodeFrame;
    RunFaithful(calls);
    var pending := Run(calls).store.Pending();
    if TryDecodeFrame(pending).Decoded? {
      EncodeDecode(pending);
    }
  }

  /** An error is reported for ever, with no message in between, whatever is fed later. */
  lemma {:induction false} ErrorRepeats(calls: seq<Call>, later: seq<Call>)
    requires TryDecodeFrame(Run(calls).store.Pending()).Error?
    ensures TryDecodeFrame(Run(calls + later).store.Pending()) == TryDecodeFrame(Run(calls).store.Pending())
    ensures Run(calls + later).taken == Run(calls).taken
  {
    hide TryDecodeFrame, Perform;
    if later == [] {
      assert calls + later == calls;
    } else {
      var init, call := later[..|later| - 1], later[|later| - 1];
      ErrorRepeats(calls, init);
      assert (calls + later)[..|calls + later| - 1] == calls + init;
      ErrorStays(Run(calls + init), call);
    }
  }

  lemma ErrorStays(s: Session, call: Call)
    requires s.store.Valid() && TryDecodeFrame(s.store.Pending()).Error?
    ensures var t := Perform(s, call);
            t.taken == s.taken && TryDecodeFrame(t.store.Pending()) == TryDecodeFrame(s.store.Pending())
  {
    hide TryDecodeFrame;
    if call.Append? {
      VerdictIsStable(s.store.Pending(), call.bytes);
    }
  }

  /** Bounds on the lazy compaction, in every reachable state: the dead prefix is shorter
      than the live part, and all the bytes ever moved are paid for by bytes consumed,
      up to one byte for each move. */
  lemma {:induction false} CompactionBounds(calls: seq<Call>)
    ensures var s := Run(calls);
            && (s.store.readOffset == 0 || |s.store.buffer| < 2 * s.store.BufferedSize())
            && s.shifted <= Consumed(s) + s.compactions
            && Consumed(s) == |EncodeAll(s.taken)|
  {
    RunFaithful(calls);
    ConsumedIsEncoded(calls);
  }

  /** The bytes consumed are exactly the frames of the messages returned. */
  lemma {:induction false} ConsumedIsEncoded(calls: seq<Call>)
    ensures var s := Run(calls);
            s.fed == EncodeAll(s.taken) + s.store.Pending()
  {
    hide Parse, Run, Concat, Frame;
    RunFaithful(calls);
    var s := Run(calls);
    var q := Parse(s.store.Pending());
    EncodeAllParse(s.fed);
    EncodeAllParse(s.store.Pending());
    ConcatAppend(Frame, s.taken, q.messages);
    Associative(EncodeAll(s.taken), EncodeAll(q.messages), q.rest);
  }
}
