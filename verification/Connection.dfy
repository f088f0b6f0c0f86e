/** The sockets of the model. A call may be interrupted, transfer any legal number of
    bytes, report that it would block, or find the peer gone; interruptions are finite. */
module Sockets {
  import opened Codec

  datatype RecvEvent = Data(bytes: seq<Byte>) | RecvInterrupted | RecvWouldBlock | RecvClosed
  datatype SendEvent = Accepted(count: nat) | SendInterrupted | SendWouldBlock | SendClosed

  /** A call of `recv` or `send`: what it asked for and what came of it. */
  datatype RecvCall = RecvCall(asked: nat, event: RecvEvent)
  datatype SendCall = SendCall(offered: seq<Byte>, event: SendEvent)

  /** The bytes that came in over some calls. */
  function Arrived(calls: seq<RecvCall>): seq<Byte> {
    if calls == [] then []
    else
      var e := calls[|calls| - 1].event;
      Arrived(calls[..|calls| - 1]) + if e.Data? then e.bytes else []
  }

  /** The number of bytes that went out over some calls. */
  function Taken(calls: seq<SendCall>): nat {
    if calls == [] then 0
    else
      var e := calls[|calls| - 1].event;
      Taken(calls[..|calls| - 1]) + if e.Accepted? then e.count else 0
  }

  lemma ArrivedNext(calls: seq<RecvCall>, call: RecvCall)
    ensures Arrived(calls + [call]) == Arrived(calls) + if call.event.Data? then call.event.bytes else []
  {
    assert (calls + [call])[..|calls|] == calls;
  }

  lemma TakenNext(calls: seq<SendCall>, call: SendCall)
    ensures Taken(calls + [call]) == Taken(calls) + if call.event.Accepted? then call.event.count else 0
  {
    assert (calls + [call])[..|calls|] == calls;
  }

  class Socket {
    // What the peer has still to deliver, what was delivered, and what it was sent.
    var incoming: seq<Byte>
    var received: seq<Byte>
    var sent: seq<Byte>
    var interruptions: nat
    // Every call made on the socket.
    ghost var recvs: seq<RecvCall>
    ghost var sends: seq<SendCall>

    constructor (incoming: seq<Byte>, interruptions: nat)
      ensures this.incoming == incoming && received == [] && sent == []
      ensures this.interruptions == interruptions && recvs == [] && sends == []
    {
      this.incoming, this.interruptions, received, sent := incoming, interruptions, [], [];
      recvs, sends := [], [];
    }

    /** `recv` for at most `n` bytes. A blocking socket never reports that it would
        block, and reports the end of the stream only after all of it. */
    method Recv(n: nat, blocking: bool) returns (e: RecvEvent)
      requires n > 0
      modifies `incoming, `received, `interruptions, `recvs
      ensures recvs == old(recvs) + [RecvCall(n, e)]
      ensures e.Data? ==> 0 < |e.bytes| <= n && old(incoming) == e.bytes + incoming
                          && received == old(received) + e.bytes && interruptions == old(interruptions)
      ensures !e.Data? ==> incoming == old(incoming) && received == old(received)
      ensures interruptions == old(interruptions) - if e.RecvInterrupted? then 1 else 0
      ensures blocking ==> !e.RecvWouldBlock? && (e.RecvClosed? ==> incoming == [])
    {
      var count: nat, again: bool, gone: bool := *, *, *;
      if again && interruptions > 0 {
        interruptions := interruptions - 1;
        e := RecvInterrupted;
      } else if incoming != [] && (blocking || 0 < count) {
        var most := if |incoming| < n then |incoming| else n;
        var k := if 0 < count < most then count else most;
        e := Data(incoming[..k]);
        received, incoming := received + incoming[..k], incoming[k..];
      } else if blocking || gone {
        e := RecvClosed;
      } else {
        e := RecvWouldBlock;
      }
      recvs := recvs + [RecvCall(n, e)];
    }

    /** `send` of `bytes`. A blocking socket accepts some of them or is interrupted. */
    method Send(bytes: seq<Byte>, blocking: bool) returns (e: SendEvent)
      requires bytes != []
      modifies `sent, `interruptions, `sends
      ensures sends == old(sends) + [SendCall(bytes, e)]
      ensures e.Accepted? ==> 0 < e.count <= |bytes| && sent == old(sent) + bytes[..e.count]
                              && interruptions == old(interruptions)
      ensures !e.Accepted? ==> sent == old(sent)
      ensures interruptions == old(interruptions) - if e.SendInterrupted? then 1 else 0
      ensures blocking ==> e.Accepted? || e.SendInterrupted?
    {
      var count: nat, again: bool, gone: bool := *, *, *;
      if again && interruptions > 0 {
        interruptions := interruptions - 1;
        e := SendInterrupted;
      } else if blocking || 0 < count {
        var k := if 0 < count < |bytes| then count else |bytes|;
        e := Accepted(k);
        sent := sent + bytes[..k];
      } else {
        e := if gone then SendClosed else SendWouldBlock;
      }
      sends := sends + [SendCall(bytes, e)];
    }
  }
}

/** One non-blocking connection: budgets, buffer limits, partial transfers. */
module Connections {
  import opened Codec
  import opened Streams
  import opened FrameDecoding
  import opened Sockets

  const CHUNK := 4096
  const DEFAULT_BUFFER_LIMIT := HEADER_SIZE + MAX_PAYLOAD_SIZE

  datatype ReadStatus = ReadOk | ReadWouldBlock | ReadPeerClosed | ReadProtocolError
  datatype ReadResult =
    ReadResult(status: ReadStatus, messages: seq<Message>, error: Option<ProtocolError>)
  datatype WriteStatus = WriteOk | WriteWouldBlock | WritePeerClosed

  // ------------------------------------------- what the operations may come to

  /** The frame of every message is within `limit`. */
  predicate AllFit(messages: seq<Message>, limit: nat) {
    forall i :: 0 <= i < |messages| ==> HEADER_SIZE + |messages[i].payload| <= limit
  }

  /** What a read may come to when `received` arrived during the call: it returns the
      messages that the buffered and the received bytes complete, each from a frame that
      fits in the buffer, and keeps the rest. It is rejected exactly when these bytes hold
      an error, or when the unfinished frame at the head has filled the buffer while the
      budget would allow more. The socket is found empty or closed only within the budget,
      and an error is found in the first chunk that completes its header. */
  predicate ReadOutcome(maxInput: nat, budget: nat, before: seq<Byte>, received: seq<Byte>,
                        r: ReadResult, after: seq<Byte>) {
    var p := Parse(before + received);
    var full := |p.rest| >= maxInput && |received| < budget;
    && |received| <= budget
    && r.messages == p.messages && AllFit(r.messages, maxInput)
    && after == p.rest && |after| <= maxInput
    && (r.status.ReadProtocolError? <==> p.error.Some? || full)
    && r.error == (if p.error.Some? then p.error else if full then Some(PayloadTooLarge) else None)
    && (r.status.ReadWouldBlock? ==> received == [] && r.messages == [])
    && (r.status.ReadWouldBlock? || r.status.ReadPeerClosed? ==> |received| < budget)
    && (p.error.Some? ==> received == [] || (Parse(before).error.None? && |after| < HEADER_SIZE + CHUNK))
    && (r.status.ReadOk? ==> |received| == budget || received != [] || r.messages != [])
  }

  /** How much one `recv` asks for: a chunk, or what is left of the budget or of the buffer. */
  function Ask(budget: nat, space: nat): (n: nat)
    ensures n <= 4096 && n <= budget && n <= space && (n == 4096 || n == budget || n == space)
  {
    if CHUNK <= budget && CHUNK <= space then CHUNK else if budget <= space then budget else space
  }

  /** Each call asked for what budget and buffer allowed after the calls before it. */
  ghost predicate AskedWell(maxInput: nat, budget: nat, before: seq<Byte>, calls: seq<RecvCall>) {
    forall i :: 0 <= i < |calls| ==> AsksWell(maxInput, budget, before, Arrived(calls[..i]), calls[i].asked)
  }

  ghost predicate AsksWell(maxInput: nat, budget: nat, before: seq<Byte>, done: seq<Byte>, asked: nat) {
    && |done| <= budget && |Parse(before + done).rest| <= maxInput
    && asked == Ask(budget - |done|, maxInput - |Parse(before + done).rest|)
  }

  /** Each call offered what was pending after the calls before it, within the budget. */
  ghost predicate OfferedWell(budget: nat, before: seq<Byte>, calls: seq<SendCall>) {
    forall i :: 0 <= i < |calls| ==> OffersWell(budget, before, Taken(calls[..i]), calls[i].offered)
  }

  ghost predicate OffersWell(budget: nat, before: seq<Byte>, done: nat, offered: seq<Byte>) {
    && done <= budget && done <= |before|
    && offered == before[done..if |before| <= budget then |before| else budget]
  }

  /** Every call brought something or was interrupted. */
  ghost predicate AllGoOn(calls: seq<RecvCall>) {
    forall i :: 0 <= i < |calls| ==> calls[i].event.Data? || calls[i].event.RecvInterrupted?
  }

  ghost predicate AllWentOn(calls: seq<SendCall>) {
    forall i :: 0 <= i < |calls| ==> calls[i].event.Accepted? || calls[i].event.SendInterrupted?
  }

  lemma AskNext(maxInput: nat, budget: nat, before: seq<Byte>, calls: seq<RecvCall>, call: RecvCall)
    requires AskedWell(maxInput, budget, before, calls)
    requires AsksWell(maxInput, budget, before, Arrived(calls), call.asked)
    ensures AskedWell(maxInput, budget, before, calls + [call])
    ensures AllGoOn(calls) && (call.event.Data? || call.event.RecvInterrupted?) ==> AllGoOn(calls + [call])
  {
    hide AsksWell;
    var all := calls + [call];
    assert all[..|calls|] == calls;
    assert forall i :: 0 <= i < |calls| ==> all[..i] == calls[..i];
  }

  lemma OfferNext(budget: nat, before: seq<Byte>, calls: seq<SendCall>, call: SendCall)
    requires OfferedWell(budget, before, calls)
    requires OffersWell(budget, before, Taken(calls), call.offered)
    ensures OfferedWell(budget, before, calls + [call])
    ensures AllWentOn(calls) && (call.event.Accepted? || call.event.SendInterrupted?) ==> AllWentOn(calls + [call])
  {
    hide OffersWell;
    var all := calls + [call];
    assert all[..|calls|] == calls;
    assert forall i :: 0 <= i < |calls| ==> all[..i] == calls[..i];
  }

  /** What the calls of a read say about it. Every call but the last brought bytes or was
      interrupted, and asked for as much as budget and buffer allowed at that point; the peer
      is reported closed exactly if the last call found it so, and the read as blocked exactly
      if the last call would have blocked and the read came to nothing. */
  ghost predicate ReadCalls(maxInput: nat, budget: nat, before: seq<Byte>, calls: seq<RecvCall>, r: ReadResult) {
    var last := if calls == [] then RecvInterrupted else calls[|calls| - 1].event;
    && (calls != [] ==> AllGoOn(calls[..|calls| - 1]))
    && AskedWell(maxInput, budget, before, calls)
    && (r.status.ReadPeerClosed? <==> last.RecvClosed?)
    && (r.status.ReadWouldBlock? <==> last.RecvWouldBlock? && Arrived(calls) == [] && r.messages == [])
    && (r.status.ReadOk? && |Arrived(calls)| < budget ==> last.RecvWouldBlock?)
  }

  /** What the calls of a write say about it: each offered all that was still pending within
      the budget; every one but the last got bytes accepted or was interrupted; and the peer is
      reported gone, or the write as blocked, exactly if the last call found it so. */
  ghost predicate WriteCalls(budget: nat, before: seq<Byte>, calls: seq<SendCall>, status: WriteStatus) {
    var last := if calls == [] then SendInterrupted else calls[|calls| - 1].event;
    && (calls != [] ==> AllWentOn(calls[..|calls| - 1]))
    && OfferedWell(budget, before, calls)
    && (status.WritePeerClosed? <==> last.SendClosed?)
    && (status.WriteWouldBlock? <==> last.SendWouldBlock?)
  }

  /** What a write may come to when the peer took `sent`. */
  predicate WriteOutcome(budget: nat, before: seq<Byte>, sent: seq<Byte>,
                         status: WriteStatus, after: seq<Byte>) {
    && before == sent + after
    && |sent| <= budget
    && (status.WriteOk? ==> after == [] || |sent| == budget)
    && (!status.WriteOk? ==> after != [] && |sent| < budget)
  }

  /** The pending output after queueing a message; None if it is refused. */
  function Queued(maxOutput: nat, pending: seq<Byte>, message: Message): (r: Option<seq<Byte>>) {
    match EncodeMessage(message)
    case None => None
    case Some(frame) =>
      if |pending| + |frame| <= maxOutput then Some(pending + frame) else None
  }

  // ---------------------------------------------------- the connection itself

  class Connection {
    const maxInput: nat
    const maxOutput: nat
    const socket: Socket
    const decoder: FrameDecoder
    var outputBuffer: seq<Byte>
    var outputOffset: nat
    // The past of the connection: messages read from it and messages queued on it.
    ghost var taken: seq<Message>
    ghost var queued: seq<Message>

    /** Over every run of the methods, the messages read are the first ones of the bytes
        received, and the input buffer stays within its limit. */
    ghost predicate InputValid()
      reads `taken, socket`received, decoder
    {
      && decoder.Valid()
      && |decoder.Pending()| <= maxInput
      && Agrees(socket.received, taken, decoder.Pending())
    }

    /** Over every run of the methods, the bytes sent followed by the pending bytes are the
        frames of the messages queued, and the output buffer stays within its limit, the
        already sent prefix included. */
    ghost predicate OutputValid()
      reads `outputBuffer, `outputOffset, `queued, socket`sent
    {
      && outputOffset <= |outputBuffer| <= maxOutput
      && socket.sent + PendingOutput() == EncodeAll(queued)
    }

    ghost predicate Valid()
      reads `taken, `outputBuffer, `outputOffset, `queued, socket`received, socket`sent, decoder
    {
      InputValid() && OutputValid()
    }

    function PendingOutput(): (s: seq<Byte>)
      reads `outputBuffer, `outputOffset
      requires outputOffset <= |outputBuffer|
    {
      outputBuffer[outputOffset..]
    }

    constructor (maxInput: nat, maxOutput: nat, incoming: seq<Byte>, interruptions: nat)
      ensures Valid() && fresh(socket) && fresh(decoder)
      ensures this.maxInput == maxInput && this.maxOutput == maxOutput
      ensures socket.incoming == incoming && taken == [] && queued == []
    {
      this.maxInput, this.maxOutput := maxInput, maxOutput;
      socket := new Socket(incoming, interruptions);
      decoder := new FrameDecoder();
      outputBuffer, outputOffset := [], 0;
      taken, queued := [], [];
      new;
      assert Parse([]) == Parsed([], [], None);
    }

    /** Takes every complete frame out of the decoder. */
    method DrainDecoder(messages: seq<Message>) returns (all: seq<Message>, error: Option<ProtocolError>)
      requires decoder.Valid()
      modifies decoder
      ensures decoder.Valid()
      ensures var p := Parse(old(decoder.Pending()));
              all == messages + p.messages && decoder.Pending() == p.rest && error == p.error
    {
      hide TryDecodeFrame, Store.Compacted;
      all := messages;
      while true
        invariant decoder.Valid()
        invariant var p, q := Parse(old(decoder.Pending())), Parse(decoder.Pending());
                  messages + p.messages == all + q.messages && p.rest == q.rest && p.error == q.error
        decreases |decoder.Pending()|
      {
        ghost var pending := decoder.Pending();
        var result := decoder.Next();
        if result.NeedMoreData? {
          return all, None;
        }
        if result.Error? {
          return all, Some(result.error);
        }
        ghost var q := Parse(decoder.Pending());
        assert Parse(pending) == q.(messages := [result.message] + q.messages);
        assert all + ([result.message] + q.messages) == (all + [result.message]) + q.messages;
        all := all + [result.message];
      }
    }

    /** One `recv` into the decoder, of no more than the budget and the buffer allow. */
    method ReceiveChunk(budget: nat) returns (e: RecvEvent)
      requires decoder.Valid() && |decoder.Pending()| < maxInput && budget > 0
      modifies socket`incoming, socket`received, socket`interruptions, socket`recvs, decoder
      ensures decoder.Valid() && |decoder.Pending()| <= maxInput
      ensures socket.recvs == old(socket.recvs) + [RecvCall(Ask(budget, maxInput - |old(decoder.Pending())|), e)]
      ensures e.Data? ==> && 0 < |e.bytes| <= budget && |e.bytes| <= CHUNK
                          && decoder.Pending() == old(decoder.Pending()) + e.bytes
                          && socket.received == old(socket.received) + e.bytes
      ensures !e.Data? ==> decoder.Pending() == old(decoder.Pending()) && socket.received == old(socket.received)
      ensures e.Data? || e.RecvInterrupted? ==>
                |socket.incoming| + socket.interruptions < old(|socket.incoming| + socket.interruptions)
    {
      var space := maxInput - decoder.BufferedSize();
      var n := Ask(budget, space);
      e := socket.Recv(n, false);
      if e.Data? {
        decoder.Append(e.bytes);
      }
    }

    method ReadAvailable(maxReadBytes: nat) returns (r: ReadResult)
      requires Valid()
      modifies `taken, socket`incoming, socket`received, socket`interruptions, socket`recvs, decoder
      ensures Valid()
      ensures taken == old(taken) + r.messages
      ensures old(socket.received) <= socket.received
      ensures ReadOutcome(maxInput, maxReadBytes, old(decoder.Pending()),
                          socket.received[|old(socket.received)|..], r, decoder.Pending())
      ensures old(socket.recvs) <= socket.recvs
      ensures var calls := socket.recvs[|old(socket.recvs)|..];
              && ReadCalls(maxInput, maxReadBytes, old(decoder.Pending()), calls, r)
              && Arrived(calls) == socket.received[|old(socket.received)|..]
    {
      hide Parse, Agrees, AllFit, ErrorIsNear, OutputValid, FrameDecoder.Valid, FrameDecoder.View, FrameDecoder.Pending,
           AskedWell, AllGoOn, Ask, Arrived, ReadCalls;
      var messages: seq<Message> := [];
      var madeProgress, totalRead := false, 0;
      ghost var start, past := decoder.Pending(), socket.received;
      ghost var chunk: seq<Byte> := [];
      ghost var calls: seq<RecvCall> := [];
      NoCalls(maxInput, maxReadBytes, start);
      StartAgrees(start);
      NoneFits(maxInput);
      assert start + chunk == start;
      while true
        invariant decoder.Valid() && |decoder.Pending()| <= maxInput
        invariant socket.received == past + chunk
        invariant totalRead == |chunk| <= maxReadBytes
        invariant madeProgress == (chunk != [])
        invariant Agrees(start + chunk, messages, decoder.Pending()) && AllFit(messages, maxInput)
        invariant chunk != [] ==> Parse(start).error.None? && ErrorIsNear(decoder.Pending())
        invariant socket.recvs == old(socket.recvs) + calls && Arrived(calls) == chunk
        invariant AskedWell(maxInput, maxReadBytes, start, calls) && AllGoOn(calls)
        decreases |socket.incoming| + socket.interruptions
      {
        AgreesMeans(start + chunk, messages, decoder.Pending());
        NearMeans(decoder.Pending());
        DrainFits(messages, decoder.Pending(), maxInput);
        var error;
        messages, error := DrainDecoder(messages);
        DrainAgrees(past, old(taken), start, chunk);
        DrainedAgrees(start + chunk);
        taken := old(taken) + messages;
        SuffixOf(past, chunk);
        SuffixOf(old(socket.recvs), calls);
        ghost var drained := decoder.Pending();
        if error.Some? {
          ReadStops(maxInput, maxReadBytes, start, calls, ReadResult(ReadProtocolError, messages, error));
          return ReadResult(ReadProtocolError, messages, error);
        }
        if totalRead >= maxReadBytes {
          ReadStops(maxInput, maxReadBytes, start, calls, ReadResult(ReadOk, messages, None));
          return ReadResult(ReadOk, messages, None);
        }
        if decoder.BufferedSize() >= maxInput {
          r := ReadResult(ReadProtocolError, messages, Some(PayloadTooLarge));
          ReadStops(maxInput, maxReadBytes, start, calls, r);
          return;
        }
        var e := ReceiveChunk(maxReadBytes - totalRead);
        ghost var call := RecvCall(Ask(maxReadBytes - totalRead, maxInput - |drained|), e);
        ghost var made := calls;
        AskNext(maxInput, maxReadBytes, start, calls, call);
        ArrivedNext(calls, call);
        Associative(old(socket.recvs), calls, [call]);
        calls := calls + [call];
        SuffixOf(old(socket.recvs), calls);
        match e
        case RecvInterrupted =>
          ErrorComesNear(start + chunk, []);
          NoErrorBefore(start, chunk);
          assert drained + [] == drained && chunk + [] == chunk;
        case RecvWouldBlock =>
          var status := if madeProgress || messages != [] then ReadOk else ReadWouldBlock;
          assert chunk + [] == chunk;
          ReadEnds(maxInput, maxReadBytes, start, made, call, ReadResult(status, messages, None));
          return ReadResult(status, messages, None);
        case RecvClosed =>
          assert chunk + [] == chunk;
          ReadEnds(maxInput, maxReadBytes, start, made, call, ReadResult(ReadPeerClosed, messages, None));
          return ReadResult(ReadPeerClosed, messages, None);
        case Data(bytes) =>
          AgreesAfterAppend(start + chunk, messages, drained, bytes);
          ErrorComesNear(start + chunk, bytes);
          NoErrorBefore(start, chunk);
          Associative(start, chunk, bytes);
          Associative(past, chunk, bytes);
          madeProgress, totalRead := true, totalRead + |bytes|;
          chunk := chunk + bytes;
      }
    }

    method QueueOutput(message: Message) returns (accepted: bool)
      requires Valid()
      modifies `outputBuffer, `outputOffset, `queued
      ensures Valid()
      ensures accepted == Queued(maxOutput, old(PendingOutput()), message).Some?
      ensures accepted ==> Some(PendingOutput()) == Queued(maxOutput, old(PendingOutput()), message)
      ensures accepted <==> 1 <= message.kind <= 5 && |message.payload| <= 65536
                            && |old(PendingOutput())| + 20 + |message.payload| <= maxOutput
      ensures accepted ==> PendingOutput() == old(PendingOutput()) + Frame(message)
      ensures !accepted ==> PendingOutput() == old(PendingOutput())
      ensures queued == old(queued) + if accepted then [message] else []
    {
      hide EncodeMessage, InputValid, Concat;
      WireFormat(message);
      var encoded := EncodeMessage(message);
      if encoded.None? {
        return false;
      }
      CompactOutputBuffer();
      var pending := |outputBuffer| - outputOffset;
      if pending > maxOutput || |encoded.value| > maxOutput - pending {
        return false;
      }
      ConcatSnoc(Frame, queued, message);
      Associative(socket.sent, outputBuffer, encoded.value);
      queued := queued + [message];
      if pending == 0 {
        outputBuffer, outputOffset := encoded.value, 0;
      } else {
        outputBuffer := outputBuffer + encoded.value;
      }
      assert PendingOutput() == old(PendingOutput()) + encoded.value;
      return true;
    }

    method CompactOutputBuffer()
      requires outputOffset <= |outputBuffer|
      modifies `outputBuffer, `outputOffset
      ensures outputOffset == 0 && outputBuffer == old(PendingOutput())
    {
      if outputOffset == 0 {
        return;
      }
      if outputOffset >= |outputBuffer| {
        outputBuffer, outputOffset := [], 0;
        return;
      }
      outputBuffer, outputOffset := outputBuffer[outputOffset..], 0;
    }

    /** One `send` of what is pending, within what is left of the budget. */
    method SendChunk(budget: nat) returns (e: SendEvent)
      requires outputOffset < |outputBuffer| && budget > 0
      modifies `outputOffset, socket`sent, socket`interruptions, socket`sends
      ensures outputOffset == old(outputOffset) + if e.Accepted? then e.count else 0
      ensures e.Accepted? ==> 0 < e.count <= budget && outputOffset <= |outputBuffer|
      ensures socket.sent == old(socket.sent) + outputBuffer[old(outputOffset)..outputOffset]
      ensures socket.interruptions == old(socket.interruptions) - if e.SendInterrupted? then 1 else 0
      ensures var pending := |outputBuffer| - old(outputOffset);
              var n := if pending <= budget then pending else budget;
              socket.sends == old(socket.sends)
                              + [SendCall(outputBuffer[old(outputOffset)..old(outputOffset) + n], e)]
    {
      var pending := |outputBuffer| - outputOffset;
      var n := if pending <= budget then pending else budget;
      e := socket.Send(outputBuffer[outputOffset..outputOffset + n], false);
      if e.Accepted? {
        outputOffset := outputOffset + e.count;
      }
    }

    /** The loop of a write. */
    method SendPending(maxWriteBytes: nat) returns (status: WriteStatus, bytesWritten: nat)
      requires outputOffset <= |outputBuffer|
      modifies `outputOffset, socket`sent, socket`interruptions, socket`sends
      ensures outputOffset == old(outputOffset) + bytesWritten <= |outputBuffer|
      ensures socket.sent == old(socket.sent) + old(PendingOutput())[..bytesWritten]
      ensures bytesWritten <= maxWriteBytes
      ensures status.WriteOk? ==> outputOffset == |outputBuffer| || bytesWritten == maxWriteBytes
      ensures !status.WriteOk? ==> outputOffset < |outputBuffer| && bytesWritten < maxWriteBytes
      ensures old(socket.sends) <= socket.sends
      ensures var calls := socket.sends[|old(socket.sends)|..];
              WriteCalls(maxWriteBytes, old(PendingOutput()), calls, status) && Taken(calls) == bytesWritten
    {
      hide OfferedWell, AllWentOn, Taken, WriteCalls;
      status, bytesWritten := WriteOk, 0;
      ghost var first, pending := outputOffset, PendingOutput();
      ghost var calls: seq<SendCall> := [];
      NoCalls(maxInput, maxWriteBytes, pending);
      while outputOffset < |outputBuffer|
        invariant first <= outputOffset <= |outputBuffer|
        invariant bytesWritten == outputOffset - first <= maxWriteBytes && bytesWritten <= |pending|
        invariant socket.sent == old(socket.sent) + pending[..bytesWritten]
        invariant socket.sends == old(socket.sends) + calls && Taken(calls) == bytesWritten
        invariant OfferedWell(maxWriteBytes, pending, calls) && AllWentOn(calls)
        decreases |outputBuffer| - outputOffset + socket.interruptions
      {
        SuffixOf(old(socket.sends), calls);
        if bytesWritten >= maxWriteBytes {
          WriteStops(maxWriteBytes, pending, calls);
          return;
        }
        ghost var before := outputOffset;
        var e := SendChunk(maxWriteBytes - bytesWritten);
        ghost var end := if |pending| <= maxWriteBytes then |pending| else maxWriteBytes;
        ghost var call := SendCall(pending[bytesWritten..end], e);
        OffersPending(outputBuffer, first, before, maxWriteBytes);
        OfferNext(maxWriteBytes, pending, calls, call);
        TakenNext(calls, call);
        Associative(old(socket.sends), calls, [call]);
        Grows(old(socket.sent), outputBuffer, first, before, outputOffset);
        SuffixOf(old(socket.sends), calls + [call]);
        if e.SendWouldBlock? {
          WriteEnds(maxWriteBytes, pending, calls, call, WriteWouldBlock);
          return WriteWouldBlock, bytesWritten;
        }
        if e.SendClosed? {
          WriteEnds(maxWriteBytes, pending, calls, call, WritePeerClosed);
          return WritePeerClosed, bytesWritten;
        }
        calls := calls + [call];
        if e.Accepted? {
          bytesWritten := bytesWritten + e.count;
        }
      }
      SuffixOf(old(socket.sends), calls);
      WriteStops(maxWriteBytes, pending, calls);
    }

    method WriteAvailable(maxWriteBytes: nat) returns (status: WriteStatus, bytesWritten: nat)
      requires Valid()
      modifies `outputBuffer, `outputOffset, socket`sent, socket`interruptions, socket`sends
      ensures Valid()
      ensures old(socket.sent) <= socket.sent
      ensures bytesWritten == |socket.sent| - |old(socket.sent)|
      ensures WriteOutcome(maxWriteBytes, old(PendingOutput()),
                           socket.sent[|old(socket.sent)|..], status, PendingOutput())
      ensures old(socket.sends) <= socket.sends
      ensures var calls := socket.sends[|old(socket.sends)|..];
              WriteCalls(maxWriteBytes, old(PendingOutput()), calls, status) && Taken(calls) == bytesWritten
    {
      hide InputValid, EncodeAll, Taken, WriteCalls, WriteOutcome, FrameDecoder.Valid, FrameDecoder.Pending;
      ghost var past, pending := socket.sent, PendingOutput();
      status, bytesWritten := SendPending(maxWriteBytes);
      Split(past, pending, bytesWritten);
      Dropped(outputBuffer, old(outputOffset), bytesWritten);
      WrittenWell(maxWriteBytes, pending, bytesWritten, status);
      if outputOffset >= |outputBuffer| {
        outputBuffer, outputOffset := [], 0;
      }
    }
  }

  /** What a call offers, seen from the start of the write. */
  lemma OffersPending<T>(buffer: seq<T>, first: nat, offset: nat, budget: nat)
    requires first <= offset <= |buffer| && offset - first <= budget
    ensures var pending, left, size := buffer[first..], budget - (offset - first), |buffer| - offset;
            var n := if size <= left then size else left;
            buffer[offset..offset + n]
            == pending[offset - first..if |pending| <= budget then |pending| else budget]
  {}

  lemma Grows<T>(past: seq<T>, buffer: seq<T>, first: nat, before: nat, offset: nat)
    requires first <= before <= offset <= |buffer|
    ensures (past + buffer[first..][..before - first]) + buffer[before..offset]
         == past + buffer[first..][..offset - first]
  {}

  /** A write that stops by itself. */
  lemma WriteStops(budget: nat, before: seq<Byte>, calls: seq<SendCall>)
    requires OfferedWell(budget, before, calls) && AllWentOn(calls)
    ensures WriteCalls(budget, before, calls, WriteOk)
  {
    hide OfferedWell;
  }

  /** A write that the socket ends. */
  lemma WriteEnds(budget: nat, before: seq<Byte>, calls: seq<SendCall>, call: SendCall, status: WriteStatus)
    requires OfferedWell(budget, before, calls + [call]) && AllWentOn(calls)
    requires call.event.SendClosed? || call.event.SendWouldBlock?
    requires status == if call.event.SendClosed? then WritePeerClosed else WriteWouldBlock
    ensures WriteCalls(budget, before, calls + [call], status)
  {
    hide OfferedWell;
    assert (calls + [call])[..|calls|] == calls;
  }

  lemma Dropped<T>(buffer: seq<T>, first: nat, n: nat)
    requires first + n <= |buffer|
    ensures buffer[first..][n..] == buffer[first + n..]
    ensures first + n == |buffer| ==> buffer[first..][n..] == []
  {}

  lemma WrittenWell(budget: nat, pending: seq<Byte>, n: nat, status: WriteStatus)
    requires n <= |pending| && n <= budget
    requires if status.WriteOk? then n == |pending| || n == budget else n < |pending| && n < budget
    ensures WriteOutcome(budget, pending, pending[..n], status, pending[n..])
  {}

  lemma Split<T>(past: seq<T>, pending: seq<T>, n: nat)
    requires n <= |pending|
    ensures (past + pending[..n])[|past|..] == pending[..n]
    ensures pending == pending[..n] + pending[n..]
    ensures past + pending == (past + pending[..n]) + pending[n..]
  {}

  lemma NoCalls(maxInput: nat, budget: nat, before: seq<Byte>)
    ensures AskedWell(maxInput, budget, before, []) && AllGoOn([]) && Arrived([]) == []
    ensures OfferedWell(budget, before, []) && AllWentOn([]) && Taken([]) == 0
  {}

  /** A read that stops by itself. */
  lemma ReadStops(maxInput: nat, budget: nat, before: seq<Byte>, calls: seq<RecvCall>, r: ReadResult)
    requires AskedWell(maxInput, budget, before, calls) && AllGoOn(calls)
    requires r.status.ReadProtocolError? || (r.status.ReadOk? && |Arrived(calls)| >= budget)
    ensures ReadCalls(maxInput, budget, before, calls, r)
  {
    hide AskedWell, Arrived;
  }

  /** A read that the socket ends. */
  lemma ReadEnds(maxInput: nat, budget: nat, before: seq<Byte>, calls: seq<RecvCall>, call: RecvCall, r: ReadResult)
    requires AskedWell(maxInput, budget, before, calls + [call]) && AllGoOn(calls)
    requires r.status == if call.event.RecvClosed? then ReadPeerClosed
                         else if Arrived(calls) != [] || r.messages != [] then ReadOk else ReadWouldBlock
    requires call.event.RecvClosed? || call.event.RecvWouldBlock?
    ensures ReadCalls(maxInput, budget, before, calls + [call], r)
  {
    hide AskedWell, Arrived;
    ArrivedNext(calls, call);
    assert Arrived(calls) + [] == Arrived(calls);
    assert (calls + [call])[..|calls|] == calls;
  }

  lemma StartAgrees(s: seq<Byte>)
    ensures Agrees(s, [], s)
  {
    hide Parse;
    assert [] + Parse(s).messages == Parse(s).messages;
  }

  lemma AgreesMeans(s: seq<Byte>, taken: seq<Message>, pending: seq<Byte>)
    requires Agrees(s, taken, pending)
    ensures var p := Parse(pending);
            Parse(s) == Parsed(taken + p.messages, p.rest, p.error)
  {}

  lemma DrainedAgrees(s: seq<Byte>)
    ensures Agrees(s, Parse(s).messages, Parse(s).rest)
  {
    var p := Parse(s);
    ParseAppend(s, []);
    assert s + [] == s && p.rest + [] == p.rest;
    ParseStops(s);
    assert Parse(p.rest) == Parsed([], p.rest, p.error);
    assert p.messages + [] == p.messages;
  }

  /** What was read earlier followed by what this call drains is what was received. */
  lemma DrainAgrees(past: seq<Byte>, taken: seq<Message>, start: seq<Byte>, chunk: seq<Byte>)
    requires Agrees(past, taken, start)
    ensures var p := Parse(start + chunk);
            Agrees(past + chunk, taken + p.messages, p.rest)
  {
    AgreesAfterAppend(past, taken, start, chunk);
    DrainedAgrees(start + chunk);
    var p := Parse(start + chunk);
    var q := Parse(p.rest);
    assert taken + (p.messages + q.messages) == (taken + p.messages) + q.messages;
  }

  /** An error in the buffer is within one chunk of its end. */
  ghost predicate ErrorIsNear(pending: seq<Byte>) {
    Parse(pending).error.Some? ==> |Parse(pending).rest| < HEADER_SIZE + CHUNK
  }

  lemma NearMeans(pending: seq<Byte>)
    ensures ErrorIsNear(pending) <==> (Parse(pending).error.Some? ==> |Parse(pending).rest| < HEADER_SIZE + CHUNK)
  {}

  /** A chunk that brings an error brings most of what is left with it. */
  lemma ErrorComesNear(s: seq<Byte>, bytes: seq<Byte>)
    requires Parse(s).error.None? && |bytes| <= CHUNK
    ensures ErrorIsNear(Parse(s).rest + bytes)
  {
    hide TryDecodeFrame;
    var rest := Parse(s).rest;
    ParseStops(s);
    var r := TryDecodeFrame(rest + bytes);
    if r.Error? && |rest| >= HEADER_SIZE {
      HeaderDecides(rest, bytes);
    } else if r.Decoded? {
      CompletedLater(rest, bytes);
    }
  }

  lemma NoErrorBefore(s: seq<Byte>, more: seq<Byte>)
    requires Parse(s + more).error.None?
    ensures Parse(s).error.None?
  {
    hide Parse;
    ParseAppend(s, more);
  }

  lemma NoneFits(limit: nat)
    ensures AllFit([], limit)
  {}

  /** A buffer within the limit holds only frames within the limit. */
  lemma {:induction false} BufferedFit(s: seq<Byte>, limit: nat)
    requires |s| <= limit
    ensures AllFit(Parse(s).messages, limit)
    decreases |s|
  {
    hide TryDecodeFrame, EncodeMessage;
    var r := TryDecodeFrame(s);
    if r.Decoded? {
      EncodeDecode(s);
      BufferedFit(s[r.bytesConsumed..], limit);
    }
  }

  lemma DrainFits(messages: seq<Message>, pending: seq<Byte>, limit: nat)
    requires AllFit(messages, limit) && |pending| <= limit
    ensures AllFit(messages + Parse(pending).messages, limit)
  {
    hide Parse;
    BufferedFit(pending, limit);
  }

  // -------------------------------------------------------- limits and streams

  /** The frame at the head of `s` is longer than a buffer of `limit` bytes. */
  predicate HeadCannotFit(s: seq<Byte>, limit: nat) {
    limit < HEADER_SIZE || (|s| >= HEADER_SIZE && HEADER_SIZE + AnnouncedPayload(s) > limit)
  }

  /** A read is rejected without an error in the stream only if the frame at the head
      cannot fit in the buffer, and so never under a limit that fits every frame. */
  lemma LimitRejection(maxInput: nat, budget: nat, before: seq<Byte>, received: seq<Byte>,
                       r: ReadResult, after: seq<Byte>)
    requires ReadOutcome(maxInput, budget, before, received, r, after)
    requires r.status.ReadProtocolError? && Parse(before + received).error.None?
    ensures |after| == maxInput && HeadCannotFit(after, maxInput)
    ensures maxInput < 65556
  {
    hide Parse, FromBigEndian;
    ParseStops(before + received);
  }

  /** How far a prefix of a stream of well-formed frames gets: it holds no error, and what
      is left of it is a proper part of the next frame. */
  lemma WellFormedPrefix(ms: seq<Message>, s: seq<Byte>)
    requires AllEncodable(ms) && s <= EncodeAll(ms)
    ensures var p := Parse(s);
            && p.error.None? && p.messages <= ms
            && (p.rest == [] || (|p.messages| < |ms| && |p.rest| < HEADER_SIZE + |ms[|p.messages|].payload|))
  {
    hide Parse, Concat, TryDecodeFrame, EncodeMessage;
    var t := EncodeAll(ms)[|s|..];
    var p := Parse(s);
    ParseEncodeAll(ms, []);
    assert EncodeAll(ms) + [] == s + t && ms + [] == ms;
    assert Parse([]) == Parsed([], [], None) by { EmptyStream(); }
    ParseAppend(s, t);
    var q := Parse(p.rest + t);
    assert ms == p.messages + q.messages;
    if p.rest != [] {
      ParseStops(s);
      ShortLeftover(p.rest, t);
      assert q.messages[0] == ms[|p.messages|];
    }
  }

  /** A prefix of well-formed frames that fit never fills a buffer. */
  lemma PrefixOfFrames(ms: seq<Message>, s: seq<Byte>, limit: nat)
    requires AllEncodable(ms) && s <= EncodeAll(ms)
    requires AllFit(ms, limit)
    requires limit > 0
    ensures Parse(s).error.None? && Parse(s).messages <= ms && |Parse(s).rest| < limit
  {
    hide Parse, EncodeAll;
    WellFormedPrefix(ms, s);
  }

  lemma EmptyStream()
    ensures Parse([]) == Parsed([], [], None)
  {}

  /** Bytes that are no frame yet, but begin a stream that parses to its end, are a proper
      part of its first frame. */
  lemma ShortLeftover(s: seq<Byte>, t: seq<Byte>)
    requires s != [] && TryDecodeFrame(s).NeedMoreData?
    requires Parse(s + t).error.None? && Parse(s + t).rest == []
    ensures Parse(s + t).messages != []
    ensures |s| < HEADER_SIZE + |Parse(s + t).messages[0].payload|
  {
    hide TryDecodeFrame, EncodeMessage;
    EncodeDecode(s + t);
    CompletedLater(s, t);
  }

  /** A client that sends only well-formed frames that fit in the input buffer is never
      rejected, however its bytes are cut into reads: `past` was received by earlier
      reads, which left `before`. */
  lemma {:induction false} FittingStreamsAreNeverRejected(ms: seq<Message>, maxInput: nat, budget: nat, past: seq<Byte>,
                                       before: seq<Byte>, received: seq<Byte>, r: ReadResult, after: seq<Byte>)
    requires AllEncodable(ms) && past + received <= EncodeAll(ms) && maxInput > 0
    requires AllFit(ms, maxInput)
    requires before == Parse(past).rest && Parse(past).error.None?
    requires ReadOutcome(maxInput, budget, before, received, r, after)
    ensures !r.status.ReadProtocolError?
    ensures Parse(past + received).messages == Parse(past).messages + r.messages
  {
    hide Parse, Concat;
    PrefixOfFrames(ms, past + received, maxInput);
    ParseAppend(past, received);
  }

  /** Under the default limit of 65556 bytes an encodable message is never refused by an empty
      buffer. */
  lemma EmptyBufferAccepts(message: Message)
    requires Encodable(message)
    ensures DEFAULT_BUFFER_LIMIT == 65556 && Queued(DEFAULT_BUFFER_LIMIT, [], message) == Some(Frame(message))
  {
    hide Header;
    assert [] + Frame(message) == Frame(message);
  }
}
