/** The simple reference server: one client at a time, read a message, answer it, repeat. */
module Blocking {
  import opened Codec
  import opened Streams
  import opened FrameDecoding
  import opened Sockets
  import opened Handling

  datatype ReadMessageResult =
    | GotMessage(message: Message)
    | Closed
    | Rejected(error: ProtocolError)

  /** What the reference server sends to a client that sends `input` and then closes. */
  function BlockingOutput(input: seq<Byte>): seq<Byte> {
    ResponseStream(HandleRequest, Parse(input).messages)
  }

  /** Longer input never changes the responses to its beginning. */
  lemma BlockingOutputMonotone(input: seq<Byte>, more: seq<Byte>)
    ensures BlockingOutput(input) <= BlockingOutput(input + more)
  {
    hide Parse, ResponseStream, HandleRequest;
    ParseAppend(input, more);
    ResponseStreamMonotone(HandleRequest, Parse(input).messages, Parse(input + more).messages);
  }

  method SendAll(socket: Socket, bytes: seq<Byte>)
    modifies socket`sent, socket`interruptions, socket`sends
    ensures socket.sent == old(socket.sent) + bytes
  {
    var offset := 0;
    while offset < |bytes|
      invariant 0 <= offset <= |bytes| && socket.sent == old(socket.sent) + bytes[..offset]
      decreases |bytes| - offset + socket.interruptions
    {
      var e := socket.Send(bytes[offset..], true);
      if e.Accepted? {
        assert bytes[..offset] + bytes[offset..][..e.count] == bytes[..offset + e.count];
        offset := offset + e.count;
      }
    }
    assert bytes[..offset] == bytes;
  }

  /** Sends the frame of a message. For a message without one the source throws before
      anything is sent, which is `thrown` here. */
  method SendMessage(socket: Socket, message: Message) returns (thrown: bool)
    modifies socket`sent, socket`interruptions, socket`sends
    ensures thrown <==> !Encodable(message)
    ensures socket.sent == old(socket.sent) + Frame(message)
  {
    hide Header;
    var encoded := EncodeMessage(message);
    if encoded.None? {
      return true;
    }
    SendAll(socket, encoded.value);
    return false;
  }

  /** Reads on until the bytes buffered hold a message or an error, or the stream ends. */
  method ReadMessage(socket: Socket, decoder: FrameDecoder) returns (r: ReadMessageResult)
    requires decoder.Valid()
    modifies socket`incoming, socket`received, socket`interruptions, socket`recvs, decoder
    ensures decoder.Valid()
    ensures var before := Parse(old(decoder.Pending() + socket.incoming));
            var after := Parse(decoder.Pending() + socket.incoming);
            match r
            case GotMessage(m) => before == after.(messages := [m] + after.messages)
            case Closed => before.messages == [] && before.error.None?
            case Rejected(e) => before.messages == [] && before.error == Some(e)
    ensures old(socket.recvs) <= socket.recvs
    ensures forall i :: |old(socket.recvs)| <= i < |socket.recvs| ==> socket.recvs[i].asked == 4096
    ensures r.Closed? <==> old(socket.recvs) < socket.recvs && socket.recvs[|socket.recvs| - 1].event.RecvClosed?
    ensures r.GotMessage? ==>
              |decoder.Pending() + socket.incoming| < |old(decoder.Pending() + socket.incoming)|
  {
    hide TryDecodeFrame, FrameDecoder.Valid, Store.Compacted;
    ghost var whole := decoder.Pending() + socket.incoming;
    while true
      invariant decoder.Valid()
      invariant decoder.Pending() + socket.incoming == whole
      invariant old(socket.recvs) <= socket.recvs
      invariant forall i :: |old(socket.recvs)| <= i < |socket.recvs| ==>
                  socket.recvs[i].asked == 4096 && !socket.recvs[i].event.RecvClosed?
      decreases |socket.incoming| + socket.interruptions
    {
      ghost var pending := decoder.Pending();
      VerdictIsStable(pending, socket.incoming);
      var result := decoder.Next();
      if result.Decoded? {
        assert whole[result.bytesConsumed..] == decoder.Pending() + socket.incoming;
        return GotMessage(result.message);
      }
      if result.Error? {
        return Rejected(result.error);
      }
      var e := socket.Recv(4096, true);
      match e
      case RecvInterrupted =>
      case RecvClosed =>
        assert whole == pending;
        return Closed;
      case Data(bytes) =>
        Associative(pending, bytes, socket.incoming);
        decoder.Append(bytes);
    }
  }

  /** The reference semantics: over the whole conversation the client is sent exactly the
      frames of the handler's responses to the messages of its input, in order. */
  method ServeClient(socket: Socket)
    modifies socket
    ensures socket.sent == old(socket.sent) + BlockingOutput(old(socket.incoming))
  {
    hide Parse, HandleRequest, FrameDecoder.Valid, FrameDecoder.View, ResponseStream, Frame;
    var decoder := new FrameDecoder();
    ghost var input := socket.incoming;
    ghost var served: seq<Message> := [];
    assert decoder.Pending() + socket.incoming == input;
    StartServing(input);
    EncodeAllParse(input);
    while true
      invariant decoder.Valid() && fresh(decoder)
      invariant Agrees(input, served, decoder.Pending() + socket.incoming)
      invariant socket.sent == old(socket.sent) + ResponseStream(HandleRequest, served)
      decreases |decoder.Pending() + socket.incoming|
    {
      ghost var now := decoder.Pending() + socket.incoming;
      var read := ReadMessage(socket, decoder);
      if !read.GotMessage? {
        assert served + [] == served;
        return;
      }
      ghost var later := Parse(decoder.Pending() + socket.incoming).messages;
      ghost var all := Parse(input).messages;
      assert all == (served + [read.message]) + later;
      assert Encodable(all[|served|]);
      ResponsesAreEncodable(read.message, m => None);
      var response := HandleRequest(read.message);
      var thrown := SendMessage(socket, response);
      assert !thrown;
      ResponseStreamSnoc(HandleRequest, served, read.message);
      Associative(old(socket.sent), ResponseStream(HandleRequest, served), Frame(response));
      served := served + [read.message];
    }
  }

  lemma StartServing(input: seq<Byte>)
    ensures Agrees(input, [], input)
    ensures ResponseStream(HandleRequest, []) == []
  {
    hide Parse;
    assert [] + Parse(input).messages == Parse(input).messages;
  }
}
