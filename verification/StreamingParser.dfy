/**
  projector/RdpStreamingParser.cpp: the incremental receiver of length-prefixed frames, over two
  buffers whose storage is also reached through the m_pHeader / m_pMessage overlays.
*/
module StreamingParser {
  import opened Basics
  import opened FrameStream
  import opened LengthPrefix
  import opened DataBuffers

  const MESSAGE_SIZE: uint32 := 8  // sizeof(RdpStreamingMessage): the length word and a 32-bit pointer

  datatype ParseStage = Header | Body

  /**
    The subscriber of the parsed-message event (projector/IRdpSource.cpp): it copies each payload into a new
    stream.
  */
  class StreamCollector {
    var streams: seq<seq<byte>>

    constructor ()
      ensures streams == []
    {
      streams := [];
    }

    /** `header` and `body` are the two words of the message the event passes by reference. */
    method OnMessage(header: array<byte>, body: array?<byte>)
      requires header.Length >= HEADER_SIZE
      requires WordAt(header[..HEADER_SIZE]) > 0 ==> body != null && WordAt(header[..HEADER_SIZE]) as nat <= body.Length
      modifies this
      ensures streams == old(streams) +
        [if WordAt(header[..HEADER_SIZE]) == 0 then [] else body[..WordAt(header[..HEADER_SIZE])]]
    {
      var size := WordAt(header[..HEADER_SIZE]);
      streams := streams + [if size == 0 then [] else body[..size]];
    }
  }

  lemma PrefixGrows(earlier: seq<byte>, bytes: seq<byte>, pos: nat, n: nat)
    requires pos + n <= |bytes|
    ensures (earlier + bytes[..pos]) + bytes[pos..pos + n] == earlier + bytes[..pos + n]
  {
  }

  class RdpStreamingParser {
    var stage: ParseStage
    const headerBuffer: DataBuffer
    const bodyBuffer: DataBuffer
    const pHeader: array<byte>      // m_pHeader and m_pMessage: the header buffer's storage, taken at construction
    var objectBody: array?<byte>    // m_pMessage->m_ObjectBody, the word behind the length word of that storage
    const sink: StreamCollector

    ghost function Footprint(): set<object>
      reads this, headerBuffer, bodyBuffer
    {
      {this, headerBuffer, headerBuffer.storage, bodyBuffer, bodyBuffer.storage, sink}
    }

    ghost predicate Wellformed()
      reads this, headerBuffer, bodyBuffer
    {
      && headerBuffer != bodyBuffer
      && headerBuffer.Valid() && bodyBuffer.Valid()
      && headerBuffer.storage != bodyBuffer.storage
      && pHeader == headerBuffer.storage && pHeader.Length == MESSAGE_SIZE as nat
    }

    /** The overlays point at live storage, and the two buffers hold one incomplete frame. */
    ghost predicate Valid()
      reads Footprint()
      reads this, headerBuffer, bodyBuffer
    {
      && Wellformed()
      && match stage
         case Header =>
           headerBuffer.dataLength < 4 && bodyBuffer.dataLength == 0
         case Body =>
           && headerBuffer.dataLength == 4
           && objectBody == bodyBuffer.storage
           && bodyBuffer.dataLength < WordAt(pHeader[..HEADER_SIZE])
           && WordAt(pHeader[..HEADER_SIZE]) as nat <= bodyBuffer.storage.Length
    }

    /** The bytes of the frame in progress. */
    ghost function Residual(): seq<byte>
      requires Wellformed()
      reads Footprint()
      reads this, headerBuffer, bodyBuffer
    {
      headerBuffer.Contents() + bodyBuffer.Contents()
    }

    constructor (sink: StreamCollector)
      ensures Valid() && Residual() == [] && this.sink == sink
      ensures fresh(Footprint() - {sink})
    {
      var header := new DataBuffer();
      header.SetBufferSizeLowerBound(MESSAGE_SIZE);
      var body := new DataBuffer();
      // growing allocates exactly the requested size here because the buffer was empty
      var storage := header.storage;
      this.sink := sink;
      stage := Header;
      headerBuffer := header;
      bodyBuffer := body;
      pHeader := storage;
      objectBody := null;
    }

    /** The header case of the receive loop. */
    method TakeHeader(data: array<byte>, pos: nat, len: uint32) returns (n: uint32)
      requires Valid() && stage == Header && data !in Footprint()
      requires 0 < len && pos + len as nat <= data.Length
      modifies Footprint()
      ensures Valid() && 0 < n <= len && n as nat == Min(len as nat, Need(old(Residual())))
      ensures Advances(old(Residual()) + data[pos..pos + n as nat], Residual(), old(sink.streams), sink.streams)
      ensures pHeader[HEADER_SIZE..] == old(pHeader[HEADER_SIZE..])
      ensures bodyBuffer.storage == old(bodyBuffer.storage) || fresh(bodyBuffer.storage)
    {
      ghost var before := Residual();
      var need := 4 - headerBuffer.dataLength;
      n := if len < need then len else need;
      var fits := headerBuffer.AppendFrom(data, pos, n);
      assert fits;
      ghost var frame := before + data[pos..pos + n as nat];
      assert Residual() == frame == headerBuffer.Contents();
      if headerBuffer.dataLength == 4 {
        assert frame == pHeader[..HEADER_SIZE] == frame[..HEADER_SIZE];
        if WordAt(pHeader[..HEADER_SIZE]) == 0 {
          assert frame[HEADER_SIZE..] == [];
          OnMessageParsed();
        } else {
          stage := Body;
          bodyBuffer.SetBufferSizeLowerBound(WordAt(pHeader[..HEADER_SIZE]));
          bodyBuffer.Clear();
          objectBody := bodyBuffer.storage;
        }
      }
    }

    /** The body case of the receive loop. */
    method TakeBody(data: array<byte>, pos: nat, len: uint32) returns (n: uint32)
      requires Valid() && stage == Body && data !in Footprint()
      requires 0 < len && pos + len as nat <= data.Length
      modifies Footprint()
      ensures Valid() && 0 < n <= len && n as nat == Min(len as nat, Need(old(Residual())))
      ensures Advances(old(Residual()) + data[pos..pos + n as nat], Residual(), old(sink.streams), sink.streams)
      ensures pHeader[HEADER_SIZE..] == old(pHeader[HEADER_SIZE..])
      ensures bodyBuffer.storage == old(bodyBuffer.storage)
    {
      ghost var before := Residual();
      var need := WordAt(pHeader[..HEADER_SIZE]) - bodyBuffer.dataLength;
      n := if len < need then len else need;
      var fits := bodyBuffer.AppendFrom(data, pos, n);
      assert fits;
      ghost var frame := before + data[pos..pos + n as nat];
      assert Residual() == frame;
      assert frame[..HEADER_SIZE] == pHeader[..HEADER_SIZE];
      if WordAt(pHeader[..HEADER_SIZE]) == bodyBuffer.dataLength {
        assert frame[HEADER_SIZE..] == bodyBuffer.Contents();
        OnMessageParsed();
      }
    }

    /** Both buffers are emptied before the event fires, yet the message it passes still shows the whole payload. */
    method OnMessageParsed()
      requires Wellformed()
      requires WordAt(pHeader[..HEADER_SIZE]) > 0 ==>
                 objectBody == bodyBuffer.storage && WordAt(pHeader[..HEADER_SIZE]) as nat <= bodyBuffer.storage.Length
      modifies this`stage, headerBuffer`dataLength, bodyBuffer`dataLength, sink
      ensures Valid() && stage == Header && Residual() == []
      ensures sink.streams == old(sink.streams) + [old(bodyBuffer.storage[..WordAt(pHeader[..HEADER_SIZE])])]
    {
      stage := Header;
      headerBuffer.Clear();
      bodyBuffer.Clear();
      sink.OnMessage(pHeader, objectBody);
    }

    /** The parser has been fed exactly `seen`: its callbacks and its residue are those of the reference decoder. */
    ghost predicate Fed(seen: seq<byte>)
      reads Footprint()
      reads this, headerBuffer, bodyBuffer
    {
      Valid() && Residual() == Pending(seen) && sink.streams == Received(seen)
    }

    /**
      One pass of the receive loop, seen from the stream: it takes at least one byte, and at most one frame ends
      with it.
    */
    method Pass(data: array<byte>, pos: nat, len: uint32, ghost seen: seq<byte>) returns (n: uint32)
      requires Fed(seen) && data !in Footprint()
      requires 0 < len && pos + len as nat <= data.Length
      modifies Footprint()
      ensures 0 < n <= len && n as nat == Min(len as nat, Need(Pending(seen)))
      ensures Fed(seen + data[pos..pos + n as nat])
      ensures pHeader[HEADER_SIZE..] == old(pHeader[HEADER_SIZE..])
      ensures headerBuffer.storage == old(headerBuffer.storage)
      ensures bodyBuffer.storage == old(bodyBuffer.storage) || fresh(bodyBuffer.storage)
    {
      hide Advances, Pending, Received;
      ghost var residue, delivered := Residual(), sink.streams;
      match stage {
        case Header => n := TakeHeader(data, pos, len);
        case Body => n := TakeBody(data, pos, len);
      }
      ghost var chunk := data[pos..pos + n as nat];
      assert Advances(residue + chunk, Residual(), delivered, sink.streams);
      ReceivedStep(seen, chunk, Residual(), sink.streams);
    }

    /**
      The receive loop.  Whatever way the stream is cut into calls, after each call exactly the payloads
      of the frames completed so far have been delivered, in order, and the rest is held back.
    */
    method Process(data: array<byte>, length: uint32, ghost earlier: seq<byte>)
      requires Fed(earlier) && data !in Footprint() && length as nat <= data.Length
      modifies Footprint()
      ensures Fed(earlier + data[..length])
      ensures pHeader[HEADER_SIZE..] == old(pHeader[HEADER_SIZE..])
      ensures bodyBuffer.storage == old(bodyBuffer.storage) || fresh(bodyBuffer.storage)
    {
      var pos: nat := 0;
      var len := length;
      ghost var seen, bytes := earlier, data[..];
      assert pHeader.Length >= HEADER_SIZE;
      hide Fed, Valid, Wellformed, Residual, Need, Pending, Received, WordAt;
      while len > 0
        invariant Fed(seen) && data !in Footprint()
        invariant headerBuffer.storage == old(headerBuffer.storage)
        invariant bodyBuffer.storage == old(bodyBuffer.storage) || fresh(bodyBuffer.storage)
        invariant pos + len as nat == length as nat
        invariant data[..] == bytes && seen == earlier + bytes[..pos]
        invariant pHeader[HEADER_SIZE..] == old(pHeader[HEADER_SIZE..])
      {
        var n := Pass(data, pos, len, seen);
        PrefixGrows(earlier, bytes, pos, n as nat);
        seen := seen + bytes[pos..pos + n as nat];
        pos := pos + n as nat;
        len := len - n;
      }
    }
  }
}
