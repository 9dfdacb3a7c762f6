/**
  common/utility/private/common/Socket.cpp as far as byte streams go, and projector/TcpChannel.cpp:
  chunked delivery of what arrives, fragmentation of what is sent.
*/
module Tcp {
  import opened Basics
  import opened LengthPrefix
  import opened DataBuffers
  import opened StreamingParser

  const READING_BUF_SIZE: uint32 := 16
  const WRITING_BUF_SIZE: uint32 := 1316

  /** A connected socket, seen as the bytes of the peer that have not been read yet. */
  class SocketTcp {
    var incoming: seq<byte>

    constructor (stream: seq<byte>)
      ensures incoming == stream
    {
      incoming := stream;
    }

    /**
      Blocks for data and returns any non-empty part of it that fits.  `None` is an exception: nothing
      will arrive any more, or - since recv then returns 0, which is taken for an orderly shutdown -
      the caller asked for zero bytes.
    */
    method Recv(buffer: array<byte>, pos: nat, bufLen: nat) returns (count: Option<nat>)
      requires pos + bufLen <= buffer.Length
      modifies this, buffer
      ensures count.None? <==> bufLen == 0 || old(incoming) == []
      ensures count.None? ==> incoming == old(incoming) && buffer[..] == old(buffer[..])
      ensures count.Some? ==>
        && 1 <= count.value <= bufLen && count.value <= |old(incoming)|
        && incoming == old(incoming)[count.value..]
        && buffer[..] == old(buffer[..])[..pos] + old(incoming)[..count.value] + old(buffer[..])[pos + count.value..]
    {
      if bufLen == 0 || incoming == [] {
        return None;
      }
      var n :| 1 <= n <= bufLen && n <= |incoming|;
      forall i | 0 <= i < n {
        buffer[pos + i] := incoming[i];
      }
      incoming := incoming[n..];
      count := Some(n);
    }
  }

  /** The asynchronous socket writer, seen as the list of its WriteBytes calls. */
  class SocketWriter {
    var writes: seq<seq<byte>>

    constructor ()
      ensures writes == []
    {
      writes := [];
    }

    method WriteBytes(buffer: array<byte>, len: uint32)
      requires len as nat <= buffer.Length
      modifies this
      ensures writes == old(writes) + [buffer[..len]]
    {
      writes := writes + [buffer[..len]];
    }
  }

  /** A byte string cut into pieces of `size` bytes, the last one possibly shorter. */
  function Fragments(s: seq<byte>, size: nat): seq<seq<byte>>
    requires size > 0
  {
    if s == [] then []
    else [s[..Min(|s|, size)]] + Fragments(s[Min(|s|, size)..], size)
  }

  /** No byte is lost or moved ... */
  lemma {:induction false} FragmentsExact(s: seq<byte>, size: nat)
    requires size > 0
    ensures Flatten(Fragments(s, size)) == s
  {
    if s == [] {
    } else {
      var n := Min(|s|, size);
      FragmentsExact(s[n..], size);
      FlattenCons(s[..n], Fragments(s[n..], size));
      SplitAt(s, n);
    }
  }

  /** ... no piece is empty or longer than the buffer ... */
  lemma {:induction false} FragmentsFit(s: seq<byte>, size: nat)
    requires size > 0
    ensures forall w :: w in Fragments(s, size) ==> 0 < |w| <= size
  {
    if s == [] {
    } else {
      FragmentsFit(s[Min(|s|, size)..], size);
    }
  }

  /** ... and there are exactly as many as needed: |s| / size, rounded up. */
  lemma {:induction false} FragmentsCount(s: seq<byte>, size: nat)
    requires size > 0
    ensures |Fragments(s, size)| == (|s| + size - 1) / size
  {
    if s == [] {
      DivUnique(size - 1, size, 0, size - 1);
    } else {
      var n := Min(|s|, size);
      FragmentsCount(s[n..], size);
      DivStep(|s|, size);
    }
  }

  lemma DivStep(len: nat, size: nat)
    requires len > 0 && size > 0
    ensures (len + size - 1) / size == 1 + (len - Min(len, size) + size - 1) / size
  {
    if len <= size {
      DivUnique(len + size - 1, size, 1, len - 1);
      DivUnique(size - 1, size, 0, size - 1);
    } else {
      var q, r := (len - 1) / size, (len - 1) % size;
      assert len - 1 == q * size + r;
      assert (q + 1) * size == q * size + size;
      DivUnique(len + size - 1, size, q + 1, r);
      assert len - size + size - 1 == len - 1;
    }
  }

  lemma DivUnique(a: nat, b: nat, q: nat, r: nat)
    requires b > 0 && a == q * b + r && r < b
    ensures a / b == q
  {
    var d := a / b - q;
    assert d * b == (a / b) * b - q * b;
    MultipleApart(d, b);
  }

  lemma MultipleApart(d: int, b: int)
    requires b >= 0
    ensures d >= 1 ==> d * b >= b
    ensures d <= -1 ==> d * b <= -b
  {
    if d >= 1 {
      assert d * b == (d - 1) * b + b;
    } else if d <= -1 {
      assert d * b == (d + 1) * b - b;
    }
  }

  /** The writes of one Send, in numbers. */
  lemma SendWrites(s: seq<byte>)
    ensures Flatten(Fragments(s, WRITING_BUF_SIZE as nat)) == s
    ensures |Fragments(s, WRITING_BUF_SIZE as nat)| == (|s| + 1315) / 1316
    ensures forall w :: w in Fragments(s, WRITING_BUF_SIZE as nat) ==> 0 < |w| <= 1316
  {
    FragmentsExact(s, 1316);
    FragmentsCount(s, 1316);
    FragmentsFit(s, 1316);
  }

  class TcpChannel {
    const internalBuffer: DataBuffer
    const internalWritingBuffer: DataBuffer
    const socket: SocketTcp
    const writer: SocketWriter

    ghost predicate Valid()
      reads this, internalBuffer, internalWritingBuffer
    {
      && internalBuffer != internalWritingBuffer
      && internalBuffer.Valid() && internalBuffer.storage.Length == READING_BUF_SIZE as nat
      && internalWritingBuffer.Valid() && internalWritingBuffer.storage.Length == WRITING_BUF_SIZE as nat
      && internalBuffer.storage != internalWritingBuffer.storage
    }

    ghost function Footprint(): set<object>
      reads this, internalBuffer, internalWritingBuffer
    {
      {internalBuffer, internalBuffer.storage, internalWritingBuffer, internalWritingBuffer.storage, socket}
    }

    constructor (socket: SocketTcp)
      ensures Valid() && this.socket == socket
      ensures fresh(internalBuffer) && fresh(internalBuffer.storage)
      ensures fresh(internalWritingBuffer) && fresh(internalWritingBuffer.storage) && fresh(writer)
      ensures internalWritingBuffer.Contents() == [] && writer.writes == []
    {
      var reading := new DataBuffer();
      reading.SetBufferSizeLowerBound(READING_BUF_SIZE);
      var writing := new DataBuffer();
      writing.SetBufferSizeLowerBound(WRITING_BUF_SIZE);
      var w := new SocketWriter();
      this.socket := socket;
      internalBuffer, internalWritingBuffer, writer := reading, writing, w;
    }

    /** Despite the name of the buffer every round is flushed, so a call leaves nothing behind. */
    method Send(data: array<byte>, length: uint32)
      requires Valid() && length as nat <= data.Length
      requires internalWritingBuffer.Contents() == []
      requires data != internalWritingBuffer.storage
      modifies internalWritingBuffer, internalWritingBuffer.storage, writer
      ensures Valid() && internalWritingBuffer.storage == old(internalWritingBuffer.storage)
      ensures internalWritingBuffer.Contents() == []
      ensures writer.writes == old(writer.writes) + Fragments(data[..length], WRITING_BUF_SIZE as nat)
    {
      var pos: nat := 0;
      var dataLen := length;
      ghost var all := data[..length];
      while dataLen > 0
        invariant Valid() && internalWritingBuffer.storage == old(internalWritingBuffer.storage)
        invariant internalWritingBuffer.dataLength == 0
        invariant pos + dataLen as nat == length as nat && data[..length] == all
        invariant writer.writes + Fragments(all[pos..], WRITING_BUF_SIZE as nat)
               == old(writer.writes) + Fragments(all, WRITING_BUF_SIZE as nat)
      {
        var space := internalWritingBuffer.GetSpaceLeave();
        var canWrite := if dataLen < space then dataLen else space;
        var fits := internalWritingBuffer.AppendFrom(data, pos, canWrite);
        assert fits;
        assert internalWritingBuffer.Contents() == all[pos..pos + canWrite as nat];
        assert canWrite as nat == Min(|all[pos..]|, WRITING_BUF_SIZE as nat);
        assert all[pos..][canWrite..] == all[pos + canWrite as nat..];
        assert all[pos..][..canWrite] == all[pos..pos + canWrite as nat];
        pos := pos + canWrite as nat;
        dataLen := dataLen - canWrite;
        Flush();
      }
    }

    method Flush()
      requires Valid()
      modifies internalWritingBuffer`dataLength, writer
      ensures Valid() && internalWritingBuffer.dataLength == 0
      ensures writer.writes == old(writer.writes) +
        if old(internalWritingBuffer.dataLength) == 0 then [] else [old(internalWritingBuffer.Contents())]
    {
      if internalWritingBuffer.dataLength > 0 {
        writer.WriteBytes(internalWritingBuffer.storage, internalWritingBuffer.dataLength);
        internalWritingBuffer.Clear();
      }
    }

    /** One round of the reading thread, with the parser subscribed to the data event. */
    method Receive(parser: RdpStreamingParser, ghost seen: seq<byte>) returns (readCount: Option<nat>)
      requires Valid() && parser.Fed(seen) && Footprint() !! parser.Footprint()
      modifies socket, internalBuffer.storage, parser.Footprint()
      ensures Valid() && Footprint() == old(Footprint()) && fresh(parser.Footprint() - old(parser.Footprint()))
      ensures readCount.None? ==> socket.incoming == old(socket.incoming) == [] && parser.Fed(seen)
      ensures readCount.Some? ==>
        && 0 < readCount.value <= |old(socket.incoming)| && readCount.value <= 16
        && socket.incoming == old(socket.incoming)[readCount.value..]
        && parser.Fed(seen + old(socket.incoming)[..readCount.value])
    {
      readCount := socket.Recv(internalBuffer.storage, 0, internalBuffer.storage.Length);
      if readCount.Some? {
        assert internalBuffer.storage[..readCount.value] == old(socket.incoming)[..readCount.value];
        parser.Process(internalBuffer.storage, readCount.value as uint32, seen);
      }
    }

    /**
      The reading thread, which CanLoop lets run for `rounds` rounds unless the peer closes first.  Every
      round gets at least a byte; whatever has been read has been parsed, and chunk boundaries leave no trace.
    */
    method Workloop(parser: RdpStreamingParser, rounds: nat, ghost earlier: seq<byte>)
      requires Valid() && parser.Fed(earlier) && Footprint() !! parser.Footprint()
      modifies socket, internalBuffer.storage, parser.Footprint()
      ensures |socket.incoming| <= |old(socket.incoming)|
      ensures parser.Fed(earlier + old(socket.incoming)[..|old(socket.incoming)| - |socket.incoming|])
      ensures socket.incoming == old(socket.incoming)[|old(socket.incoming)| - |socket.incoming|..]
      ensures socket.incoming == [] || |old(socket.incoming)| - |socket.incoming| >= rounds
    {
      hide RdpStreamingParser.Fed;
      ghost var seen, taken := earlier, 0;
      ghost var stream := socket.incoming;
      var round := 0;
      while round < rounds
        invariant round <= rounds && round <= taken
        invariant Valid() && Footprint() == old(Footprint())
        invariant Footprint() !! parser.Footprint() && fresh(parser.Footprint() - old(parser.Footprint()))
        invariant 0 <= taken <= |stream| && socket.incoming == stream[taken..]
        invariant seen == earlier + stream[..taken] && parser.Fed(seen)
      {
        var readCount := Receive(parser, seen);
        if readCount.None? {
          break;
        }
        seen, taken := seen + stream[taken..][..readCount.value], taken + readCount.value;
        round := round + 1;
      }
    }
  }

  /** What the agent sends is what the projector's pipe is fed with, payload by payload. */
  lemma WholeStreamDelivered(ps: seq<Payload>)
    ensures Received(Flatten(EncodeAll(ps))) == ps && Pending(Flatten(EncodeAll(ps))) == []
  {
    ReceivedEncoded(ps, []);
    assert Flatten(EncodeAll(ps)) + [] == Flatten(EncodeAll(ps));
  }
}
