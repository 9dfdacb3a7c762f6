/**
  The agent's side of the reverse direction: readers that reassemble fixed-size records
  (redirector-client/HIDSocketReader.cpp, TouchAndPenMsgReader.cpp).
*/
module SocketReaders {
  import opened Basics
  import opened FrameStream
  import opened LengthPrefix
  import opened Tcp

  // --- fixed-size records -----------------------------------------------------------------------

  function RecordCut(size: nat): seq<byte> -> nat {
    (s: seq<byte>) => if |s| < size then 0 else size
  }

  lemma RecordCutStable(size: nat)
    ensures Stable(RecordCut(size))
  {
  }

  /** The consecutive whole records of a byte stream. */
  ghost function Records(size: nat, s: seq<byte>): seq<seq<byte>> {
    RecordCutStable(size);
    Decode(RecordCut(size), s).frames
  }

  ghost function PartialRecord(size: nat, s: seq<byte>): seq<byte> {
    RecordCutStable(size);
    Decode(RecordCut(size), s).rest
  }

  lemma RecordStep(size: nat, seen: seq<byte>, chunk: seq<byte>)
    requires |PartialRecord(size, seen)| + |chunk| <= size && size > 0
    ensures |PartialRecord(size, seen)| + |chunk| < size ==>
      && Records(size, seen + chunk) == Records(size, seen)
      && PartialRecord(size, seen + chunk) == PartialRecord(size, seen) + chunk
    ensures |PartialRecord(size, seen)| + |chunk| == size ==>
      && Records(size, seen + chunk) == Records(size, seen) + [PartialRecord(size, seen) + chunk]
      && PartialRecord(size, seen + chunk) == []
  {
    RecordCutStable(size);
    DecodeAppend(RecordCut(size), seen, chunk);
    DecodeOne(RecordCut(size), PartialRecord(size, seen) + chunk);
    assert Records(size, seen) + [] == Records(size, seen);
  }

  /** The writes of a sender that calls TcpChannel::Send once per record. */
  function SendEach(records: seq<seq<byte>>): seq<seq<byte>> {
    if records == [] then [] else Fragments(records[0], WRITING_BUF_SIZE as nat) + SendEach(records[1..])
  }

  lemma {:induction false} SendEachExact(records: seq<seq<byte>>)
    ensures Flatten(SendEach(records)) == Flatten(records)
  {
    if records == [] {
    } else {
      FragmentsExact(records[0], WRITING_BUF_SIZE as nat);
      FlattenAppend(Fragments(records[0], WRITING_BUF_SIZE as nat), SendEach(records[1..]));
      SendEachExact(records[1..]);
    }
  }

  /** Records sent one by one, each in as many writes as it takes, are what a reader delivers. */
  lemma RecordsRoundTrip(size: nat, records: seq<seq<byte>>)
    requires size > 0 && forall r :: r in records ==> |r| == size
    ensures Records(size, Flatten(SendEach(records))) == records
    ensures PartialRecord(size, Flatten(SendEach(records))) == []
  {
    SendEachExact(records);
    RecordCutStable(size);
    DecodeEncoded(RecordCut(size), records, []);
    DecodeOne(RecordCut(size), []);
    assert Flatten(records) + [] == Flatten(records);
    assert records + [] == records;
  }

  /** One Recv of a reassembly loop that holds the partial record `buf[..len]` and asks for the missing bytes. */
  method ReceiveInto(socket: SocketTcp, buf: array<byte>, len: nat, ghost seen: seq<byte>) returns (count: Option<nat>)
    requires len < buf.Length && buf[..len] == PartialRecord(buf.Length, seen)
    modifies socket, buf
    ensures count.Some? ==> 0 < count.value <= |old(socket.incoming)| && len + count.value <= buf.Length
    ensures socket.incoming == if count.None? then old(socket.incoming) else old(socket.incoming)[count.value..]
    ensures count.None? ==> buf[..] == old(buf[..]) && socket.incoming == []
    ensures count.Some? ==>
      var now := seen + old(socket.incoming)[..count.value];
      if len + count.value < buf.Length then
        Records(buf.Length, now) == Records(buf.Length, seen)
          && PartialRecord(buf.Length, now) == buf[..len + count.value]
      else
        Records(buf.Length, now) == Records(buf.Length, seen) + [buf[..]] && PartialRecord(buf.Length, now) == []
  {
    count := socket.Recv(buf, len, buf.Length - len);
    if count.Some? {
      ghost var chunk := old(socket.incoming)[..count.value];
      assert buf[..len + count.value] == PartialRecord(buf.Length, seen) + chunk;
      RecordStep(buf.Length, seen, chunk);
      assert len + count.value == buf.Length ==> buf[..len + count.value] == buf[..];
    }
  }

  const PT_TOUCH: uint32 := 2
  const PT_PEN: uint32 := 3

  datatype InputEvent = HidData(record: seq<byte>) | TouchFrame(record: seq<byte>) | PenFrame(record: seq<byte>)

  /** The two readers differ in what they do with a full buffer; `typeAt` is where pointers[0].pointerType lies. */
  datatype Handler = Hid | Pointer(typeAt: nat)

  function Dispatch(h: Handler, record: seq<byte>): seq<InputEvent> {
    match h
    case Hid => [HidData(record)]
    case Pointer(typeAt) =>
      if |record| < typeAt + HEADER_SIZE then []
      else if WordAt(record[typeAt..]) == PT_TOUCH then [TouchFrame(record)]
      else if WordAt(record[typeAt..]) == PT_PEN then [PenFrame(record)]
      else []
  }

  function DispatchAll(h: Handler, records: seq<seq<byte>>): seq<InputEvent> {
    if records == [] then []
    else DispatchAll(h, records[..|records| - 1]) + Dispatch(h, records[|records| - 1])
  }

  lemma DispatchSnoc(h: Handler, earlier: seq<InputEvent>, records: seq<seq<byte>>, record: seq<byte>)
    ensures earlier + DispatchAll(h, records + [record]) == (earlier + DispatchAll(h, records)) + Dispatch(h, record)
  {
    ConcatAssociates(earlier, DispatchAll(h, records), Dispatch(h, record));
    assert (records + [record])[..|records|] == records;
  }

  lemma NoRecordsYet(size: nat, h: Handler, earlier: seq<InputEvent>)
    requires size > 0
    ensures Records(size, []) == [] && PartialRecord(size, []) == []
    ensures earlier == earlier + DispatchAll(h, Records(size, []))
  {
    RecordCutStable(size);
    DecodeOne(RecordCut(size), []);
  }

  /** Mouse and keyboard records all reach the handler, one event each, unchanged and in order. */
  lemma {:induction false} HidDeliversAll(records: seq<seq<byte>>)
    ensures |DispatchAll(Hid, records)| == |records|
    ensures forall i :: 0 <= i < |records| ==> DispatchAll(Hid, records)[i] == HidData(records[i])
  {
    if records == [] {
    } else {
      HidDeliversAll(records[..|records| - 1]);
    }
  }

  /** The records whose pointer type is the given word, in order. */
  function OfType(records: seq<seq<byte>>, typeAt: nat, word: uint32): seq<seq<byte>> {
    if records == [] then []
    else
      var last := records[|records| - 1];
      OfType(records[..|records| - 1], typeAt, word)
      + if |last| >= typeAt + HEADER_SIZE && WordAt(last[typeAt..]) == word then [last] else []
  }

  function TouchRecords(events: seq<InputEvent>): seq<seq<byte>> {
    if events == [] then []
    else
      var last := events[|events| - 1];
      TouchRecords(events[..|events| - 1]) + if last.TouchFrame? then [last.record] else []
  }

  function PenRecords(events: seq<InputEvent>): seq<seq<byte>> {
    if events == [] then []
    else
      var last := events[|events| - 1];
      PenRecords(events[..|events| - 1]) + if last.PenFrame? then [last.record] else []
  }

  /** The events come in the order of their records, and each is of its record's kind. */
  ghost predicate FromRecords(events: seq<InputEvent>, records: seq<seq<byte>>, typeAt: nat) {
    if records == [] then events == []
    else
      var record := records[|records| - 1];
      var word := if |record| >= typeAt + HEADER_SIZE then WordAt(record[typeAt..]) else 0;
      if word == 2 || word == 3 then
        && events != []
        && events[|events| - 1] == (if word == 2 then TouchFrame(record) else PenFrame(record))
        && FromRecords(events[..|events| - 1], records[..|records| - 1], typeAt)
      else FromRecords(events, records[..|records| - 1], typeAt)
  }

  lemma AppendEvent(events: seq<InputEvent>, e: InputEvent)
    ensures TouchRecords(events + [e]) == TouchRecords(events) + if e.TouchFrame? then [e.record] else []
    ensures PenRecords(events + [e]) == PenRecords(events) + if e.PenFrame? then [e.record] else []
  {
    assert (events + [e])[..|events|] == events;
  }

  /**
    Touch frames are exactly the records of pointer type 2, pen frames those of type 3, unchanged and in
    order; records of any other type lead to nothing.
  */
  lemma {:induction false} PointerDeliversByType(typeAt: nat, records: seq<seq<byte>>)
    ensures TouchRecords(DispatchAll(Pointer(typeAt), records)) == OfType(records, typeAt, 2)
    ensures PenRecords(DispatchAll(Pointer(typeAt), records)) == OfType(records, typeAt, 3)
    ensures FromRecords(DispatchAll(Pointer(typeAt), records), records, typeAt)
    ensures forall e :: e in DispatchAll(Pointer(typeAt), records) ==> !e.HidData?
  {
    if records == [] {
    } else {
      var earlier, record := records[..|records| - 1], records[|records| - 1];
      PointerDeliversByType(typeAt, earlier);
      var before, now := DispatchAll(Pointer(typeAt), earlier), Dispatch(Pointer(typeAt), record);
      if |now| == 1 {
        AppendEvent(before, now[0]);
        assert (before + now)[..|before|] == before;
        assert now == [now[0]];
      } else {
        assert before + now == before;
      }
      hide WordAt;
    }
  }

  /** HIDSocketReader and TouchAndPenMsgReader: the same loop over a buffer of one record. */
  class RecordReader {
    const socket: SocketTcp
    const recordSize: nat
    const handler: Handler
    var delivered: seq<InputEvent>

    constructor (socket: SocketTcp, recordSize: nat, handler: Handler)
      ensures this.socket == socket && this.recordSize == recordSize && this.handler == handler && delivered == []
    {
      this.socket, this.recordSize, this.handler, delivered := socket, recordSize, handler, [];
    }

    /** What has been handed to the handlers and what sits in the buffer, given all bytes `seen` so far. */
    ghost predicate Holds(buf: array<byte>, len: nat, earlier: seq<InputEvent>, seen: seq<byte>)
      reads this, buf
    {
      && buf.Length == recordSize && len < recordSize
      && buf[..len] == PartialRecord(recordSize, seen)
      && delivered == earlier + DispatchAll(handler, Records(recordSize, seen))
    }

    /** One pass of the loop: a full buffer goes to its handler and is wiped. */
    method Pass(buf: array<byte>, length: nat, ghost earlier: seq<InputEvent>, ghost seen: seq<byte>)
      returns (count: Option<nat>, len: nat)
      requires Holds(buf, length, earlier, seen)
      modifies this, socket, buf
      ensures count.None? ==> socket.incoming == old(socket.incoming) == [] && Holds(buf, length, earlier, seen)
      ensures count.Some? ==>
        && 0 < count.value <= |old(socket.incoming)| && socket.incoming == old(socket.incoming)[count.value..]
        && Holds(buf, len, earlier, seen + old(socket.incoming)[..count.value])
    {
      hide Records, PartialRecord, DispatchAll, Dispatch;
      len := length;
      count := ReceiveInto(socket, buf, len, seen);
      if count.Some? {
        len := len + count.value;
        if len == recordSize {
          DispatchSnoc(handler, earlier, Records(recordSize, seen), buf[..]);
          delivered := delivered + Dispatch(handler, buf[..]);
          len := 0;
          forall i | 0 <= i < buf.Length { buf[i] := 0; }
        }
      } else {
        assert buf[..len] == buf[..][..len] == old(buf[..])[..len];
      }
    }

    /**
      For every chunking, exactly the consecutive whole records of the bytes read have been handled.  The
      reader is stopped after some rounds, each of which gets at least a byte, unless the peer closes first.
    */
    method Workloop(rounds: nat)
      requires recordSize > 0
      modifies this, socket
      ensures |socket.incoming| <= |old(socket.incoming)|
      ensures socket.incoming == old(socket.incoming)[|old(socket.incoming)| - |socket.incoming|..]
      ensures delivered == old(delivered) +
        DispatchAll(handler, Records(recordSize, old(socket.incoming)[..|old(socket.incoming)| - |socket.incoming|]))
      ensures socket.incoming == [] || |old(socket.incoming)| - |socket.incoming| >= rounds
    {
      hide Records, PartialRecord, DispatchAll;
      NoRecordsYet(recordSize, handler, delivered);
      var buf := new byte[recordSize];
      var len := 0;
      ghost var stream, taken, seen := socket.incoming, 0, [];
      var round := 0;
      while round < rounds
        invariant round <= rounds && round <= taken
        invariant 0 <= taken <= |stream| && socket.incoming == stream[taken..] && seen == stream[..taken]
        invariant Holds(buf, len, old(delivered), seen)
      {
        var lentemp, len' := Pass(buf, len, old(delivered), seen);
        if lentemp.None? {
          break;
        }
        len := len';
        seen, taken := seen + stream[taken..][..lentemp.value], taken + lentemp.value;
        round := round + 1;
      }
    }
  }
}
