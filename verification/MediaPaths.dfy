/**
  The objects of the media path together - socket, parser, pipe and sink of projector/TcpChannel.cpp,
  RdpStreamingParser.cpp, IRdpSource.cpp and D2DRender.cpp - scheduled in any way: what they do is a run of
  module Pipeline, so its results hold of the objects.
*/
module MediaPaths {
  import opened Basics
  import opened LengthPrefix
  import opened PipeMonitor
  import opened StreamingParser
  import opened Tcp
  import opened Pipeline

  /** What one pass of the parser comes to, in terms of the frame in progress. */
  lemma PassExact(parsed: seq<byte>, chunk: seq<byte>)
    requires |chunk| <= Need(LengthPrefix.Pending(parsed))
    ensures var frame := LengthPrefix.Pending(parsed) + chunk;
      if FrameCut(frame) > 0 then
        |frame| >= HEADER_SIZE && LengthPrefix.Pending(parsed + chunk) == []
        && Received(parsed + chunk) == Received(parsed) + [frame[HEADER_SIZE..]]
      else LengthPrefix.Pending(parsed + chunk) == frame && Received(parsed + chunk) == Received(parsed)
  {
    NeedExact(parsed, chunk);
    var frame := LengthPrefix.Pending(parsed) + chunk;
    hide LengthPrefix.Pending, Received, Need;
    if FrameCut(frame) > 0 {
      ReceivedStep(parsed, chunk, [], Received(parsed) + [frame[HEADER_SIZE..]]);
    } else {
      ReceivedStep(parsed, chunk, frame, Received(parsed));
    }
  }

  method NewParser() returns (p: RdpStreamingParser)
    ensures fresh(p.Footprint()) && p.Fed([]) && p.Residual() == []
  {
    var collector := new StreamCollector();
    p := new RdpStreamingParser(collector);
    NothingReceived();
    hide Received, LengthPrefix.Pending;
  }

  /** The frame in progress is complete, and its payload comes out, or it is kept. */
  ghost predicate Passed(frame: seq<byte>, payload: Option<Stream>, residue: seq<byte>) {
    if FrameCut(frame) > 0 then |frame| >= HEADER_SIZE && payload == Some(frame[HEADER_SIZE..]) && residue == []
    else payload == None && residue == frame
  }

  lemma ParseNext(s: State, t: State, n: nat, payload: Option<Stream>)
    requires s.reader.Parsing? && s.todo != [] && 0 < n <= |s.todo| && n == Min(|s.todo|, Need(s.residue))
    requires Passed(s.residue + s.todo[..n], payload, t.residue)
    requires t == s.(parsed := s.parsed + s.todo[..n], todo := s.todo[n..], residue := t.residue,
                     reader := if payload.Some? then Pushing(payload.value) else Parsing)
    ensures Pipeline.Enabled(s, Parse) && t == Pipeline.Next(s, Parse)
  {
    hide FrameCut, Need;
  }

  /** A pass of the parser on its own: the bytes taken, and the payload that they complete, if any. */
  method PassOn(parser: RdpStreamingParser, data: array<byte>, pos: nat, len: uint32, ghost parsed: seq<byte>)
    returns (n: uint32, payload: Option<Stream>)
    requires parser.Fed(parsed) && data !in parser.Footprint() && 0 < len && pos + len as nat <= data.Length
    modifies parser.Footprint()
    ensures fresh(parser.Footprint() - old(parser.Footprint()))
    ensures 0 < n <= len && n as nat == Min(len as nat, Need(old(parser.Residual())))
    ensures parser.Fed(parsed + data[pos..pos + n as nat])
    ensures Passed(old(parser.Residual()) + data[pos..pos + n as nat], payload, parser.Residual())
  {
    hide Received, LengthPrefix.Pending, WordAt, Need, FrameCut;
    var before := |parser.sink.streams|;
    n := parser.Pass(data, pos, len, parsed);
    PassExact(parsed, data[pos..pos + n as nat]);
    payload := if |parser.sink.streams| > before then Some(parser.sink.streams[before]) else None;
  }

  lemma TakeBytes(bytes: seq<byte>, pos: nat, len: nat, n: nat)
    requires pos + len <= |bytes| && n <= len
    ensures bytes[pos..pos + len][..n] == bytes[pos..pos + n]
    ensures bytes[pos..pos + len][n..] == bytes[pos + n..pos + len]
  {
  }

  /** The sink goes on to decode what its pop returns, and stays where it is while it has to wait. */
  lemma PopNext(s: State, e: Event)
    requires (e.EnterPop? || e.ResumePop?) && Pipeline.Enabled(s, e)
    ensures
      var move := if e.EnterPop? then PipeMonitor.Pop(e.k) else PopWoken(e.k);
      var waits := !s.pipe.cancelled && s.pipe.queue == [];
      && PipeMonitor.Enabled(PIPE_SIZE, 1, s.pipe, move)
      && (waits || s.pipe.queue != [])
      && Pipeline.Next(s, e) == s.(
        pipe := PipeMonitor.Step(PIPE_SIZE, 1, s.pipe, move),
        sink := if waits then s.sink else Decoding(s.pipe.queue[0]))
  {
  }

  class MediaPath {
    const socket: SocketTcp
    const buffer: array<byte>         // m_InternalBuffer
    const parser: RdpStreamingParser
    const pipe: SharedPipe<Stream>
    var pos: nat                      // the part of the buffer that is still to be parsed
    var len: nat
    var reader: Reader
    var sink: Sink
    var delivered: seq<Stream>
    ghost var parsed: seq<byte>

    ghost predicate Valid()
      reads this, buffer, parser, parser.headerBuffer, parser.bodyBuffer, parser.Footprint()
    {
      && buffer.Length == READING_BUF_SIZE as nat && pos + len <= buffer.Length
      && parser.Fed(parsed)
      && this !in parser.Footprint() && socket !in parser.Footprint()
      && buffer !in parser.Footprint() && pipe !in parser.Footprint()
      && pipe.size == PIPE_SIZE
    }

    ghost function View(): State
      requires Valid()
      reads this, socket, buffer, pipe, parser, parser.headerBuffer, parser.bodyBuffer, parser.Footprint()
    {
      State(socket.incoming, buffer[pos..pos + len], parsed, parser.Residual(), reader, pipe.View(), sink, delivered)
    }

    constructor (input: seq<byte>)
      ensures Valid() && View() == Pipeline.Start(input)
      ensures fresh(socket) && fresh(buffer) && fresh(pipe) && fresh(parser.Footprint())
    {
      hide RdpStreamingParser.Fed, RdpStreamingParser.Residual;
      socket := new SocketTcp(input);
      buffer := new byte[READING_BUF_SIZE as nat];
      pipe := new SharedPipe(PIPE_SIZE);
      var p := NewParser();
      parser := p;
      pos, len, reader, sink, delivered, parsed := 0, 0, Parsing, Popping, [], [];
    }

    /** TcpChannel's receive. */
    method ReceiveChunk() returns (ghost n: nat)
      requires Valid() && reader.Parsing? && len == 0 && socket.incoming != []
      modifies this`pos, this`len, socket, buffer
      ensures Valid() && Pipeline.Enabled(old(View()), Recv(n)) && View() == Pipeline.Next(old(View()), Recv(n))
    {
      hide RdpStreamingParser.Fed;
      var count := socket.Recv(buffer, 0, buffer.Length);
      pos, len := 0, count.value;
      n := count.value;
    }

    /** The parser has taken bytes, and may have completed a payload, which the reader goes on to push. */
    method Advance(n: nat, payload: Option<Stream>)
      requires 0 < n <= len && pos + len <= buffer.Length == READING_BUF_SIZE as nat && pipe.size == PIPE_SIZE
      requires parser.Fed(parsed + buffer[pos..pos + n])
      requires this !in parser.Footprint() && socket !in parser.Footprint()
      requires buffer !in parser.Footprint() && pipe !in parser.Footprint()
      modifies this`pos, this`len, this`reader, this`parsed
      ensures Valid() && parser.Footprint() == old(parser.Footprint()) && parser.Residual() == old(parser.Residual())
      ensures pos == old(pos) + n && len == old(len) - n && parsed == old(parsed + buffer[pos..pos + n])
      ensures reader == if payload.Some? then Pushing(payload.value) else old(reader)
    {
      hide RdpStreamingParser.Fed, RdpStreamingParser.Residual;
      parsed := parsed + buffer[pos..pos + n];
      pos, len := pos + n, len - n;
      if payload.Some? {
        reader := Pushing(payload.value);
      }
    }

    /** A pass of the parser; a payload that it completes is what the reader pushes next. */
    method ParseSome()
      requires Valid() && reader.Parsing? && len > 0
      modifies this`pos, this`len, this`reader, this`parsed, parser.Footprint()
      ensures Valid() && fresh(parser.Footprint() - old(parser.Footprint()))
      ensures Pipeline.Enabled(old(View()), Parse) && View() == Pipeline.Next(old(View()), Parse)
    {
      hide RdpStreamingParser.Fed, RdpStreamingParser.Residual, Passed, Need, Pipeline.Next, Pipeline.Enabled;
      ghost var bytes, was := buffer[..], View();
      var n, payload := PassOn(parser, buffer, pos, len as uint32, parsed);
      TakeBytes(bytes, pos, len, n as nat);
      assert buffer[..] == bytes;
      assert was.todo == bytes[pos..pos + len];
      assert buffer[pos..pos + n as nat] == bytes[pos..pos + n as nat];
      Advance(n as nat, payload);
      assert View().todo == was.todo[n..];
      ParseNext(was, View(), n as nat, payload);
    }

    /** IRdpSource's push: from the call to the return or to the wait, and from being woken. */
    method PushPayload(k: Pick)
      requires Valid() && Pipeline.Enabled(View(), EnterPush(k))
      modifies this`reader, pipe
      ensures Valid() && View() == Pipeline.Next(old(View()), EnterPush(k))
    {
      hide RdpStreamingParser.Fed;
      var returned := pipe.Push(1, READER, reader.payload, k);
      if returned {
        reader := if READER in pipe.waiting then reader else Parsing;
      }
    }

    method ResumePush(k: Pick)
      requires Valid() && Pipeline.Enabled(View(), Event.ResumePush(k)) && Fifo(PIPE_SIZE, 1, pipe.View())
      modifies this`reader, pipe
      ensures Valid() && View() == Pipeline.Next(old(View()), Event.ResumePush(k))
    {
      hide RdpStreamingParser.Fed;
      var returned := pipe.PushWoken(1, READER, k);
      reader := if READER in pipe.waiting then reader else Parsing;
    }

    /** D2DRender's pop and decode. */
    method PopStream(k: Pick)
      requires Valid()
      requires if pipe.consumer.Outside? then Pipeline.Enabled(View(), EnterPop(k))
        else Pipeline.Enabled(View(), ResumePop(k))
      modifies this`sink, pipe
      ensures Valid()
      ensures View() == Pipeline.Next(old(View()), if old(pipe.consumer).Outside? then EnterPop(k) else ResumePop(k))
    {
      hide RdpStreamingParser.Fed, RdpStreamingParser.Residual, Pipeline.Next;
      ghost var was := View();
      PopNext(was, if pipe.consumer.Outside? then EnterPop(k) else ResumePop(k));
      var result := pipe.Pop(1, k);
      if result.Some? {
        sink := Decoding(result.value);
      }
    }

    method DecodeStream()
      requires Valid() && sink.Decoding?
      modifies this`sink, this`delivered
      ensures Valid() && View() == Pipeline.Next(old(View()), Decode)
    {
      hide RdpStreamingParser.Fed;
      if |sink.stream| > 1 {
        delivered := delivered + [sink.stream];
      }
      sink := Popping;
    }

    method WakeForNothing(who: Pick)
      requires Valid() && Pipeline.Enabled(View(), Event.WakeForNothing(who))
      modifies pipe
      ensures Valid() && View() == Pipeline.Next(old(View()), Event.WakeForNothing(who))
    {
      hide RdpStreamingParser.Fed;
      pipe.NotifyOne(who);
    }
  }

  // --- any schedule ---------------------------------------------------------------------------------------

  /** Whose turn it is, and whom a notification wakes; a thread that cannot move passes. */
  datatype Turn = ReaderTurn(k: Pick) | SinkTurn(k: Pick) | WakeTurn(who: Pick)

  method ReaderMoves(path: MediaPath, k: Pick) returns (ghost e: Option<Event>)
    requires path.Valid() && Fifo(PIPE_SIZE, 1, path.pipe.View())
    modifies path, path.socket, path.buffer, path.pipe, path.parser.Footprint()
    ensures path.Valid() && fresh(path.parser.Footprint() - old(path.parser.Footprint()))
    ensures e.None? ==> path.View() == old(path.View())
    ensures e.Some? ==>
      Pipeline.Enabled(old(path.View()), e.value) && path.View() == Pipeline.Next(old(path.View()), e.value)
  {
    hide MediaPath.Valid, Pipeline.Next, Fifo;
    e := None;
    if path.reader.Pushing? {
      if PipeMonitor.Enabled(PIPE_SIZE, 1, path.pipe.View(), PipeMonitor.PushWoken(READER, k)) {
        path.ResumePush(k);
        e := Some(Event.ResumePush(k));
      } else if PipeMonitor.Enabled(PIPE_SIZE, 1, path.pipe.View(), PipeMonitor.Push(READER, path.reader.payload, k)) {
        path.PushPayload(k);
        e := Some(EnterPush(k));
      }
    } else if path.len > 0 {
      path.ParseSome();
      e := Some(Parse);
    } else if path.socket.incoming != [] {
      ghost var n := path.ReceiveChunk();
      e := Some(Recv(n));
    }
  }

  method SinkMoves(path: MediaPath, k: Pick) returns (ghost e: Option<Event>)
    requires path.Valid()
    modifies path`sink, path`delivered, path.pipe
    ensures path.Valid() && path.parser.Footprint() == old(path.parser.Footprint())
    ensures e.None? ==> path.View() == old(path.View())
    ensures e.Some? ==>
      Pipeline.Enabled(old(path.View()), e.value) && path.View() == Pipeline.Next(old(path.View()), e.value)
  {
    hide MediaPath.Valid, Pipeline.Next;
    e := None;
    if path.sink.Decoding? {
      path.DecodeStream();
      e := Some(Decode);
    } else if PipeMonitor.Enabled(PIPE_SIZE, 1, path.pipe.View(), PipeMonitor.Pop(k)) {
      path.PopStream(k);
      e := Some(EnterPop(k));
    } else if PipeMonitor.Enabled(PIPE_SIZE, 1, path.pipe.View(), PipeMonitor.PopWoken(k)) {
      path.PopStream(k);
      e := Some(ResumePop(k));
    }
  }

  method WakeMoves(path: MediaPath, who: Pick) returns (ghost e: Option<Event>)
    requires path.Valid()
    modifies path.pipe
    ensures path.Valid() && path.parser.Footprint() == old(path.parser.Footprint())
    ensures e.None? ==> path.View() == old(path.View())
    ensures e.Some? ==>
      Pipeline.Enabled(old(path.View()), e.value) && path.View() == Pipeline.Next(old(path.View()), e.value)
  {
    hide MediaPath.Valid, Pipeline.Next;
    e := None;
    if PipeMonitor.Enabled(PIPE_SIZE, 1, path.pipe.View(), PipeMonitor.Spurious(who)) {
      path.WakeForNothing(who);
      e := Some(Event.WakeForNothing(who));
    }
  }

  method TakeTurn(path: MediaPath, turn: Turn, ghost input: seq<byte>) returns (ghost e: Option<Event>)
    requires path.Valid() && Inv(input, path.View())
    modifies path, path.socket, path.buffer, path.pipe, path.parser.Footprint()
    ensures path.Valid() && fresh(path.parser.Footprint() - old(path.parser.Footprint()))
    ensures e.None? ==> path.View() == old(path.View())
    ensures e.Some? ==>
      Pipeline.Enabled(old(path.View()), e.value) && path.View() == Pipeline.Next(old(path.View()), e.value)
    ensures Inv(input, path.View())
  {
    assert Fifo(PIPE_SIZE, 1, path.pipe.View());
    hide MediaPath.Valid, Pipeline.Next, Pipeline.Enabled, Inv, Fifo;
    ghost var was := path.View();
    match turn {
      case ReaderTurn(k) => e := ReaderMoves(path, k);
      case SinkTurn(k) => e := SinkMoves(path, k);
      case WakeTurn(who) => e := WakeMoves(path, who);
    }
    if e.Some? {
      InvStep(input, was, e.value);
    }
  }

  /** One more turn in a run. */
  lemma OneMoreTurn(s: State, events: seq<Event>, t: State, e: Option<Event>, u: State)
    requires Pipeline.Run(s, events, t)
    requires e.None? ==> u == t
    requires e.Some? ==> Pipeline.Enabled(t, e.value) && u == Pipeline.Next(t, e.value)
    ensures Pipeline.Run(s, events + (if e.Some? then [e.value] else []), u)
  {
    hide Pipeline.Run, Pipeline.Enabled, Pipeline.Next;
    if e.Some? {
      RunSnoc(s, events, t, e.value);
    } else {
      assert events + [] == events;
    }
  }

  method TakeTurns(path: MediaPath, turns: seq<Turn>, ghost input: seq<byte>) returns (ghost events: seq<Event>)
    requires path.Valid() && Inv(input, path.View())
    modifies path, path.socket, path.buffer, path.pipe, path.parser.Footprint()
    ensures path.Valid() && Pipeline.Run(old(path.View()), events, path.View())
  {
    hide MediaPath.Valid, MediaPath.View, RdpStreamingParser.Fed;
    hide Pipeline.Next, Pipeline.Enabled, Inv, Pipeline.Run;
    ghost var start := path.View();
    events := [];
    NoRun(start);
    for n := 0 to |turns|
      invariant path.Valid() && fresh(path.parser.Footprint() - old(path.parser.Footprint()))
      invariant Pipeline.Run(start, events, path.View()) && Inv(input, path.View())
    {
      ghost var was := path.View();
      ghost var e := TakeTurn(path, turns[n], input);
      OneMoreTurn(start, events, was, e, path.View());
      events := events + (if e.Some? then [e.value] else []);
    }
  }

  /**
    New objects under any schedule of the two threads: what they have done is a run of the media path, so
    nothing is lost, duplicated or reordered between the parser and the decoder.
  */
  method Deliver(input: seq<byte>, turns: seq<Turn>) returns (path: MediaPath, ghost events: seq<Event>)
    ensures path.Valid() && Pipeline.Run(Start(input), events, path.View())
    ensures path.parsed <= input && path.parser.sink.streams == Received(path.parsed)
    ensures path.pipe.popped + path.pipe.queue + InPush(path.View()) == path.parser.sink.streams
    ensures path.delivered + InDecoder(path.View()) == Decodable(path.pipe.popped)
  {
    hide MediaPath.Valid, MediaPath.View, RdpStreamingParser.Fed;
    hide Inv, Pipeline.Run, Received, Decodable, InPush, InDecoder;
    path := new MediaPath(input);
    StartInv(input);
    events := TakeTurns(path, turns, input);
    Delivered(input, events, path);
  }

  lemma Delivered(input: seq<byte>, events: seq<Event>, path: MediaPath)
    requires path.Valid() && Pipeline.Run(Start(input), events, path.View())
    ensures path.parsed <= input && path.parser.sink.streams == Received(path.parsed)
    ensures path.pipe.popped + path.pipe.queue + InPush(path.View()) == path.parser.sink.streams
    ensures path.delivered + InDecoder(path.View()) == Decodable(path.pipe.popped)
  {
    hide Pipeline.Run, Received, Decodable, LengthPrefix.Pending;
    NothingLostOrReordered(input, events, path.View());
  }

  lemma NoRun(s: State)
    ensures Pipeline.Run(s, [], s)
  {
  }
}
