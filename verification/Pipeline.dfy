/**
  The media path of one channel, end to end: the bytes the agent sends (redirector-client/Redirector.cpp),
  the reading thread (projector/TcpChannel.cpp) with the parser and the push of every payload inside it
  (RdpStreamingParser.cpp, IRdpSource.cpp), the pipe, and the sink thread (D2DRender.cpp).

  The two threads interleave in any order, reads return any number of bytes, and a thread that waits on
  the pipe can be overtaken, woken late or woken for nothing.
*/
module Pipeline {
  import opened Basics
  import opened LengthPrefix
  import opened PipeMonitor
  import opened Tcp

  const PIPE_SIZE := 4              // common/media/ISource.cpp
  const READER: nat := 0            // the reading thread is the pipe's only producer here

  /** Inside Push (in front of the mutex, waiting, or woken) the reading thread cannot go on parsing. */
  datatype Reader = Parsing | Pushing(payload: Stream)

  datatype Sink = Popping | Decoding(stream: Stream)

  datatype State = State(
    wire: seq<byte>,          // sent by the agent, not read yet
    todo: seq<byte>,          // the rest of the chunk that is being parsed
    parsed: seq<byte>,        // history: what the parser has consumed
    residue: seq<byte>,       // the parser's incomplete frame
    reader: Reader,
    pipe: Pipe<Stream>,
    sink: Sink,
    delivered: seq<Stream>    // history: what the decoder was given
  )

  function Start(input: seq<byte>): State {
    State(input, [], [], [], Parsing, NewPipe(), Popping, [])
  }

  datatype Event =
    | Recv(n: nat)
    | Parse
    | EnterPush(k: Pick)
    | ResumePush(k: Pick)
    | EnterPop(k: Pick)
    | ResumePop(k: Pick)
    | Decode
    | WakeForNothing(who: Pick)

  /** The sink drops streams of a single byte, which is what it is sent to wake it up for its end. */
  function Decodable(streams: seq<Stream>): seq<Stream> {
    if streams == [] then []
    else
      var last := streams[|streams| - 1];
      Decodable(streams[..|streams| - 1]) + if |last| > 1 then [last] else []
  }

  predicate Enabled(s: State, e: Event) {
    match e
    case Recv(n) => s.reader.Parsing? && s.todo == [] && 1 <= n <= READING_BUF_SIZE as nat && n <= |s.wire|
    case Parse => s.reader.Parsing? && s.todo != []
    case EnterPush(k) => s.reader.Pushing?
      && PipeMonitor.Enabled(PIPE_SIZE, 1, s.pipe, Push(READER, s.reader.payload, k))
    case ResumePush(k) => PipeMonitor.Enabled(PIPE_SIZE, 1, s.pipe, PushWoken(READER, k))
    case EnterPop(k) => s.sink.Popping? && PipeMonitor.Enabled(PIPE_SIZE, 1, s.pipe, Pop(k))
    case ResumePop(k) => PipeMonitor.Enabled(PIPE_SIZE, 1, s.pipe, PopWoken(k))
    case Decode => s.sink.Decoding?
    case WakeForNothing(who) => PipeMonitor.Enabled(PIPE_SIZE, 1, s.pipe, Spurious(who))
  }

  /** The pipe after one move of a thread, and where that leaves the thread. */
  function AfterPush(s: State, pipe: Pipe<Stream>): State {
    s.(pipe := pipe, reader := if READER in pipe.waiting then s.reader else Parsing)
  }

  function AfterPop(s: State, pipe: Pipe<Stream>): State {
    s.(pipe := pipe, sink := if pipe.consumer.Waiting? || s.pipe.queue == [] then s.sink else Decoding(s.pipe.queue[0]))
  }

  function Next(s: State, e: Event): State
    requires Enabled(s, e)
  {
    match e
    case Recv(n) => s.(todo := s.wire[..n], wire := s.wire[n..])
    case Parse =>
      var n := Min(|s.todo|, Need(s.residue));
      var frame := s.residue + s.todo[..n];
      var t := s.(parsed := s.parsed + s.todo[..n], todo := s.todo[n..]);
      if FrameCut(frame) > 0 then t.(residue := [], reader := Pushing(frame[HEADER_SIZE..])) else t.(residue := frame)
    case EnterPush(k) => AfterPush(s, PipeMonitor.Step(PIPE_SIZE, 1, s.pipe, Push(READER, s.reader.payload, k)))
    case ResumePush(k) => AfterPush(s, PipeMonitor.Step(PIPE_SIZE, 1, s.pipe, PushWoken(READER, k)))
    case EnterPop(k) => AfterPop(s, PipeMonitor.Step(PIPE_SIZE, 1, s.pipe, Pop(k)))
    case ResumePop(k) => AfterPop(s, PipeMonitor.Step(PIPE_SIZE, 1, s.pipe, PopWoken(k)))
    case Decode => s.(sink := Popping, delivered := s.delivered + if |s.sink.stream| > 1 then [s.sink.stream] else [])
    case WakeForNothing(who) => s.(pipe := PipeMonitor.Step(PIPE_SIZE, 1, s.pipe, Spurious(who)))
  }

  ghost predicate Run(s: State, events: seq<Event>, t: State)
    decreases |events|
  {
    if events == [] then s == t
    else Enabled(s, events[0]) && Run(Next(s, events[0]), events[1..], t)
  }

  // --- what every step keeps ----------------------------------------------------------------------------

  function InPush(s: State): seq<Stream> {
    if s.reader.Pushing? then [s.reader.payload] else []
  }

  function InDecoder(s: State): seq<Stream> {
    if s.sink.Decoding? && |s.sink.stream| > 1 then [s.sink.stream] else []
  }

  ghost predicate ReaderInv(input: seq<byte>, s: State) {
    && s.parsed + (s.todo + s.wire) == input
    && s.residue == Pending(s.parsed)
    && s.pipe.pushed + InPush(s) == Received(s.parsed)
  }

  ghost predicate PipeInv(s: State) {
    && !s.pipe.cancelled
    && Fifo(PIPE_SIZE, 1, s.pipe)
    && NoLostWakeup(PIPE_SIZE, 1, s.pipe)
    && (READER in s.pipe.waiting ==> s.reader == Pushing(s.pipe.waiting[READER]))
    && (READER in s.pipe.woken ==> s.reader == Pushing(s.pipe.woken[READER]))
  }

  ghost predicate SinkInv(s: State) {
    && (s.sink.Decoding? ==> s.pipe.consumer.Outside?)
    && s.delivered + InDecoder(s) == Decodable(s.pipe.popped)
  }

  lemma DecodableSnoc(streams: seq<Stream>, x: Stream)
    ensures Decodable(streams + [x]) == Decodable(streams) + if |x| > 1 then [x] else []
  {
    assert (streams + [x])[..|streams|] == streams;
  }

  /** Streams of two bytes or more are decoded, shorter ones are not; this and the next law fix the function. */
  lemma DecodableOne(x: Stream)
    ensures |x| >= 2 ==> Decodable([x]) == [x]
    ensures |x| <= 1 ==> Decodable([x]) == []
    ensures Decodable([]) == []
  {
    DecodableSnoc([], x);
    assert [] + [x] == [x];
  }

  lemma {:induction false} DecodableAppend(a: seq<Stream>, b: seq<Stream>)
    ensures Decodable(a + b) == Decodable(a) + Decodable(b)
  {
    if b == [] {
      assert a + b == a;
    } else {
      var last := b[|b| - 1];
      assert a + b == (a + b[..|b| - 1]) + [last] && b == b[..|b| - 1] + [last];
      DecodableSnoc(a + b[..|b| - 1], last);
      DecodableSnoc(b[..|b| - 1], last);
      DecodableAppend(a, b[..|b| - 1]);
    }
  }

  lemma RecvStep(input: seq<byte>, s: State, e: Event)
    requires Inv(input, s) && Enabled(s, e) && e.Recv?
    ensures Inv(input, Next(s, e))
  {
    hide Received, Pending, Decodable, Fifo, NoLostWakeup;
    SplitAt(s.wire, e.n);
  }

  lemma ParseStep(input: seq<byte>, s: State, e: Event)
    requires Inv(input, s) && Enabled(s, e) && e.Parse?
    ensures Inv(input, Next(s, e))
  {
    hide Received, Pending, Decodable, WordAt, Need, Fifo, NoLostWakeup;
    var n := Min(|s.todo|, Need(s.residue));
    var chunk := s.todo[..n];
    var frame := s.residue + chunk;
    var t := Next(s, Parse);
    NeedExact(s.parsed, chunk);
    var now := if FrameCut(frame) > 0 then Received(s.parsed) + [frame[HEADER_SIZE..]] else Received(s.parsed);
    ReceivedStep(s.parsed, chunk, t.residue, now);
    SplitAt(s.todo, n);
    ConcatAssociates(s.parsed, chunk, t.todo + t.wire);
    ConcatAssociates(chunk, t.todo, t.wire);
    assert s.pipe.pushed + [] == s.pipe.pushed;
  }

  lemma PipeStep(s: State, e: Event, a: Action<Stream>)
    requires PipeInv(s) && PipeMonitor.Enabled(PIPE_SIZE, 1, s.pipe, a)
    requires Enabled(s, e) && Next(s, e).pipe == PipeMonitor.Step(PIPE_SIZE, 1, s.pipe, a)
    ensures Fifo(PIPE_SIZE, 1, Next(s, e).pipe) && NoLostWakeup(PIPE_SIZE, 1, Next(s, e).pipe)
  {
    FifoStep(PIPE_SIZE, 1, s.pipe, a);
    NoLostWakeupStep(PIPE_SIZE, 1, s.pipe, a);
  }

  lemma EnterPushStep(input: seq<byte>, s: State, k: Pick)
    requires Inv(input, s) && Enabled(s, EnterPush(k))
    ensures Inv(input, Next(s, EnterPush(k)))
  {
    PipeStep(s, EnterPush(k), Push(READER, s.reader.payload, k));
    hide Received, Pending, Decodable, Fifo, NoLostWakeup;
  }

  lemma ResumePushStep(input: seq<byte>, s: State, k: Pick)
    requires Inv(input, s) && Enabled(s, ResumePush(k))
    ensures Inv(input, Next(s, ResumePush(k)))
  {
    PipeStep(s, ResumePush(k), PushWoken(READER, k));
    hide Received, Pending, Decodable, Fifo, NoLostWakeup;
  }

  /** A Pop that returns hands the oldest stream to the decoder; one that has to wait changes nothing else. */
  lemma PopSink(s: State, k: Pick)
    requires PipeInv(s) && SinkInv(s) && s.sink.Popping?
    requires !PopBlocks(s.pipe) ==> s.pipe.queue != [] && CanPick(s.pipe.(consumer := Outside), k)
    ensures SinkInv(AfterPop(s, PopSection(s.pipe, k)))
  {
    if !PopBlocks(s.pipe) {
      DecodableSnoc(s.pipe.popped, s.pipe.queue[0]);
      NotifyEffect(s.pipe.(consumer := Outside), k);
    }
    hide Decodable, Fifo, NoLostWakeup, Notify;
  }

  lemma PopReader(input: seq<byte>, s: State, k: Pick)
    requires ReaderInv(input, s) && PipeInv(s)
    requires !PopBlocks(s.pipe) ==> s.pipe.queue != [] && CanPick(s.pipe.(consumer := Outside), k)
    requires Fifo(PIPE_SIZE, 1, PopSection(s.pipe, k)) && NoLostWakeup(PIPE_SIZE, 1, PopSection(s.pipe, k))
    ensures ReaderInv(input, AfterPop(s, PopSection(s.pipe, k))) && PipeInv(AfterPop(s, PopSection(s.pipe, k)))
  {
    if !PopBlocks(s.pipe) {
      NotifyEffect(s.pipe.(consumer := Outside), k);
    }
    hide Received, Pending, Fifo, NoLostWakeup, Notify;
  }

  lemma EnterPopStep(input: seq<byte>, s: State, k: Pick)
    requires Inv(input, s) && Enabled(s, EnterPop(k))
    ensures Inv(input, Next(s, EnterPop(k)))
  {
    hide Received, Pending, Decodable, Fifo, NoLostWakeup, PopSection, Notify;
    PipeStep(s, EnterPop(k), Pop(k));
    PopSink(s, k);
    PopReader(input, s, k);
  }

  lemma ResumePopStep(input: seq<byte>, s: State, k: Pick)
    requires Inv(input, s) && Enabled(s, ResumePop(k))
    ensures Inv(input, Next(s, ResumePop(k)))
  {
    hide Received, Pending, Decodable, Fifo, NoLostWakeup, PopSection, Notify;
    PipeStep(s, ResumePop(k), PopWoken(k));
    PopSink(s, k);
    PopReader(input, s, k);
  }

  lemma WakeStep(input: seq<byte>, s: State, who: Pick)
    requires Inv(input, s) && Enabled(s, WakeForNothing(who))
    ensures Inv(input, Next(s, WakeForNothing(who)))
  {
    PipeStep(s, WakeForNothing(who), Spurious(who));
    hide Received, Pending, Decodable, Fifo, NoLostWakeup;
  }

  lemma DecodeStep(input: seq<byte>, s: State, e: Event)
    requires Inv(input, s) && Enabled(s, e) && e.Decode?
    ensures Inv(input, Next(s, e))
  {
    hide Received, Pending, Decodable, Fifo, NoLostWakeup;
  }

  ghost predicate Inv(input: seq<byte>, s: State) {
    ReaderInv(input, s) && PipeInv(s) && SinkInv(s)
  }

  lemma InvStep(input: seq<byte>, s: State, e: Event)
    requires Inv(input, s) && Enabled(s, e)
    ensures Inv(input, Next(s, e))
  {
    hide Inv, Next, Enabled;
    match e {
      case Recv(n) => RecvStep(input, s, e);
      case Parse => ParseStep(input, s, e);
      case EnterPush(k) => EnterPushStep(input, s, k);
      case ResumePush(k) => ResumePushStep(input, s, k);
      case EnterPop(k) => EnterPopStep(input, s, k);
      case ResumePop(k) => ResumePopStep(input, s, k);
      case Decode => DecodeStep(input, s, e);
      case WakeForNothing(who) => WakeStep(input, s, who);
    }
  }

  lemma {:induction false} RunKeeps(input: seq<byte>, s: State, events: seq<Event>, t: State)
    requires Inv(input, s) && Run(s, events, t)
    ensures Inv(input, t)
    decreases |events|
  {
    if events == [] {
    } else {
      InvStep(input, s, events[0]);
      RunKeeps(input, Next(s, events[0]), events[1..], t);
    }
  }

  lemma {:induction false} RunSnoc(s: State, events: seq<Event>, t: State, e: Event)
    requires Run(s, events, t) && Enabled(t, e)
    ensures Run(s, events + [e], Next(t, e))
    decreases |events|
  {
    hide Enabled, Next;
    if events == [] {
      assert [] + [e] == [e] && [e][1..] == [];
      assert Run(Next(t, e), [], Next(t, e));
    } else {
      assert (events + [e])[0] == events[0] && (events + [e])[1..] == events[1..] + [e];
      RunSnoc(Next(s, events[0]), events[1..], t, e);
    }
  }

  lemma StartInv(input: seq<byte>)
    ensures Inv(input, Start(input))
  {
    NothingReceived();
  }

  // --- main results ---------------------------------------------------------------------------------------

  /**
    For every input, chunking and interleaving: the streams popped, queued and held up in Push are, in
    this order, exactly the payloads of the frames the parser has completed; the decoder has been given
    the popped ones of more than one byte; no more than five completed frames are under way.
  */
  lemma NothingLostOrReordered(input: seq<byte>, events: seq<Event>, s: State)
    requires Run(Start(input), events, s)
    ensures s.parsed <= input
    ensures s.pipe.popped + s.pipe.queue + InPush(s) == Received(s.parsed)
    ensures s.delivered + InDecoder(s) == Decodable(s.pipe.popped)
    ensures |Received(s.parsed)| - |s.pipe.popped| <= 5
  {
    hide Run, Received, Pending, Decodable, NoLostWakeup;
    StartInv(input);
    RunKeeps(input, Start(input), events, s);
    assert ReaderInv(input, s) && PipeInv(s) && SinkInv(s);
    assert input[..|s.parsed|] == s.parsed;
  }

  /** When neither thread can move on its own any more, everything that was sent has been decoded. */
  lemma QuiescentMeansDelivered(input: seq<byte>, events: seq<Event>, s: State)
    requires Run(Start(input), events, s)
    requires forall e :: Enabled(s, e) ==> e.WakeForNothing?
    ensures s.pipe.popped == Received(input)
    ensures s.delivered == Decodable(Received(input))
  {
    hide Received, Pending, Decodable, NoLostWakeup, Run;
    StartInv(input);
    RunKeeps(input, Start(input), events, s);
    QuiescentPipe(s);
    assert !Enabled(s, Parse) && !Enabled(s, Recv(1));
    assert s.parsed == input;
  }

  /** With one producer and one consumer only an idle reader and an empty pipe leave both threads without a move. */
  lemma QuiescentPipe(s: State)
    requires PipeInv(s) && (s.sink.Decoding? ==> s.pipe.consumer.Outside?)
    requires forall e :: Enabled(s, e) ==> e.WakeForNothing?
    ensures s.reader.Parsing? && s.sink.Popping? && s.pipe.queue == []
  {
    var k := SomePick(s.pipe);
    assert !Enabled(s, Decode);
    assert !Enabled(s, EnterPop(k)) && !Enabled(s, ResumePop(k));
    EmptyMap(s.pipe.waiting);
    assert !Enabled(s, EnterPush(k)) && !Enabled(s, ResumePush(k));
  }

  /** Stated for the agent's payloads: the decoder sees a prefix of them at all times, and all of them in the end. */
  lemma PayloadsArriveInOrder(ps: seq<Payload>, events: seq<Event>, s: State)
    requires Run(Start(Flatten(EncodeAll(ps))), events, s)
    ensures s.pipe.popped <= ps
    ensures s.delivered + InDecoder(s) == Decodable(s.pipe.popped)
    ensures (forall e :: Enabled(s, e) ==> e.WakeForNothing?) ==> s.delivered == Decodable(ps)
  {
    var input := Flatten(EncodeAll(ps));
    hide Inv, Next, Enabled, Run, Flatten, EncodeAll, Received, Pending, Decodable;
    NothingLostOrReordered(input, events, s);
    ReceivedEncoded(ps, []);
    assert input + [] == input;
    ReceivedAppend(s.parsed, input[|s.parsed|..]);
    assert s.parsed == input[..|s.parsed|];
    SplitAt(input, |s.parsed|);
    assert Received(input) == ps;
    assert Received(s.parsed) <= ps;
    assert s.pipe.popped <= Received(s.parsed);
    if forall e :: Enabled(s, e) ==> e.WakeForNothing? {
      QuiescentMeansDelivered(input, events, s);
    }
  }
}
