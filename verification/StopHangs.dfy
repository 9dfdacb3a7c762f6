/**
  The hanging Stop of projector/D2DRender.cpp can happen: a run of the media path fills the pipe while the
  sink is not in Pop, its state is one that SinkShutdown starts from, and from there a fair execution never
  lets Stop return.
*/
module StopHangs {
  import opened Basics
  import opened LengthPrefix
  import opened PipeMonitor
  import Pipeline
  import opened SinkShutdown

  const SIZE := Pipeline.PIPE_SIZE

  // --- from the media path to the shutdown ----------------------------------------------------------------

  /** What the worker can be doing: the media path only tells whether it is decoding, and whether it waits in Pop. */
  predicate Matches(p: Pipeline.State, w: Worker) {
    match p.sink
    case Decoding(stream) => w == Decoding(stream)
    case Popping => w.InPop? || (p.pipe.consumer.Outside? && !w.Decoding? && !w.Exited?)
  }

  function HandOver(p: Pipeline.State, w: Worker, paused: bool, sentinel: Stream): State {
    State(p.pipe, true, false, paused, w, BeforeStop, sentinel, p.delivered)
  }

  lemma {:induction false} DecodableLong(streams: seq<Stream>)
    ensures forall x :: x in Pipeline.Decodable(streams) ==> |x| > 1
  {
    if streams == [] {
    } else {
      DecodableLong(streams[..|streams| - 1]);
    }
  }

  /** Wherever the source is stopped outside Push, the sink is in a state that SinkShutdown covers. */
  lemma HandOverInv(input: seq<byte>, events: seq<Pipeline.Event>, p: Pipeline.State, w: Worker, paused: bool,
        sentinel: Stream)
    requires Pipeline.Run(Pipeline.Start(input), events, p) && p.reader.Parsing?
    requires Matches(p, w) && |sentinel| == 1
    ensures Inv(SIZE, HandOver(p, w, paused, sentinel))
  {
    hide Pipeline.Run, Pipeline.Decodable, Fifo, NoLostWakeup, Received, LengthPrefix.Pending;
    Pipeline.StartInv(input);
    Pipeline.RunKeeps(input, Pipeline.Start(input), events, p);
    DecodableLong(p.pipe.popped);
    assert Pipeline.SinkInv(p) && Pipeline.PipeInv(p);
    forall x | x in p.delivered ensures |x| > 1 {
      assert x in p.delivered + Pipeline.InDecoder(p);
    }
  }

  // --- a full pipe ----------------------------------------------------------------------------------------

  function Zeros(n: nat): seq<byte> {
    seq(n, _ => 0 as byte)
  }

  function Empties(n: nat): seq<Stream> {
    seq(n, _ => [])
  }

  /** The agent has sent four empty frames, which are read at once; i of them are parsed and queued. */
  function Filled(i: nat): Pipeline.State
    requires i <= SIZE
  {
    Pipeline.State([], Zeros(4 * (SIZE - i)), Zeros(4 * i), [], Pipeline.Parsing,
                   Pipe(Empties(i), false, Outside, map[], map[], Empties(i), []), Pipeline.Popping, [])
  }

  function Filling(i: nat): seq<Pipeline.Event>
    requires i <= SIZE
    decreases SIZE - i
  {
    if i == SIZE then [] else [Pipeline.Parse, Pipeline.EnterPush(Nobody)] + Filling(i + 1)
  }

  lemma FillStep(i: nat)
    requires i < SIZE
    ensures Pipeline.Enabled(Filled(i), Pipeline.Parse)
    ensures var s := Pipeline.Next(Filled(i), Pipeline.Parse);
      Pipeline.Enabled(s, Pipeline.EnterPush(Nobody)) && Pipeline.Next(s, Pipeline.EnterPush(Nobody)) == Filled(i + 1)
  {
    var todo := Zeros(4 * (SIZE - i));
    assert Basics.Min(|todo|, Need([])) == 4;
    var frame := [] + todo[..4];
    assert frame == [0, 0, 0, 0];
    assert frame[HEADER_SIZE..] == [];
    assert todo[4..] == Zeros(4 * (SIZE - (i + 1))) && Zeros(4 * i) + todo[..4] == Zeros(4 * (i + 1));
    assert Empties(i) + [[]] == Empties(i + 1);
  }

  lemma {:induction false} FillRun(i: nat)
    requires i <= SIZE
    ensures Pipeline.Run(Filled(i), Filling(i), Filled(SIZE))
    decreases SIZE - i
  {
    hide Pipeline.Enabled, Pipeline.Next, Filled;
    if i == SIZE {
    } else {
      FillStep(i);
      FillRun(i + 1);
      var s, events := Pipeline.Next(Filled(i), Pipeline.Parse), Filling(i);
      assert events[1..][1..] == Filling(i + 1);
      assert Pipeline.Run(s, events[1..], Filled(SIZE));
    }
  }

  lemma PipeFills()
    ensures Pipeline.Run(Pipeline.Start(Zeros(16)), [Pipeline.Recv(16)] + Filling(0), Filled(SIZE))
  {
    FillRun(0);
    var s, e, events := Pipeline.Start(Zeros(16)), Pipeline.Recv(16), [Pipeline.Recv(16)] + Filling(0);
    assert Zeros(16)[..16] == Zeros(16) && Zeros(16)[16..] == [] && Zeros(0) == [];
    assert Empties(0) == [];
    assert Pipeline.Next(s, e) == Filled(0);
    assert events[1..] == Filling(0);
  }

  // --- the execution --------------------------------------------------------------------------------------

  /** The worker goes round and round: it finds m_IsAlive cleared and does not pop; Stop waits in Push. */
  function Hanging(s: State, n: nat): State {
    if n == 0 then s
    else if n == 1 then s.(alive := false, stopper := PushingSentinel)
    else s.(alive := false, stopper := PushingSentinel,
            pipe := s.pipe.(waiting := s.pipe.waiting[STOPPER := s.sentinel]),
            worker := if n % 2 == 0 then AtCanLoop else AtProcess)
  }

  function Taken(n: nat): Move {
    if n == 0 then ClearAlive
    else if n == 1 then EnterPush(Nobody)
    else if n % 2 == 0 then CanLoop
    else Process
  }

  ghost predicate Hangs(size: nat, s: State) {
    s.stopper.BeforeStop? && |s.pipe.queue| >= size && s.worker.AtCanLoop? && !s.paused && s.pipe.consumer.Outside?
  }

  lemma HangingStep(size: nat, s: State, n: nat)
    requires Inv(size, s) && Hangs(size, s)
    ensures Possible(size, Hanging(s, n), Taken(n)) && Hanging(s, n + 1) == Next(size, Hanging(s, n), Taken(n))
  {
  }

  /** From the second move on Stop cannot move, and the worker moves all the time: nobody is treated unfairly. */
  lemma StopCannotMove(size: nat, s: State, n: nat)
    requires Inv(size, s) && Hangs(size, s) && n >= 2
    ensures !CanMove(size, Hanging(s, n), TheStopper)
  {
  }

  ghost predicate Follows(s: State, run: Trace, act: Schedule) {
    forall n: nat {:trigger run(n)} {:trigger act(n)} :: run(n) == Hanging(s, n) && act(n) == Taken(n)
  }

  lemma HangingStepAt(size: nat, s: State, run: Trace, act: Schedule, n: nat)
    requires Inv(size, s) && Hangs(size, s) && Follows(s, run, act)
    ensures Possible(size, run(n), act(n)) && run(n + 1) == Next(size, run(n), act(n))
  {
    hide Inv, Next, Possible, Hanging, Taken, Hangs;
    HangingStep(size, s, n);
    assert run(n) == Hanging(s, n) && run(n + 1) == Hanging(s, n + 1);
  }

  lemma HangingStart(s: State, run: Trace, act: Schedule)
    requires Follows(s, run, act)
    ensures run(0) == s
  {
  }

  lemma HangingExecution(size: nat, s: State, run: Trace, act: Schedule)
    requires Inv(size, s) && Hangs(size, s) && Follows(s, run, act)
    ensures Execution(size, run, act)
  {
    hide Inv, Next, Possible, Hangs, Follows, Hanging, Taken;
    HangingStart(s, run, act);
    forall n: nat {:trigger act(n)} ensures Possible(size, run(n), act(n)) && run(n + 1) == Next(size, run(n), act(n)) {
      HangingStepAt(size, s, run, act, n);
    }
  }

  lemma HangingMoves(size: nat, s: State, run: Trace, act: Schedule, n: nat)
    requires Inv(size, s) && Hangs(size, s) && Follows(s, run, act)
    ensures MovesFrom(size, run, act, TheWorker, n) && MovesFrom(size, run, act, TheStopper, n)
    ensures !run(n).stopper.Returned?
  {
    hide Inv, CanMove;
    StopCannotMove(size, s, n + 2);
    assert run(n + 2) == Hanging(s, n + 2);
    assert ThreadOf(act(n + 2)) == TheWorker;
  }

  lemma HangsForever(size: nat, s: State, run: Trace, act: Schedule)
    requires Inv(size, s) && Hangs(size, s) && Follows(s, run, act)
    ensures Execution(size, run, act) && Fair(size, run, act, TheWorker) && Fair(size, run, act, TheStopper)
    ensures forall n: nat :: !run(n).stopper.Returned?
  {
    hide Inv, Hangs, Follows, Execution, MovesFrom;
    HangingExecution(size, s, run, act);
    forall n: nat ensures MovesFrom(size, run, act, TheWorker, n) && MovesFrom(size, run, act, TheStopper, n) {
      HangingMoves(size, s, run, act, n);
    }
    forall n: nat ensures !run(n).stopper.Returned? {
      HangingMoves(size, s, run, act, n);
    }
  }

  /** A run of the media path, and a fair execution from where it leads, in which Stop never returns. */
  lemma StopCanHang() returns (input: seq<byte>, events: seq<Pipeline.Event>, p: Pipeline.State, run: Trace,
        act: Schedule)
    ensures Pipeline.Run(Pipeline.Start(input), events, p) && p.reader.Parsing? && Matches(p, AtCanLoop)
    ensures run(0) == HandOver(p, AtCanLoop, false, [0]) && act(0) == ClearAlive
    ensures Execution(SIZE, run, act) && Fair(SIZE, run, act, TheWorker) && Fair(SIZE, run, act, TheStopper)
    ensures forall n: nat :: !run(n).stopper.Returned?
  {
    hide Inv, Execution, Fair, Pipeline.Run;
    input, events, p := Zeros(16), [Pipeline.Recv(16)] + Filling(0), Filled(SIZE);
    PipeFills();
    var s := HandOver(p, AtCanLoop, false, [0]);
    HandOverInv(input, events, p, AtCanLoop, false, [0]);
    run := (n: nat) => Hanging(s, n);
    act := (n: nat) => Taken(n);
    HangsForever(SIZE, s, run, act);
  }
}
