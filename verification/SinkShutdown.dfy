/**
  Stopping a sink (projector/D2DRender.cpp, common/media/Component.cpp, Pipe.cpp) once its source has
  stopped, as DestoryAllChannel orders it: m_IsAlive is cleared, a one-byte stream is pushed to wake a
  worker that is blocked in Pop, the component is cancelled and the worker thread joined.

  The state covers the worker, the thread that calls Stop, and an environment that may pause and resume
  the component and cause spurious wakeups at any time.  Executions are infinite; fairness is assumed for
  the two threads only.
*/
module SinkShutdown {
  import opened Basics
  import opened PipeMonitor
  import Pipeline

  const STOPPER: nat := 0    // with the source stopped, the thread that calls Stop is the pipe's only producer

  datatype Worker =
    | AtCanLoop                 // about to evaluate CanLoop
    | PausedWait | PausedWoken  // in the component's cv.wait, not notified / notified
    | AtProcess                 // about to read m_IsAlive
    | InPop                     // committed to a Pop: in front of it, waiting in it, or woken in it
    | Decoding(stream: Stream)
    | Exited

  datatype Stopper = BeforeStop | PushingSentinel | Cancelling | Joining | Returned

  datatype State = State(
    pipe: Pipe<Stream>,
    alive: bool,         // D2DRender::m_IsAlive
    cancelled: bool,     // Component::_cancelled
    paused: bool,        // Component::_paused
    worker: Worker,
    stopper: Stopper,
    sentinel: Stream,    // what Stop pushes: Stream(1), its byte left uninitialised
    decoded: seq<Stream>
  )

  datatype Move =
    | CanLoop | Process | EnterPop(k: Pick) | ResumePop(k: Pick) | Decode
    | ClearAlive | EnterPush(k: Pick) | ResumePush(k: Pick) | CancelComponent | Join
    | Pause | Resume | WakePaused | WakePipe(who: Pick)

  datatype Thread = TheWorker | TheStopper | Environment

  function ThreadOf(a: Move): Thread {
    match a
    case CanLoop | Process | EnterPop(_) | ResumePop(_) | Decode => TheWorker
    case ClearAlive | EnterPush(_) | ResumePush(_) | CancelComponent | Join => TheStopper
    case Pause | Resume | WakePaused | WakePipe(_) => Environment
  }

  predicate Possible(size: nat, s: State, a: Move) {
    match a
    case CanLoop => s.worker.AtCanLoop? || s.worker.PausedWoken?
    case Process => s.worker.AtProcess?
    case EnterPop(k) => s.worker.InPop? && PipeMonitor.Enabled(size, 1, s.pipe, Pop(k))
    case ResumePop(k) => s.worker.InPop? && PipeMonitor.Enabled(size, 1, s.pipe, PopWoken(k))
    case Decode => s.worker.Decoding?
    case ClearAlive => s.stopper.BeforeStop?
    case EnterPush(k) => s.stopper.PushingSentinel?
      && PipeMonitor.Enabled(size, 1, s.pipe, Push(STOPPER, s.sentinel, k))
    case ResumePush(k) => s.stopper.PushingSentinel? && PipeMonitor.Enabled(size, 1, s.pipe, PushWoken(STOPPER, k))
    case CancelComponent => s.stopper.Cancelling?
    case Join => s.stopper.Joining? && s.worker.Exited?
    case Pause => true
    case Resume => true
    case WakePaused => s.worker.PausedWait?
    case WakePipe(who) => PipeMonitor.Enabled(size, 1, s.pipe, Spurious(who))
  }

  function AfterPop(s: State, pipe: Pipe<Stream>): State {
    s.(pipe := pipe,
       worker := if pipe.consumer.Waiting? || s.pipe.queue == [] then InPop else Decoding(s.pipe.queue[0]))
  }

  function AfterPush(s: State, pipe: Pipe<Stream>): State {
    s.(pipe := pipe, stopper := if STOPPER in pipe.waiting then PushingSentinel else Cancelling)
  }

  function Notified(w: Worker): Worker {
    if w.PausedWait? then PausedWoken else w
  }

  function Next(size: nat, s: State, a: Move): State
    requires Possible(size, s, a)
  {
    match a
    case CanLoop => s.(worker := if s.cancelled then Exited else if s.paused then PausedWait else AtProcess)
    case Process => s.(worker := if s.alive then InPop else AtCanLoop)
    case EnterPop(k) => AfterPop(s, Step(size, 1, s.pipe, Pop(k)))
    case ResumePop(k) => AfterPop(s, Step(size, 1, s.pipe, PopWoken(k)))
    case Decode =>
      s.(worker := AtCanLoop, decoded := s.decoded + if |s.worker.stream| > 1 then [s.worker.stream] else [])
    case ClearAlive => s.(alive := false, stopper := PushingSentinel)
    case EnterPush(k) => AfterPush(s, Step(size, 1, s.pipe, Push(STOPPER, s.sentinel, k)))
    case ResumePush(k) => AfterPush(s, Step(size, 1, s.pipe, PushWoken(STOPPER, k)))
    case CancelComponent => s.(cancelled := true, worker := Notified(s.worker), stopper := Joining)
    case Join => s.(stopper := Returned)
    case Pause => s.(paused := true)
    case Resume => s.(paused := false, worker := Notified(s.worker))
    case WakePaused => s.(worker := PausedWoken)
    case WakePipe(who) => s.(pipe := Step(size, 1, s.pipe, Spurious(who)))
  }

  /** A running sink whose source has stopped, with the worker at any point, and Stop possibly under way. */
  ghost predicate Inv(size: nat, s: State) {
    && size > 0
    && !s.pipe.cancelled && Fifo(size, 1, s.pipe) && NoLostWakeup(size, 1, s.pipe)
    && (s.pipe.consumer.Outside? || s.worker.InPop?)
    && (STOPPER in s.pipe.waiting ==> s.stopper.PushingSentinel? && |s.pipe.queue| >= size)
    && (STOPPER in s.pipe.woken ==> s.stopper.PushingSentinel?)
    && (s.alive <==> s.stopper.BeforeStop?)
    && (s.cancelled <==> s.stopper.Joining? || s.stopper.Returned?)
    && (s.cancelled ==> !s.worker.PausedWait?)
    && (s.worker.Exited? ==> s.cancelled)
    && (s.stopper.Returned? ==> s.worker.Exited?)
    && ((s.stopper.Cancelling? || s.stopper.Joining?) && s.worker.InPop? ==> s.pipe.queue != [])
    && |s.sentinel| == 1
    && (forall x :: x in s.decoded ==> |x| > 1)
  }

  // --- executions --------------------------------------------------------------------------------------

  type Trace = nat -> State
  type Schedule = nat -> Move

  ghost predicate Execution(size: nat, run: Trace, act: Schedule) {
    && Inv(size, run(0))
    && forall n: nat {:trigger act(n)} :: Possible(size, run(n), act(n)) && run(n + 1) == Next(size, run(n), act(n))
  }

  ghost predicate CanMove(size: nat, s: State, t: Thread) {
    exists a :: ThreadOf(a) == t && Possible(size, s, a)
  }

  /** The thread moves at some point from n on, or is found unable to. */
  ghost predicate MovesFrom(size: nat, run: Trace, act: Schedule, t: Thread, n: nat) {
    exists m: nat {:trigger act(m)} :: m >= n && (ThreadOf(act(m)) == t || !CanMove(size, run(m), t))
  }

  ghost predicate Fair(size: nat, run: Trace, act: Schedule, t: Thread) {
    forall n: nat :: MovesFrom(size, run, act, t, n)
  }

  // --- what every step keeps ---------------------------------------------------------------------------

  lemma PipeStep(size: nat, s: State, a: PipeMonitor.Action<Stream>)
    requires Inv(size, s) && PipeMonitor.Enabled(size, 1, s.pipe, a)
    ensures Fifo(size, 1, Step(size, 1, s.pipe, a)) && NoLostWakeup(size, 1, Step(size, 1, s.pipe, a))
  {
    FifoStep(size, 1, s.pipe, a);
    NoLostWakeupStep(size, 1, s.pipe, a);
  }

  /**
    A Pop by the worker, whether it was in front of the pipe or woken inside: it either waits or takes the
    oldest stream.
  */
  lemma PopKeeps(size: nat, s: State, k: Pick)
    requires Inv(size, s) && s.worker.InPop?
    requires !PopBlocks(s.pipe) ==> s.pipe.queue != [] && CanPick(s.pipe.(consumer := Outside), k)
    requires Fifo(size, 1, PopSection(s.pipe, k)) && NoLostWakeup(size, 1, PopSection(s.pipe, k))
    ensures Inv(size, AfterPop(s, PopSection(s.pipe, k)))
    ensures s.pipe.queue != [] ==> STOPPER !in PopSection(s.pipe, k).waiting
  {
    if !PopBlocks(s.pipe) {
      NotifyEffect(s.pipe.(consumer := Outside), k);
      assert STOPPER in s.pipe.waiting ==> k == Producer(STOPPER);
    }
    hide NoLostWakeup;
  }

  /** A push of the sentinel waits if and only if the pipe is full. */
  lemma EnterPushKeeps(size: nat, s: State, k: Pick)
    requires Inv(size, s) && Possible(size, s, EnterPush(k))
    ensures Inv(size, Next(size, s, EnterPush(k)))
    ensures Next(size, s, EnterPush(k)).stopper == if |s.pipe.queue| >= size then PushingSentinel else Cancelling
    ensures |s.pipe.queue| >= size ==> Next(size, s, EnterPush(k)).pipe.queue == s.pipe.queue
  {
    hide Fifo, NoLostWakeup;
    PipeStep(size, s, Push(STOPPER, s.sentinel, k));
    if !PushBlocks(size, s.pipe) {
      NotifyEffect(s.pipe, k);
    }
    hide Fifo, NoLostWakeup, Notify;
  }

  lemma ResumePushKeeps(size: nat, s: State, k: Pick)
    requires Inv(size, s) && Possible(size, s, ResumePush(k))
    ensures Inv(size, Next(size, s, ResumePush(k)))
    ensures Next(size, s, ResumePush(k)).stopper == if |s.pipe.queue| >= size then PushingSentinel else Cancelling
    ensures |s.pipe.queue| >= size ==> Next(size, s, ResumePush(k)).pipe.queue == s.pipe.queue
  {
    hide Fifo, NoLostWakeup, Step, CanPick, Notify;
    PipeStep(size, s, PushWoken(STOPPER, k));
    PushWokenEffect(size, 1, s.pipe, STOPPER, k);
  }

  lemma WakeKeeps(size: nat, s: State, who: Pick)
    requires Inv(size, s) && Possible(size, s, WakePipe(who))
    ensures Inv(size, Next(size, s, WakePipe(who)))
  {
    PipeStep(size, s, Spurious(who));
    NotifyEffect(s.pipe, who);
    hide Fifo, NoLostWakeup;
  }

  lemma InvStep(size: nat, s: State, a: Move)
    requires Inv(size, s) && Possible(size, s, a)
    ensures Inv(size, Next(size, s, a))
  {
    match a {
      case EnterPop(k) => PipeStep(size, s, Pop(k)); PopKeeps(size, s, k);
      case ResumePop(k) => PipeStep(size, s, PopWoken(k)); PopKeeps(size, s, k);
      case EnterPush(k) => EnterPushKeeps(size, s, k);
      case ResumePush(k) => ResumePushKeeps(size, s, k);
      case WakePipe(who) => WakeKeeps(size, s, who);
      case _ => hide Fifo, NoLostWakeup;
    }
  }

  // --- progress ------------------------------------------------------------------------------------------

  /** m_IsAlive has been cleared, and the sentinel fits or the worker will still make room for it. */
  ghost predicate Room(size: nat, s: State) {
    !s.stopper.BeforeStop? && (s.stopper.PushingSentinel? ==> |s.pipe.queue| < size || s.worker.InPop?)
  }

  /** The thread whose next move brings Stop closer to its return. */
  function Helpful(size: nat, s: State): (t: Thread)
    ensures t != Environment
  {
    match s.stopper
    case PushingSentinel => if |s.pipe.queue| >= size then TheWorker else TheStopper
    case Joining => if s.worker.Exited? then TheStopper else TheWorker
    case _ => TheStopper
  }

  function StepsToExit(w: Worker): nat {
    match w
    case Exited => 0
    case InPop => 3
    case AtProcess | Decoding(_) => 2
    case _ => 1
  }

  function Rank(size: nat, s: State): nat {
    match s.stopper
    case BeforeStop => 8
    case PushingSentinel => if |s.pipe.queue| >= size then 7 else 6
    case Cancelling => 5
    case Joining => 1 + StepsToExit(s.worker)
    case Returned => 0
  }

  lemma RankZero(size: nat, s: State)
    ensures Rank(size, s) == 0 <==> s.stopper.Returned?
  {
  }

  /** The helpful thread is never blocked. */
  lemma HelpfulCanMove(size: nat, s: State)
    requires Inv(size, s) && Room(size, s) && !s.stopper.Returned?
    ensures CanMove(size, s, Helpful(size, s))
  {
    var k := SomePick(s.pipe);
    var a :=
      if s.stopper.PushingSentinel? && |s.pipe.queue| < size then
        if STOPPER in s.pipe.woken then ResumePush(k) else EnterPush(k)
      else if s.stopper.Cancelling? then CancelComponent
      else if s.stopper.Joining? && s.worker.Exited? then Join
      else
        match s.worker
        case AtProcess => Process
        case InPop => if s.pipe.consumer.Woken? then ResumePop(k) else EnterPop(k)
        case Decoding(_) => Decode
        case _ => CanLoop;
    assert ThreadOf(a) == Helpful(size, s);
    assert Possible(size, s, a);
  }

  /** No move sets Stop back, and a move of the helpful thread brings it closer. */
  lemma StepProgress(size: nat, s: State, a: Move)
    requires Inv(size, s) && Room(size, s) && !s.stopper.Returned? && Possible(size, s, a)
    ensures var t := Next(size, s, a);
      && Room(size, t)
      && Rank(size, t) <= Rank(size, s)
      && (Rank(size, t) == Rank(size, s) ==> Helpful(size, t) == Helpful(size, s) && ThreadOf(a) != Helpful(size, s))
  {
    match a {
      case EnterPop(k) => PopProgress(size, s, a, k);
      case ResumePop(k) => PopProgress(size, s, a, k);
      case EnterPush(k) => EnterPushKeeps(size, s, k);
      case ResumePush(k) => ResumePushKeeps(size, s, k);
      case WakePipe(who) => NotifyEffect(s.pipe, who);
      case _ =>
    }
  }

  lemma PopProgress(size: nat, s: State, a: Move, k: Pick)
    requires Inv(size, s) && Room(size, s) && Possible(size, s, a) && (a == EnterPop(k) || a == ResumePop(k))
    requires !s.stopper.Returned?
    ensures var t := Next(size, s, a);
      && Room(size, t)
      && Rank(size, t) <= Rank(size, s)
      && (Rank(size, t) == Rank(size, s) ==> Helpful(size, t) == Helpful(size, s) && ThreadOf(a) != Helpful(size, s))
  {
    if !PopBlocks(s.pipe) {
      NotifyEffect(s.pipe.(consumer := Outside), k);
    }
    hide Fifo, NoLostWakeup, Notify;
  }

  // --- main results ----------------------------------------------------------------------------------------

  lemma {:induction false} InvAt(size: nat, run: Trace, act: Schedule, n: nat)
    requires Execution(size, run, act)
    ensures Inv(size, run(n))
  {
    hide Inv, Next, Possible;
    if n == 0 {
    } else {
      InvAt(size, run, act, n - 1);
      InvStep(size, run(n - 1), act(n - 1));
      assert run(n) == Next(size, run(n - 1), act(n - 1));
    }
  }

  ghost predicate Closer(size: nat, run: Trace, n: nat, j: nat) {
    n < j && Rank(size, run(j)) < Rank(size, run(n)) && Room(size, run(j))
  }

  ghost predicate Pending(size: nat, run: Trace, n: nat, m: nat) {
    && n <= m && Room(size, run(m)) && Rank(size, run(m)) == Rank(size, run(n))
    && Helpful(size, run(m)) == Helpful(size, run(n)) && !run(m).stopper.Returned?
  }

  /** While Stop is held up, a step either brings it closer or leaves the same thread to move. */
  lemma PendingStep(size: nat, run: Trace, act: Schedule, n: nat, m: nat)
    requires Execution(size, run, act) && Pending(size, run, n, m)
    ensures Closer(size, run, n, m + 1) || Pending(size, run, n, m + 1)
    ensures ThreadOf(act(m)) == Helpful(size, run(n)) ==> Closer(size, run, n, m + 1)
  {
    hide Inv, Next, Possible, Helpful, Room, Rank;
    InvAt(size, run, act, m);
    StepProgress(size, run(m), act(m));
    assert run(m + 1) == Next(size, run(m), act(m));
    RankZero(size, run(m));
    RankZero(size, run(m + 1));
  }

  lemma {:induction false} Await(size: nat, run: Trace, act: Schedule, n: nat, m: nat) returns (j: nat)
    requires Execution(size, run, act) && n <= m && Pending(size, run, n, n)
    ensures Closer(size, run, n, j) || (j == m && Pending(size, run, n, m))
    decreases m - n
  {
    hide Execution, Pending, Closer;
    if m == n {
      j := n;
    } else {
      j := Await(size, run, act, n, m - 1);
      if !Closer(size, run, n, j) {
        PendingStep(size, run, act, n, m - 1);
        j := m;
      }
    }
  }

  lemma RankDrops(size: nat, run: Trace, act: Schedule, n: nat) returns (j: nat)
    requires Execution(size, run, act) && Fair(size, run, act, TheWorker) && Fair(size, run, act, TheStopper)
    requires Pending(size, run, n, n)
    ensures Closer(size, run, n, j)
  {
    hide Execution, Closer, Helpful, Room, Rank, Inv, Next, Possible, CanMove, ThreadOf;
    var h := Helpful(size, run(n));
    assert MovesFrom(size, run, act, h, n);
    var m: nat :| m >= n && (ThreadOf(act(m)) == h || !CanMove(size, run(m), h));
    j := Await(size, run, act, n, m);
    if !Closer(size, run, n, j) {
      InvAt(size, run, act, m);
      HelpfulCanMove(size, run(m));
      PendingStep(size, run, act, n, m);
      j := m + 1;
    }
  }

  lemma {:induction false} StopReturns(size: nat, run: Trace, act: Schedule, n: nat)
    requires Execution(size, run, act) && Fair(size, run, act, TheWorker) && Fair(size, run, act, TheStopper)
    requires Room(size, run(n))
    ensures exists m: nat :: run(m).stopper.Returned?
    decreases Rank(size, run(n))
  {
    hide Inv, Next, Possible, Rank, Room;
    if run(n).stopper.Returned? {
    } else {
      var j := RankDrops(size, run, act, n);
      StopReturns(size, run, act, j);
    }
  }

  /** A full pipe and a worker that has not committed to a Pop: it finds m_IsAlive cleared and never pops again. */
  ghost predicate Stuck(size: nat, s: State) {
    s.stopper.PushingSentinel? && |s.pipe.queue| >= size && !s.worker.InPop?
  }

  lemma StuckStep(size: nat, s: State, a: Move)
    requires Inv(size, s) && Stuck(size, s) && Possible(size, s, a)
    ensures Stuck(size, Next(size, s, a))
  {
    match a {
      case EnterPush(k) => EnterPushKeeps(size, s, k);
      case ResumePush(k) => ResumePushKeeps(size, s, k);
      case WakePipe(who) => NotifyEffect(s.pipe, who);
      case _ =>
    }
  }

  lemma {:induction false} StuckForever(size: nat, run: Trace, act: Schedule, n: nat, m: nat)
    requires Execution(size, run, act) && n <= m && Stuck(size, run(n))
    ensures Stuck(size, run(m))
    decreases m - n
  {
    hide Inv, Next, Possible, Stuck;
    if m == n {
    } else {
      StuckForever(size, run, act, n, m - 1);
      InvAt(size, run, act, m - 1);
      StuckStep(size, run(m - 1), act(m - 1));
      assert run(m) == Next(size, run(m - 1), act(m - 1));
    }
  }

  lemma ClearedOnce(size: nat, s: State, a: Move)
    requires Possible(size, s, a)
    ensures a.ClearAlive? ==> s.stopper.BeforeStop?
    ensures a.ClearAlive? ==> Next(size, s, a) == s.(alive := false, stopper := PushingSentinel)
  {
  }

  lemma StopStaysCalled(size: nat, s: State, a: Move)
    requires Possible(size, s, a)
    ensures Next(size, s, a).stopper.BeforeStop? ==> s.stopper.BeforeStop?
  {
  }

  lemma {:induction false} NotReturnedBefore(size: nat, run: Trace, act: Schedule, n: nat, m: nat)
    requires Execution(size, run, act) && m <= n && act(n) == ClearAlive
    ensures run(m).stopper.BeforeStop?
    decreases n - m
  {
    hide Inv, Next, Possible;
    assert Possible(size, run(n), act(n));
    if m < n {
      NotReturnedBefore(size, run, act, n, m + 1);
      assert run(m + 1) == Next(size, run(m), act(m));
      StopStaysCalled(size, run(m), act(m));
    } else {
      ClearedOnce(size, run(n), act(n));
    }
  }

  /**
    In every fair execution, Stop returns if and only if, at the moment it clears m_IsAlive, the pipe has
    a free slot or the worker has already read m_IsAlive and is on its way into Pop.  Pausing, resuming and
    spurious wakeups make no difference.
  */
  lemma StopReturnsIff(size: nat, run: Trace, act: Schedule, n: nat)
    requires Execution(size, run, act) && Fair(size, run, act, TheWorker) && Fair(size, run, act, TheStopper)
    requires act(n) == ClearAlive
    ensures (exists m: nat :: run(m).stopper.Returned?) <==> |run(n).pipe.queue| < size || run(n).worker.InPop?
  {
    hide Inv, Next, Possible;
    assert run(n + 1) == Next(size, run(n), act(n));
    ClearedOnce(size, run(n), act(n));
    if |run(n).pipe.queue| < size || run(n).worker.InPop? {
      StopReturns(size, run, act, n + 1);
    } else {
      forall m: nat ensures !run(m).stopper.Returned? {
        if m <= n {
          NotReturnedBefore(size, run, act, n, m);
        } else {
          StuckForever(size, run, act, n + 1, m);
        }
      }
    }
  }

  function PopsLeft(s: State): nat {
    if s.worker.InPop? then 1 else 0
  }

  lemma PopCounted(size: nat, s: State, a: Move)
    requires Inv(size, s) && !s.alive && Possible(size, s, a)
    ensures var t := Next(size, s, a);
      !t.alive && |t.pipe.popped| + PopsLeft(t) <= |s.pipe.popped| + PopsLeft(s)
  {
    match a {
      case EnterPop(k) => if !PopBlocks(s.pipe) { NotifyEffect(s.pipe.(consumer := Outside), k); }
      case ResumePop(k) => if !PopBlocks(s.pipe) { NotifyEffect(s.pipe.(consumer := Outside), k); }
      case EnterPush(k) => if !PushBlocks(size, s.pipe) { NotifyEffect(s.pipe, k); }
      case ResumePush(k) => if !PushBlocks(size, s.pipe) { NotifyEffect(s.pipe, k); }
      case WakePipe(who) => NotifyEffect(s.pipe, who);
      case _ =>
    }
    hide Notify, Fifo, NoLostWakeup;
  }

  lemma {:induction false} PopsBounded(size: nat, run: Trace, act: Schedule, n: nat, m: nat)
    requires Execution(size, run, act) && n <= m && !run(n).alive
    ensures !run(m).alive && |run(m).pipe.popped| + PopsLeft(run(m)) <= |run(n).pipe.popped| + PopsLeft(run(n))
    decreases m - n
  {
    hide Inv, Next, Possible, PopsLeft;
    if m == n {
    } else {
      PopsBounded(size, run, act, n, m - 1);
      InvAt(size, run, act, m - 1);
      PopCounted(size, run(m - 1), act(m - 1));
      assert run(m) == Next(size, run(m - 1), act(m - 1));
    }
  }

  /** Once m_IsAlive is cleared at most one more stream leaves the pipe, and the sentinel is never decoded. */
  lemma AtMostOneMorePop(size: nat, run: Trace, act: Schedule, n: nat, m: nat)
    requires Execution(size, run, act) && n <= m && !run(n).alive
    ensures |run(m).pipe.popped| <= |run(n).pipe.popped| + 1
    ensures run(m).sentinel !in run(m).decoded
  {
    PopsBounded(size, run, act, n, m);
    InvAt(size, run, act, m);
  }

  // --- what is decoded ------------------------------------------------------------------------------------

  function InDecoder(s: State): seq<Stream> {
    if s.worker.Decoding? && |s.worker.stream| > 1 then [s.worker.stream] else []
  }

  /** Since `start` exactly the popped streams of more than one byte have gone to the decoder, in order. */
  ghost predicate Accounts(start: State, s: State) {
    && start.pipe.popped <= s.pipe.popped
    && s.decoded + InDecoder(s)
       == start.decoded + InDecoder(start) + Pipeline.Decodable(s.pipe.popped[|start.pipe.popped|..])
  }

  /** A Pop that returns hands the oldest stream to the worker; one that has to wait changes neither. */
  lemma PopEffect(s: State, k: Pick)
    requires s.worker.InPop?
    requires !PopBlocks(s.pipe) ==> s.pipe.queue != [] && CanPick(s.pipe.(consumer := Outside), k)
    ensures var t := AfterPop(s, PopSection(s.pipe, k));
      && t.decoded == s.decoded
      && if PopBlocks(s.pipe) then t.worker == s.worker && t.pipe.popped == s.pipe.popped
         else t.worker == Decoding(s.pipe.queue[0]) && t.pipe.popped == s.pipe.popped + [s.pipe.queue[0]]
  {
    if !PopBlocks(s.pipe) {
      NotifyEffect(s.pipe.(consumer := Outside), k);
    }
    hide Notify;
  }

  lemma AccountsPop(start: State, s: State, k: Pick)
    requires Accounts(start, s) && s.worker.InPop?
    requires !PopBlocks(s.pipe) ==> s.pipe.queue != [] && CanPick(s.pipe.(consumer := Outside), k)
    ensures Accounts(start, AfterPop(s, PopSection(s.pipe, k)))
  {
    hide Pipeline.Decodable, PopSection, AfterPop, CanPick;
    PopEffect(s, k);
    if !PopBlocks(s.pipe) {
      var x, n := s.pipe.queue[0], |start.pipe.popped|;
      Pipeline.DecodableSnoc(s.pipe.popped[n..], x);
      assert (s.pipe.popped + [x])[n..] == s.pipe.popped[n..] + [x];
      assert s.decoded + [] == s.decoded;
    }
  }

  lemma AccountsStep(size: nat, start: State, s: State, a: Move)
    requires Inv(size, s) && Accounts(start, s) && Possible(size, s, a)
    ensures Accounts(start, Next(size, s, a))
  {
    hide Pipeline.Decodable, PopSection, Notify, Fifo, NoLostWakeup;
    match a {
      case EnterPop(k) => AccountsPop(start, s, k);
      case ResumePop(k) => AccountsPop(start, s, k);
      case EnterPush(k) => if !PushBlocks(size, s.pipe) { NotifyEffect(s.pipe, k); }
      case ResumePush(k) => if !PushBlocks(size, s.pipe) { NotifyEffect(s.pipe, k); }
      case WakePipe(who) => NotifyEffect(s.pipe, who);
      case _ =>
    }
  }

  lemma AccountsStart(s: State)
    ensures Accounts(s, s)
  {
    assert s.pipe.popped[|s.pipe.popped|..] == [];
  }

  /** In every execution, between any two moments. */
  lemma {:induction false} DecodesWhatItPops(size: nat, run: Trace, act: Schedule, n: nat, m: nat)
    requires Execution(size, run, act) && n <= m
    ensures Accounts(run(n), run(m))
    decreases m - n
  {
    hide Inv, Next, Possible, Accounts;
    if m == n {
      AccountsStart(run(n));
    } else {
      DecodesWhatItPops(size, run, act, n, m - 1);
      InvAt(size, run, act, m - 1);
      AccountsStep(size, run(n), run(m - 1), act(m - 1));
      assert run(m) == Next(size, run(m - 1), act(m - 1));
    }
  }

  // --- the component's switches -------------------------------------------------------------------------------

  /** Pausing and cancelling last until they are undone, or for good; undoing or cancelling leaves no worker asleep. */
  lemma SwitchesStay(size: nat, s: State, a: Move)
    requires Inv(size, s) && Possible(size, s, a)
    ensures var t := Next(size, s, a);
      && (t.paused <==> a.Pause? || (s.paused && !a.Resume?))
      && (t.cancelled <==> a.CancelComponent? || s.cancelled)
      && (t.alive <==> s.alive && !a.ClearAlive?)
      && (a.Resume? || a.CancelComponent? ==> !t.worker.PausedWait?)
      && (!s.worker.PausedWait? && t.worker.PausedWait? ==> s.paused && !s.cancelled)
  {
  }

  // --- a paused sink ----------------------------------------------------------------------------------------

  /** A pop that a paused worker can still make: it has passed CanLoop. */
  function PausedPopsLeft(s: State): nat {
    if s.worker.AtProcess? || s.worker.InPop? then 1 else 0
  }

  lemma PausedPopCounted(size: nat, s: State, a: Move)
    requires Inv(size, s) && s.paused && !s.cancelled && Possible(size, s, a)
    ensures var t := Next(size, s, a);
      |t.pipe.popped| + PausedPopsLeft(t) <= |s.pipe.popped| + PausedPopsLeft(s)
  {
    match a {
      case EnterPop(k) => if !PopBlocks(s.pipe) { NotifyEffect(s.pipe.(consumer := Outside), k); }
      case ResumePop(k) => if !PopBlocks(s.pipe) { NotifyEffect(s.pipe.(consumer := Outside), k); }
      case EnterPush(k) => if !PushBlocks(size, s.pipe) { NotifyEffect(s.pipe, k); }
      case ResumePush(k) => if !PushBlocks(size, s.pipe) { NotifyEffect(s.pipe, k); }
      case WakePipe(who) => NotifyEffect(s.pipe, who);
      case _ =>
    }
    hide Notify, Fifo, NoLostWakeup;
  }

  /** While the component stays paused at most one more stream leaves the pipe. */
  lemma {:induction false} PausedStops(size: nat, run: Trace, act: Schedule, n: nat, m: nat)
    requires Execution(size, run, act) && n <= m
    requires forall i: nat {:trigger run(i)} :: n <= i < m ==> run(i).paused && !run(i).cancelled
    ensures |run(m).pipe.popped| + PausedPopsLeft(run(m)) <= |run(n).pipe.popped| + PausedPopsLeft(run(n))
    ensures |run(m).pipe.popped| <= |run(n).pipe.popped| + 1
    decreases m - n
  {
    hide Inv, Next, Possible, PausedPopsLeft;
    if m > n {
      PausedStops(size, run, act, n, m - 1);
      InvAt(size, run, act, m - 1);
      PausedPopCounted(size, run(m - 1), act(m - 1));
      assert run(m) == Next(size, run(m - 1), act(m - 1));
    }
    AtMostOne(run(n));
  }

  lemma AtMostOne(s: State)
    ensures PausedPopsLeft(s) <= 1
  {
  }

  // --- a running sink ---------------------------------------------------------------------------------------

  /** Moves of the worker until it waits on an empty pipe. */
  function Work(s: State): nat {
    5 * |s.pipe.queue| + match s.worker
    case Decoding(_) => 4
    case PausedWait => 3
    case PausedWoken => 3
    case AtCanLoop => 3
    case AtProcess => 2
    case InPop => 1
    case Exited => 0
  }

  ghost predicate Running(s: State) {
    s.alive && !s.paused && !s.worker.PausedWait?
  }

  predicate Idle(s: State) { s.worker.InPop? && s.pipe.queue == [] }

  lemma WorkerMoves(size: nat, s: State)
    requires Inv(size, s) && Running(s) && !Idle(s)
    ensures CanMove(size, s, TheWorker)
  {
    match s.worker {
      case Decoding(_) => assert Possible(size, s, Decode);
      case PausedWoken => assert Possible(size, s, CanLoop);
      case AtCanLoop => assert Possible(size, s, CanLoop);
      case AtProcess => assert Possible(size, s, Process);
      case PausedWait =>
      case Exited =>
      case InPop =>
        var k := SomePick(s.pipe);
        if s.pipe.consumer.Outside? {
          assert Possible(size, s, EnterPop(k));
        } else {
          NotAsleep(size, s);
          assert Possible(size, s, ResumePop(k));
        }
    }
    hide Fifo, NoLostWakeup;
  }

  lemma NotAsleep(size: nat, s: State)
    requires Inv(size, s) && s.pipe.queue != []
    ensures !s.pipe.consumer.Waiting?
  {
  }

  lemma WorkStep(size: nat, s: State, a: Move)
    requires Inv(size, s) && Running(s) && !Idle(s) && Possible(size, s, a) && Next(size, s, a).alive
    ensures !Next(size, s, a).worker.PausedWait?
    ensures Work(Next(size, s, a)) <= Work(s)
    ensures ThreadOf(a) == TheWorker ==> Work(Next(size, s, a)) < Work(s)
  {
    match a {
      case EnterPop(k) => if !PopBlocks(s.pipe) { NotifyEffect(s.pipe.(consumer := Outside), k); }
      case ResumePop(k) => if !PopBlocks(s.pipe) { NotifyEffect(s.pipe.(consumer := Outside), k); }
      case WakePipe(who) => NotifyEffect(s.pipe, who);
      case _ =>
    }
    hide Notify, Fifo, NoLostWakeup;
  }

  lemma {:induction false} WorkUntil(size: nat, run: Trace, act: Schedule, n: nat, m: nat) returns (j: nat)
    requires Execution(size, run, act) && n <= m && !Idle(run(n)) && !run(n).worker.PausedWait?
    requires forall i: nat {:trigger run(i)} :: i >= n ==> run(i).alive && !run(i).paused
    requires ThreadOf(act(m)) == TheWorker || !CanMove(size, run(m), TheWorker)
    ensures j > n && !run(j).worker.PausedWait? && (Idle(run(j)) || Work(run(j)) < Work(run(n)))
    decreases m - n
  {
    hide Inv, Next, Possible, Work, Idle, CanMove, ThreadOf;
    InvAt(size, run, act, n);
    assert Possible(size, run(n), act(n)) && run(n + 1) == Next(size, run(n), act(n));
    WorkStep(size, run(n), act(n));
    WorkerMoves(size, run(n));
    j := n + 1;
    if !Idle(run(j)) && Work(run(j)) >= Work(run(n)) {
      assert n < m;
      j := WorkUntil(size, run, act, n + 1, m);
    }
  }

  /** A fair, running sink that is neither paused nor stopped empties its pipe, and decodes all that was in it. */
  lemma {:induction false} RunningSinkDrains(size: nat, run: Trace, act: Schedule, n: nat) returns (m: nat)
    requires Execution(size, run, act) && Fair(size, run, act, TheWorker) && !run(n).worker.PausedWait?
    requires forall i: nat {:trigger run(i)} :: i >= n ==> run(i).alive && !run(i).paused
    ensures m >= n && Idle(run(m)) && Accounts(run(n), run(m))
    decreases Work(run(n))
  {
    hide Inv, Next, Possible, Work, Idle, CanMove, ThreadOf, Accounts, Execution;
    if Idle(run(n)) {
      m := n;
    } else {
      assert MovesFrom(size, run, act, TheWorker, n);
      var chance: nat :| chance >= n && (ThreadOf(act(chance)) == TheWorker || !CanMove(size, run(chance), TheWorker));
      var j := WorkUntil(size, run, act, n, chance);
      if Idle(run(j)) {
        m := j;
      } else {
        m := RunningSinkDrains(size, run, act, j);
      }
    }
    DecodesWhatItPops(size, run, act, n, m);
  }

  // --- the object --------------------------------------------------------------------------------------------

  /**
    D2DRender with its Component base.  Each method is what one thread does between two points where the
    others can interfere, and is one move of the system above; the pipe is the object the source also holds.
  */
  class D2DRender {
    const input: SharedPipe<Stream>   // ISink::_in
    const sentinel: Stream
    var alive: bool
    var cancelled: bool
    var paused: bool
    var worker: Worker
    var stopper: Stopper
    var decoded: seq<Stream>

    function View(): State
      reads this, input
    {
      State(input.View(), alive, cancelled, paused, worker, stopper, sentinel, decoded)
    }

    /** Start: the flag is set, then the worker thread is created. */
    constructor (input: SharedPipe<Stream>, sentinel: Stream)
      ensures this.input == input && this.sentinel == sentinel
      ensures View() == State(input.View(), true, false, false, AtCanLoop, BeforeStop, sentinel, [])
    {
      this.input, this.sentinel := input, sentinel;
      alive, cancelled, paused := true, false, false;
      worker, stopper, decoded := AtCanLoop, BeforeStop, [];
    }

    method CheckCanLoop()
      requires Possible(input.size, View(), CanLoop)
      modifies this
      ensures View() == Next(input.size, old(View()), CanLoop)
    {
      if !cancelled && paused {
        worker := PausedWait;
      } else if cancelled {
        worker := Exited;
      } else {
        worker := AtProcess;
      }
    }

    method ReadIsAlive()
      requires Possible(input.size, View(), Process)
      modifies this
      ensures View() == Next(input.size, old(View()), Process)
    {
      if alive {
        worker := InPop;
      } else {
        worker := AtCanLoop;
      }
    }

    method PopInput(k: Pick)
      requires input.consumer.Outside? ==> Possible(input.size, View(), EnterPop(k))
      requires !input.consumer.Outside? ==> Possible(input.size, View(), ResumePop(k))
      modifies this, input
      ensures old(input.consumer).Outside? ==> View() == Next(input.size, old(View()), EnterPop(k))
      ensures old(input.consumer).Woken? ==> View() == Next(input.size, old(View()), ResumePop(k))
    {
      var inStream := input.Pop(1, k);
      if inStream.Some? {
        worker := Decoding(inStream.value);
      }
    }

    method DecodeStream()
      requires Possible(input.size, View(), Decode)
      modifies this
      ensures View() == Next(input.size, old(View()), Decode)
    {
      if |worker.stream| > 1 {
        decoded := decoded + [worker.stream];
      }
      worker := AtCanLoop;
    }

    method ClearIsAlive()
      requires Possible(input.size, View(), ClearAlive)
      modifies this
      ensures View() == Next(input.size, old(View()), ClearAlive)
    {
      alive := false;
      stopper := PushingSentinel;
    }

    method PushSentinel(k: Pick)
      requires Possible(input.size, View(), EnterPush(k))
      modifies this, input
      ensures View() == Next(input.size, old(View()), EnterPush(k))
    {
      var returned := input.Push(1, STOPPER, sentinel, k);
      if returned {
        assert STOPPER !in input.waiting;
        stopper := Cancelling;
      }
    }

    /** The same when Stop comes out of the pipe's wait. */
    method ResumeSentinel(k: Pick)
      requires Possible(input.size, View(), ResumePush(k)) && Fifo(input.size, 1, input.View())
      modifies this, input
      ensures View() == Next(input.size, old(View()), ResumePush(k))
    {
      var returned := input.PushWoken(1, STOPPER, k);
      if returned {
        assert STOPPER !in input.waiting;
        stopper := Cancelling;
      }
    }

    /** A wakeup that nobody caused, in the component's wait. */
    method WakeForNothing()
      requires Possible(input.size, View(), WakePaused)
      modifies this
      ensures View() == Next(input.size, old(View()), WakePaused)
    {
      worker := PausedWoken;
    }

    /** Component::Stop up to the join, and the join. */
    method CancelWorker()
      requires Possible(input.size, View(), CancelComponent)
      modifies this
      ensures View() == Next(input.size, old(View()), CancelComponent)
    {
      cancelled := true;
      NotifyAll();
      stopper := Joining;
    }

    method JoinWorker()
      requires Possible(input.size, View(), Join)
      modifies this
      ensures View() == Next(input.size, old(View()), Join)
    {
      stopper := Returned;
    }

    method PauseWorker()
      modifies this
      ensures View() == Next(input.size, old(View()), Pause)
    {
      paused := true;
    }

    method ResumeWorker()
      modifies this
      ensures View() == Next(input.size, old(View()), Resume)
    {
      paused := false;
      NotifyAll();
    }

    method NotifyAll()
      modifies this`worker
      ensures worker == Notified(old(worker))
    {
      if worker.PausedWait? {
        worker := PausedWoken;
      }
    }
  }

  // --- the object under any schedule -------------------------------------------------------------------------

  method Perform(render: D2DRender, a: Move)
    requires Inv(render.input.size, render.View()) && Possible(render.input.size, render.View(), a)
    modifies render, render.input
    ensures render.View() == Next(render.input.size, old(render.View()), a)
  {
    hide Next, NoLostWakeup, Fifo;
    match a {
      case CanLoop => render.CheckCanLoop();
      case Process => render.ReadIsAlive();
      case EnterPop(k) => render.PopInput(k);
      case ResumePop(k) => render.PopInput(k);
      case Decode => render.DecodeStream();
      case ClearAlive => render.ClearIsAlive();
      case EnterPush(k) => render.PushSentinel(k);
      case ResumePush(k) => render.ResumeSentinel(k);
      case CancelComponent => render.CancelWorker();
      case Join => render.JoinWorker();
      case Pause => render.PauseWorker();
      case Resume => render.ResumeWorker();
      case WakePaused => render.WakeForNothing();
      case WakePipe(who) => WakeWaiter(render, who);
    }
  }

  method WakeWaiter(render: D2DRender, who: Pick)
    requires Possible(render.input.size, render.View(), WakePipe(who))
    modifies render.input
    ensures render.View() == Next(render.input.size, old(render.View()), WakePipe(who))
  {
    render.input.NotifyOne(who);
  }

  /** The state after a schedule, leaving out what is not possible when its turn comes. */
  function Scheduled(size: nat, s: State, schedule: seq<Move>): State {
    if schedule == [] then s
    else
      var t, a := Scheduled(size, s, schedule[..|schedule| - 1]), schedule[|schedule| - 1];
      if Possible(size, t, a) then Next(size, t, a) else t
  }

  lemma OneMoreMove(size: nat, s: State, schedule: seq<Move>, n: nat)
    requires n < |schedule|
    ensures var t := Scheduled(size, s, schedule[..n]);
      Scheduled(size, s, schedule[..n + 1]) == if Possible(size, t, schedule[n]) then Next(size, t, schedule[n]) else t
  {
    hide Possible, Next;
    assert schedule[..n + 1][..n] == schedule[..n];
  }

  /**
    A new sink on a pipe that its source has left, under any schedule: exactly the scheduled state, in which
    everything proved about such states holds; the sentinel is never decoded.
  */
  method RunSink(input: SharedPipe<Stream>, sentinel: Stream, schedule: seq<Move>) returns (render: D2DRender)
    requires |sentinel| == 1 && input.size > 0 && !input.cancelled && input.consumer.Outside?
    requires Fifo(input.size, 1, input.View()) && NoLostWakeup(input.size, 1, input.View())
    requires STOPPER !in input.waiting && STOPPER !in input.woken
    modifies input
    ensures render.input == input && Inv(input.size, render.View()) && sentinel !in render.decoded
    ensures old(input.popped) <= input.popped
    ensures render.decoded + InDecoder(render.View()) == Pipeline.Decodable(input.popped[|old(input.popped)|..])
    ensures render.View() ==
      Scheduled(input.size, State(old(input.View()), true, false, false, AtCanLoop, BeforeStop, sentinel, []), schedule)
  {
    render := new D2DRender(input, sentinel);
    ghost var s := render.View();
    hide Possible, Next, NoLostWakeup, Fifo, Scheduled, Accounts;
    assert s == State(input.View(), true, false, false, AtCanLoop, BeforeStop, sentinel, []);
    NoMoves(input.size, s, schedule);
    AccountsStart(s);
    for n := 0 to |schedule|
      invariant render.input == input && render.sentinel == sentinel && fresh(render)
      invariant Inv(input.size, render.View()) && render.View() == Scheduled(input.size, s, schedule[..n])
      invariant Accounts(s, render.View())
    {
      OneMoreMove(input.size, s, schedule, n);
      if Possible(input.size, render.View(), schedule[n]) {
        InvStep(input.size, render.View(), schedule[n]);
        AccountsStep(input.size, s, render.View(), schedule[n]);
        Perform(render, schedule[n]);
      }
    }
    assert schedule[..|schedule|] == schedule;
    AccountsFor(s, render.View());
  }

  lemma AccountsFor(start: State, s: State)
    requires Accounts(start, s)
    ensures start.pipe.popped <= s.pipe.popped
    ensures s.decoded + InDecoder(s)
      == start.decoded + InDecoder(start) + Pipeline.Decodable(s.pipe.popped[|start.pipe.popped|..])
  {
  }

  lemma NoMoves(size: nat, s: State, schedule: seq<Move>)
    ensures Scheduled(size, s, schedule[..0]) == s
  {
  }
}
