/**
  The channel set-up ends in every fair execution of the system with the receive loop.  A message that is
  left in a buffer is handled when further bytes arrive, and those come from the sender's heartbeat timer:
  fairness to both timers is what the set-up rests on, besides fairness to the three threads.
*/
module SetupLiveness {
  import opened Basics
  import opened Handshake
  import opened LaggedSetup
  import opened SetupProgress

  type Trace = nat -> Lagged
  type Schedule = nat -> LaggedEvent

  function ThreadMoving(e: LaggedEvent): Thread {
    match e
    case Step(h) => ThreadOf(h)
    case ServerRecv(_, _) => ServerReader
    case AgentRecv(_, _) => AgentReader
  }

  ghost predicate Execution(size: string, run: Trace, act: Schedule) {
    && run(0) == StartLagged()
    && forall n: nat {:trigger act(n)} :: Possible(run(n), act(n)) && run(n + 1) == After(size, run(n), act(n))
  }

  ghost predicate CanMove(l: Lagged, t: Thread) {
    exists e :: ThreadMoving(e) == t && Possible(l, e)
  }

  /** The thread moves at some point from n on, or is found unable to. */
  ghost predicate MovesFrom(run: Trace, act: Schedule, t: Thread, n: nat) {
    exists m: nat {:trigger act(m)} :: m >= n && (ThreadMoving(act(m)) == t || !CanMove(run(m), t))
  }

  ghost predicate Fair(run: Trace, act: Schedule) {
    forall n: nat, t: Thread :: MovesFrom(run, act, t, n)
  }

  // --- how far a receive is -------------------------------------------------------------------------------

  /** What it takes until the reader has cut the next message off: bytes to receive, or a timer to send some. */
  function WaitOn(i: Inbox, ms: seq<Message>, read: nat, beat: bool): nat {
    if i.holding then 0
    else if read < i.arrived then
      if i.arrived < |ms| then 1 else if beat then 2 else 3
    else if read < |ms| && i.partial <= Size(ms[read]) then 1 + (Size(ms[read]) - i.partial)
    else 0
  }

  predicate ServerAwaited(s: State) { InCall(s) && Place(s) == 3 }

  predicate AgentAwaited(s: State) { InCall(s) && Place(s) == 2 }

  function Wait(l: Lagged): nat {
    if ServerAwaited(l.s) then WaitOn(l.atServer, l.s.toServer, l.s.server.read, l.s.agent.beat)
    else if AgentAwaited(l.s) then WaitOn(l.atAgent, l.s.toAgent, l.s.agent.read, l.s.server.beat)
    else 0
  }

  function HelpfulNow(l: Lagged): Thread {
    if ServerAwaited(l.s) then
      if l.atServer.holding || l.atServer.arrived < |l.s.toServer| then ServerReader else AgentTimer
    else if AgentAwaited(l.s) then
      if l.atAgent.holding || l.atAgent.arrived < |l.s.toAgent| then AgentReader else ServerTimer
    else Helpful(Stage(l.s))
  }

  ghost predicate Closer(l: Lagged, m: Lagged) {
    Less(l.s, m.s) || (SameRank(l.s, m.s) && Wait(m) < Wait(l))
  }

  ghost predicate Level(l: Lagged, m: Lagged) {
    SameRank(l.s, m.s) && Wait(m) == Wait(l) && HelpfulNow(m) == HelpfulNow(l)
  }

  ghost predicate GetsOn(l: Lagged, m: Lagged, t: Thread) {
    && (Closer(l, m) || Level(l, m))
    && (HelpfulNow(l) == t ==> Closer(l, m) || Stage(l.s) == 0)
  }

  // --- every move -----------------------------------------------------------------------------------------

  /** A receive brings a byte of the next message, or hands a message that has arrived to the reader. */
  lemma RecvShortens(i: Inbox, ms: seq<Message>, read: nat, beat: bool, arrived: nat, partial: nat)
    requires read <= i.arrived && !i.holding && Position(ms, i.arrived, i.partial)
    requires Position(ms, arrived, partial) && Behind(i, arrived, partial)
    ensures WaitOn(Inbox(arrived, partial, read < arrived), ms, read, beat) < WaitOn(i, ms, read, beat)
  {
    hide Size;
  }

  lemma ServerRecvStep(size: string, l: Lagged, arrived: nat, partial: nat)
    requires LaggedInv(size, l) && Possible(l, ServerRecv(arrived, partial))
    ensures GetsOn(l, After(size, l, ServerRecv(arrived, partial)), ServerReader)
  {
    hide Reachable, WaitOn, Ahead, Size;
    RecvShortens(l.atServer, l.s.toServer, l.s.server.read, l.s.agent.beat, arrived, partial);
    if InCall(l.s) { PlaceOf(l.s); }
  }

  lemma AgentRecvStep(size: string, l: Lagged, arrived: nat, partial: nat)
    requires LaggedInv(size, l) && Possible(l, AgentRecv(arrived, partial))
    ensures GetsOn(l, After(size, l, AgentRecv(arrived, partial)), AgentReader)
  {
    hide Reachable, WaitOn, Ahead, Size;
    RecvShortens(l.atAgent, l.s.toAgent, l.s.agent.read, l.s.server.beat, arrived, partial);
    if InCall(l.s) { PlaceOf(l.s); }
  }

  /** Something sent makes the next receive possible, where there is none. */
  lemma SentShortens(i: Inbox, ms: seq<Message>, m: Message, read: nat, beat: bool, beat': bool)
    requires read <= i.arrived <= |ms| && read < |ms|
    ensures WaitOn(i, ms + [m], read, beat') <= WaitOn(i, ms, read, beat)
    ensures !i.holding && i.arrived == |ms| ==> WaitOn(i, ms + [m], read, beat') < WaitOn(i, ms, read, beat)
    ensures i.holding || i.arrived < |ms| ==> i.holding || i.arrived < |ms + [m]|
  {
    hide Size;
  }

  lemma SamePlace(s: State, t: State)
    requires InCall(s) && SameRank(s, t) && t.agent.returned == s.agent.returned && t.agent.phase == s.agent.phase
    ensures InCall(t) && Place(t) == Place(s)
  {
    PlaceOf(s);
    PlaceOf(t);
    hide Place, Distance;
  }

  /** A step of the agent's reader or of a timer, while the server is to read. */
  lemma WhileServerReads(size: string, l: Lagged, h: Event)
    requires LaggedInv(size, l) && Possible(l, Step(h)) && ServerAwaited(l.s)
    requires ThreadOf(h) != ServerReader && ThreadOf(h) != AgentMain && SameRank(l.s, Handshake.Next(size, l.s, h))
    ensures GetsOn(l, After(size, l, Step(h)), ThreadOf(h))
  {
    hide Reachable, Inv, WaitOn, Ahead, Size, Match, Stage, Place, SameRank, Less, Helpful;
    ServerAwaitedFacts(size, l);
    var t := Handshake.Next(size, l.s, h);
    SamePlace(l.s, t);
    if t.toServer != l.s.toServer {
      var m := t.toServer[|l.s.toServer|];
      assert t.toServer == l.s.toServer + [m];
      SentShortens(l.atServer, l.s.toServer, m, l.s.server.read, l.s.agent.beat, t.agent.beat);
    } else {
      BeatShortens(l.atServer, l.s.toServer, l.s.server.read);
    }
  }

  lemma ServerAwaitedFacts(size: string, l: Lagged)
    requires LaggedInv(size, l) && ServerAwaited(l.s)
    ensures l.s.server.handler.Ready? && l.s.agent.phase.Waiting? && Shaped(l.s)
    ensures l.s.server.read < |l.s.toServer| && l.s.server.read <= l.atServer.arrived <= |l.s.toServer|
  {
    ReachableInv(size, l.s);
    var p := WantedCall(l.s);
    hide Reachable, Inv, Size;
  }

  lemma AgentAwaitedFacts(size: string, l: Lagged)
    requires LaggedInv(size, l) && AgentAwaited(l.s)
    ensures l.s.agent.reader.Idle? && l.s.agent.phase.Waiting? && Shaped(l.s)
    ensures l.s.agent.read < |l.s.toAgent| && !l.s.toAgent[l.s.agent.read].Call?
    ensures l.s.agent.read <= l.atAgent.arrived <= |l.s.toAgent|
  {
    ReachableInv(size, l.s);
    assert Timing(l.s.agent, l.s.server) && Stored(l.s.agent) && NoCalls(l.s.toAgent);
    assert AwaitsAnswer(l.s.agent, l.s.server);
    var p := WantedReply(l.s);
    hide Reachable, Inv, Size;
  }

  /** Taking the number of a heartbeat is the first half of sending it. */
  lemma BeatShortens(i: Inbox, ms: seq<Message>, read: nat)
    requires read < |ms|
    ensures WaitOn(i, ms, read, true) <= WaitOn(i, ms, read, false)
    ensures !i.holding && read < i.arrived && i.arrived >= |ms| ==>
      WaitOn(i, ms, read, true) < WaitOn(i, ms, read, false)
  {
  }

  /** The same while the agent is to read. */
  lemma WhileAgentReads(size: string, l: Lagged, h: Event)
    requires LaggedInv(size, l) && Possible(l, Step(h)) && AgentAwaited(l.s)
    requires ThreadOf(h) != AgentReader && ThreadOf(h) != AgentMain && SameRank(l.s, Handshake.Next(size, l.s, h))
    ensures GetsOn(l, After(size, l, Step(h)), ThreadOf(h))
  {
    hide Reachable, Inv, WaitOn, Ahead, Size, Match, Stage, Place, SameRank, Less, Helpful;
    AgentAwaitedFacts(size, l);
    var t := Handshake.Next(size, l.s, h);
    SamePlace(l.s, t);
    if t.toAgent != l.s.toAgent {
      var m := t.toAgent[|l.s.toAgent|];
      assert t.toAgent == l.s.toAgent + [m];
      SentShortens(l.atAgent, l.s.toAgent, m, l.s.agent.read, l.s.server.beat, t.server.beat);
    } else {
      BeatShortens(l.atAgent, l.s.toAgent, l.s.agent.read);
    }
  }

  lemma HandshakeStep(size: string, l: Lagged, h: Event)
    requires LaggedInv(size, l) && Possible(l, Step(h))
    ensures GetsOn(l, After(size, l, Step(h)), ThreadOf(h))
  {
    ReachableInv(size, l.s);
    StepProgress(size, l.s, h);
    if Less(l.s, Handshake.Next(size, l.s, h)) {
    } else if ThreadOf(h) == AgentMain {
      MainStep(size, l.s, h);
    } else if ServerAwaited(l.s) {
      PlaceOf(l.s);
      WhileServerReads(size, l, h);
    } else if AgentAwaited(l.s) {
      PlaceOf(l.s);
      WhileAgentReads(size, l, h);
    } else {
      NobodyAwaited(l, After(size, l, Step(h)));
    }
    hide Inv, Reachable, InboxInv, Handshake.Next, Less, SameRank, Wait, HelpfulNow, Stage;
  }

  /** Where nobody waits for a message only the rank of the set-up counts. */
  lemma NobodyAwaited(l: Lagged, m: Lagged)
    requires !ServerAwaited(l.s) && !AgentAwaited(l.s) && SameRank(l.s, m.s)
    ensures Wait(m) == Wait(l) == 0 && HelpfulNow(m) == HelpfulNow(l) == Helpful(Stage(l.s))
  {
    if InCall(l.s) { PlaceOf(l.s); }
    if InCall(m.s) { PlaceOf(m.s); }
    hide Place, Distance;
  }

  lemma EveryStep(size: string, l: Lagged, e: LaggedEvent)
    requires LaggedInv(size, l) && Possible(l, e)
    ensures GetsOn(l, After(size, l, e), ThreadMoving(e))
  {
    hide LaggedInv, After, GetsOn;
    match e {
      case Step(h) => HandshakeStep(size, l, h);
      case ServerRecv(arrived, partial) => ServerRecvStep(size, l, arrived, partial);
      case AgentRecv(arrived, partial) => AgentRecvStep(size, l, arrived, partial);
    }
  }

  // --- somebody can always move -----------------------------------------------------------------------------

  lemma ServerAwaitedMoves(size: string, l: Lagged)
    requires LaggedInv(size, l) && ServerAwaited(l.s)
    ensures CanMove(l, HelpfulNow(l))
  {
    hide Reachable, Size, Place;
    ServerAwaitedFacts(size, l);
    if l.atServer.holding {
      assert Possible(l, Step(ServerHandle(false, "")));
    } else if l.atServer.arrived < |l.s.toServer| {
      NextArrives(l.s.toServer, l.atServer.arrived);
      assert Possible(l, ServerRecv(l.atServer.arrived + 1, 0));
    } else if l.s.agent.beat {
      assert Possible(l, Step(AgentBeatSend));
    } else {
      assert Possible(l, Step(AgentBeatNumber));
    }
  }

  lemma NextArrives(ms: seq<Message>, arrived: nat)
    requires arrived < |ms|
    ensures Position(ms, arrived + 1, 0)
  {
  }

  lemma AgentAwaitedMoves(size: string, l: Lagged)
    requires LaggedInv(size, l) && AgentAwaited(l.s)
    ensures CanMove(l, HelpfulNow(l))
  {
    hide Reachable, Size, Place;
    AgentAwaitedFacts(size, l);
    if l.atAgent.holding {
      assert Possible(l, Step(AgentHandle));
    } else if l.atAgent.arrived < |l.s.toAgent| {
      NextArrives(l.s.toAgent, l.atAgent.arrived);
      assert Possible(l, AgentRecv(l.atAgent.arrived + 1, 0));
    } else if l.s.server.beat {
      assert Possible(l, Step(ServerBeatSend));
    } else {
      assert Possible(l, Step(ServerBeatNumber));
    }
  }

  /** What the thread whose turn it is does, outside the waiting for a message. */
  function Move(place: nat): Event {
    match place
    case 6 => Number
    case 5 => Transmit
    case 4 => Accept
    case 1 => Note
    case _ => Return
  }

  lemma MoveEnabled(s: State)
    requires Shaped(s) && Timing(s.agent, s.server) && Stored(s.agent) && Paired(s) && InCall(s)
    requires Place(s) != 3 && Place(s) != 2
    requires s.agent.reader.Matched? ==> s.agent.reader.reply.Reply?
    ensures Enabled(s, Move(Place(s)))
  {
  }

  lemma OthersMove(size: string, l: Lagged)
    requires LaggedInv(size, l) && !ServerAwaited(l.s) && !AgentAwaited(l.s) && InCall(l.s)
    ensures CanMove(l, HelpfulAt(Place(l.s)))
  {
    ReachableInv(size, l.s);
    assert Timing(l.s.agent, l.s.server) && Stored(l.s.agent) && Paired(l.s) && Results(size, l.s.agent, l.s.server);
    hide Reachable, Inv, InboxInv, Match, Timing, Stored, Paired, Enabled, Place;
    assert l.s.agent.reader.Matched? ==> l.s.agent.reader.reply.Reply?;
    MoveEnabled(l.s);
    assert Possible(l, Step(Move(Place(l.s))));
  }

  lemma NotDoneAccepting(s: State)
    requires Timing(s.agent, s.server) && Stored(s.agent) && Paired(s) && !InCall(s) && !Done(s)
    ensures s.server.handler.Accepting? && s.server.handler.call < CALLS && s.backlog != []
    ensures s.agent.returned == CALLS && !s.agent.phase.Failed?
  {
    assert forall k: nat :: k < CALLS ==> s.server.pipelines[k] == Built(s.server, k);
  }

  lemma LastAccept(size: string, l: Lagged)
    requires LaggedInv(size, l) && !InCall(l.s) && !Done(l.s)
    ensures CanMove(l, ServerReader) && Stage(l.s) == 1
  {
    ReachableInv(size, l.s);
    assert Timing(l.s.agent, l.s.server) && Stored(l.s.agent) && Paired(l.s) && Shaped(l.s);
    hide Reachable, Inv, InboxInv, Timing, Stored, Paired, Done;
    NotDoneAccepting(l.s);
    assert Possible(l, Step(Accept));
  }

  /** Until the set-up is done the thread whose turn it is can move. */
  lemma SomebodyMoves(size: string, l: Lagged)
    requires LaggedInv(size, l) && !Done(l.s)
    ensures CanMove(l, HelpfulNow(l)) && Stage(l.s) > 0
  {
    hide LaggedInv, Done, CanMove, HelpfulAt, Place;
    if InCall(l.s) {
      PlaceOf(l.s);
      if ServerAwaited(l.s) {
        ServerAwaitedMoves(size, l);
      } else if AgentAwaited(l.s) {
        AgentAwaitedMoves(size, l);
      } else {
        OthersMove(size, l);
      }
    } else {
      LastAccept(size, l);
    }
  }

  // --- every fair execution -------------------------------------------------------------------------------

  lemma {:induction false} InvAt(size: string, run: Trace, act: Schedule, n: nat)
    requires Execution(size, run, act)
    ensures LaggedInv(size, run(n))
  {
    hide LaggedInv, After, Possible, StartLagged;
    if n == 0 {
      StartLaggedReachable(size);
      StartRefines(size);
    } else {
      InvAt(size, run, act, n - 1);
      assert Possible(run(n - 1), act(n - 1));
      StepRefines(size, run(n - 1), act(n - 1));
    }
  }

  lemma StartRefines(size: string)
    ensures LaggedInv(size, StartLagged())
  {
    StartReachable(size);
    hide Reachable;
  }

  /** Up to the helpful thread's next chance at m, the set-up gets closer to its end or is over. */
  lemma {:induction false} Await(size: string, run: Trace, act: Schedule, n: nat, m: nat) returns (j: nat)
    requires Execution(size, run, act) && n <= m && !Done(run(n).s)
    requires ThreadMoving(act(m)) == HelpfulNow(run(n)) || !CanMove(run(m), HelpfulNow(run(n)))
    ensures j > n && (Done(run(j).s) || Closer(run(n), run(j)))
    decreases m - n
  {
    hide LaggedInv, After, Possible, StartLagged, Done, Stage, Distance, Wait, HelpfulNow, CanMove, ThreadMoving;
    InvAt(size, run, act, n);
    assert Possible(run(n), act(n)) && run(n + 1) == After(size, run(n), act(n));
    EveryStep(size, run(n), act(n));
    SomebodyMoves(size, run(n));
    j := n + 1;
    if !Done(run(j).s) && !Closer(run(n), run(j)) {
      assert n < m;
      j := Await(size, run, act, n + 1, m);
    }
  }

  lemma {:induction false} Completes(size: string, run: Trace, act: Schedule, n: nat) returns (m: nat)
    requires Execution(size, run, act) && Fair(run, act)
    ensures Done(run(m).s)
    decreases Stage(run(n).s), Distance(run(n).s), Wait(run(n))
  {
    hide Execution, Done, Stage, Distance, Wait, HelpfulNow, CanMove, ThreadMoving;
    m := n;
    if Done(run(n).s) {
    } else {
      var t := HelpfulNow(run(n));
      assert MovesFrom(run, act, t, n);
      var chance: nat :| chance >= n && (ThreadMoving(act(chance)) == t || !CanMove(run(chance), t));
      m := Await(size, run, act, n, chance);
      if !Done(run(m).s) {
        m := Completes(size, run, act, m);
      }
    }
  }

  /** In every fair execution the set-up completes, or fails because the screen cannot be set up. */
  lemma SetupCompletes(size: string, run: Trace, act: Schedule)
    requires Execution(size, run, act) && Fair(run, act)
    ensures exists n: nat :: Done(run(n).s)
  {
    var n := Completes(size, run, act, 0);
  }

  lemma {:induction false} NeverFails(size: string, run: Trace, act: Schedule, n: nat)
    requires Execution(size, run, act)
    requires forall i: nat {:trigger act(i)} :: act(i).Step? && act(i).e.ServerHandle? ==> !act(i).e.initFails
    ensures !run(n).s.server.screenFailed
  {
    hide Handshake.Next, Enabled, Position;
    if n == 0 {
    } else {
      NeverFails(size, run, act, n - 1);
      assert Possible(run(n - 1), act(n - 1)) && run(n) == After(size, run(n - 1), act(n - 1));
      if act(n - 1).Step? {
        FailsOnlyBy(size, run(n - 1).s, act(n - 1).e);
      }
    }
  }

  /**
    If the screen initialisation never fails, every fair execution ends with all calls returned and all five
    pipelines on their own connections.
  */
  lemma GoodSetupCompletes(size: string, run: Trace, act: Schedule) returns (n: nat)
    requires Execution(size, run, act) && Fair(run, act)
    requires forall i: nat {:trigger act(i)} :: act(i).Step? && act(i).e.ServerHandle? ==> !act(i).e.initFails
    ensures run(n).s.agent.returned == 6 && run(n).s.agent.resolution == Some(size)
    ensures run(n).s.server.pipelines == [None, Some(1), Some(2), Some(3), Some(4), Some(5)]
  {
    n := Completes(size, run, act, 0);
    NeverFails(size, run, act, n);
    InvAt(size, run, act, n);
    hide Execution, Fair, InboxInv, Reachable;
    ResultsArrive(size, run(n).s);
  }

  /** If it has failed by the time the set-up is over, nothing has been built and the agent has given up. */
  lemma FailedSetupStops(size: string, l: Lagged)
    requires LaggedReachable(size, l) && Done(l.s) && l.s.server.screenFailed
    ensures l.s.agent.phase.Failed? && l.s.server.pipelines == [None, None, None, None, None, None]
  {
    hide LaggedReachable, InboxInv, Reachable;
    LaggedRefines(size, l);
    ResultsArrive(size, l.s);
  }
}
