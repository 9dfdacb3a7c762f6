/**
  The channel set-up with the sessions' receive loop (common/rtsp/RtspSession.cpp): a reader handles at
  most one message per receive, keeps what else has arrived in m_Buf, and blocks in the next receive until
  further bytes come.  Every step is a step of module Handshake or leaves its state alone, so what holds in
  all runs there holds here; whether the set-up gets on does not carry over.
*/
module LaggedSetup {
  import opened Basics
  import opened Text
  import opened Messages
  import opened RtspSessions
  import opened Handshake
  import opened ControlChannel

  /** The length of a message on the wire. */
  function Size(m: Message): (n: nat)
    ensures n > 0
  {
    |ToString(AsMsg(m))|
  }

  /**
    The receiving side of a session: how many messages have arrived completely, how many bytes of the
    next one, and whether the reader has cut a message off the buffer that it has not handled yet.
  */
  datatype Inbox = Inbox(arrived: nat, partial: nat, holding: bool)

  datatype Lagged = Lagged(s: State, atServer: Inbox, atAgent: Inbox)

  function StartLagged(): Lagged {
    Lagged(Handshake.Start(), Inbox(0, 0, false), Inbox(0, 0, false))
  }

  /** A place in the byte stream that these messages form. */
  predicate Position(ms: seq<Message>, arrived: nat, partial: nat) {
    arrived <= |ms| && if arrived == |ms| then partial == 0 else partial < Size(ms[arrived])
  }

  predicate Behind(i: Inbox, arrived: nat, partial: nat) {
    i.arrived < arrived || (i.arrived == arrived && i.partial < partial)
  }

  /** A receive returns at least a byte, which may complete no message, one or several. */
  datatype LaggedEvent =
    | Step(e: Event)
    | ServerRecv(arrived: nat, partial: nat)
    | AgentRecv(arrived: nat, partial: nat)

  predicate Possible(l: Lagged, e: LaggedEvent) {
    match e
    case Step(h) => Enabled(l.s, h) && (h.ServerHandle? ==> l.atServer.holding)
      && (h.AgentHandle? ==> l.atAgent.holding)
    case ServerRecv(arrived, partial) =>
      && l.s.server.handler.Ready? && !l.atServer.holding
      && Position(l.s.toServer, arrived, partial) && Behind(l.atServer, arrived, partial)
    case AgentRecv(arrived, partial) =>
      && l.s.agent.reader.Idle? && !l.atAgent.holding
      && Position(l.s.toAgent, arrived, partial) && Behind(l.atAgent, arrived, partial)
  }

  function After(size: string, l: Lagged, e: LaggedEvent): Lagged
    requires Possible(l, e)
  {
    match e
    case Step(h) =>
      Lagged(Handshake.Next(size, l.s, h),
             l.atServer.(holding := l.atServer.holding && !h.ServerHandle?),
             l.atAgent.(holding := l.atAgent.holding && !h.AgentHandle?))
    case ServerRecv(arrived, partial) => l.(atServer := Inbox(arrived, partial, l.s.server.read < arrived))
    case AgentRecv(arrived, partial) => l.(atAgent := Inbox(arrived, partial, l.s.agent.read < arrived))
  }

  ghost predicate LaggedRun(size: string, l: Lagged, events: seq<LaggedEvent>, m: Lagged)
    decreases |events|
  {
    if events == [] then l == m
    else Possible(l, events[0]) && LaggedRun(size, After(size, l, events[0]), events[1..], m)
  }

  ghost predicate LaggedReachable(size: string, l: Lagged) {
    exists events :: LaggedRun(size, StartLagged(), events, l)
  }

  // --- refinement -----------------------------------------------------------------------------------------

  ghost predicate InboxInv(l: Lagged) {
    && l.s.server.read <= l.atServer.arrived && Position(l.s.toServer, l.atServer.arrived, l.atServer.partial)
    && l.s.agent.read <= l.atAgent.arrived && Position(l.s.toAgent, l.atAgent.arrived, l.atAgent.partial)
    && (l.atServer.holding ==> l.s.server.handler.Ready? && l.s.server.read < l.atServer.arrived)
    && (l.atAgent.holding ==> l.s.agent.reader.Idle? && l.s.agent.read < l.atAgent.arrived)
  }

  ghost predicate LaggedInv(size: string, l: Lagged) {
    Reachable(size, l.s) && InboxInv(l)
  }

  lemma PositionAppend(ms: seq<Message>, m: Message, arrived: nat, partial: nat)
    requires Position(ms, arrived, partial)
    ensures Position(ms + [m], arrived, partial)
  {
    hide Size;
  }

  lemma InboxStep(size: string, l: Lagged, e: LaggedEvent)
    requires InboxInv(l) && Possible(l, e)
    ensures InboxInv(After(size, l, e))
  {
    hide Size, Match;
    var t := After(size, l, e);
    if t.s.toServer != l.s.toServer {
      var m := t.s.toServer[|l.s.toServer|];
      assert t.s.toServer == l.s.toServer + [m];
      PositionAppend(l.s.toServer, m, l.atServer.arrived, l.atServer.partial);
    }
    if t.s.toAgent != l.s.toAgent {
      var m := t.s.toAgent[|l.s.toAgent|];
      assert t.s.toAgent == l.s.toAgent + [m];
      PositionAppend(l.s.toAgent, m, l.atAgent.arrived, l.atAgent.partial);
    }
    hide Position;
  }

  /** Each event is a step of the set-up, or a receive that leaves it alone. */
  lemma StepRefines(size: string, l: Lagged, e: LaggedEvent)
    requires LaggedInv(size, l) && Possible(l, e)
    ensures LaggedInv(size, After(size, l, e))
  {
    hide Reachable, InboxInv, Handshake.Next, Enabled;
    InboxStep(size, l, e);
    if e.Step? {
      ReachableNext(size, l.s, e.e);
    }
  }

  lemma {:induction false} RunRefines(size: string, l: Lagged, events: seq<LaggedEvent>, m: Lagged)
    requires LaggedInv(size, l) && LaggedRun(size, l, events, m)
    ensures LaggedInv(size, m)
    decreases |events|
  {
    hide LaggedInv, Possible, After;
    if events == [] {
    } else {
      StepRefines(size, l, events[0]);
      RunRefines(size, After(size, l, events[0]), events[1..], m);
    }
  }

  /** Everything that holds in all reachable states of the set-up holds with the receive loop too. */
  lemma LaggedRefines(size: string, l: Lagged)
    requires LaggedReachable(size, l)
    ensures Reachable(size, l.s) && InboxInv(l)
  {
    hide LaggedRun, Reachable;
    var events :| LaggedRun(size, StartLagged(), events, l);
    StartReachable(size);
    RunRefines(size, StartLagged(), events, l);
  }

  lemma {:induction false} LaggedRunSnoc(size: string, l: Lagged, events: seq<LaggedEvent>, m: Lagged, e: LaggedEvent)
    requires LaggedRun(size, l, events, m) && Possible(m, e)
    ensures LaggedRun(size, l, events + [e], After(size, m, e))
    decreases |events|
  {
    hide Possible, After;
    if events == [] {
      assert [] + [e] == [e] && [e][1..] == [];
      assert LaggedRun(size, After(size, m, e), [], After(size, m, e));
    } else {
      assert (events + [e])[0] == events[0] && (events + [e])[1..] == events[1..] + [e];
      LaggedRunSnoc(size, After(size, l, events[0]), events[1..], m, e);
    }
  }

  lemma LaggedNext(size: string, l: Lagged, e: LaggedEvent, m: Lagged)
    requires LaggedReachable(size, l) && Possible(l, e) && After(size, l, e) == m
    ensures LaggedReachable(size, m)
  {
    hide LaggedRun, Possible, After, StartLagged;
    var events :| LaggedRun(size, StartLagged(), events, l);
    LaggedRunSnoc(size, StartLagged(), events, l, e);
  }

  lemma StartLaggedReachable(size: string)
    ensures LaggedReachable(size, StartLagged())
  {
    assert LaggedRun(size, StartLagged(), [], StartLagged());
  }

  // --- where only timers can move ---------------------------------------------------------------------------

  ghost predicate TimersOnly(l: Lagged) {
    forall e :: Possible(l, e) ==> e.Step? && OfTimer(e.e)
  }

  /** A call has arrived and lies in the server's buffer. */
  ghost predicate CallBuffered(l: Lagged) {
    exists p :: l.s.server.read <= p < l.atServer.arrived && p < |l.s.toServer| && l.s.toServer[p].Call?
  }

  /** An answer to a call has arrived and lies in the agent's buffer. */
  ghost predicate AnswerBuffered(l: Lagged) {
    exists p :: l.s.agent.read <= p < l.atAgent.arrived && p < |l.s.toAgent| && l.s.toAgent[p].Reply?
      && Match(l.s.agent.cseqs, l.s.toAgent[p].cseq, 0).Some?
  }

  lemma NotPossible(l: Lagged, e: LaggedEvent)
    requires TimersOnly(l) && !(e.Step? && OfTimer(e.e))
    ensures !Possible(l, e)
  {
  }

  lemma AgentIdle(size: string, l: Lagged)
    requires LaggedInv(size, l) && TimersOnly(l)
    ensures l.s.agent.reader.Idle? && !l.s.agent.phase.Numbered?
  {
    ReachableInv(size, l.s);
    assert Results(size, l.s.agent, l.s.server) && Timing(l.s.agent, l.s.server) && Stored(l.s.agent);
    NotPossible(l, Step(Transmit));
    NotPossible(l, Step(Note));
    hide TimersOnly, Inv, Reachable, Match;
  }

  /** Where only timers can move the agent's reader is blocked in a receive, ... */
  lemma AgentArrived(size: string, l: Lagged)
    requires LaggedInv(size, l) && TimersOnly(l)
    ensures l.s.agent.reader.Idle? && !l.s.agent.phase.Numbered? && l.atAgent.arrived == |l.s.toAgent|
  {
    AgentIdle(size, l);
    ReachableInv(size, l.s);
    assert NoCalls(l.s.toAgent);
    hide TimersOnly, Inv, Reachable, Size;
    NotPossible(l, Step(AgentHandle));
    NotPossible(l, AgentRecv(|l.s.toAgent|, 0));
  }

  /** ... and so is the server's, unless it waits for a connection. */
  lemma ServerArrived(size: string, l: Lagged)
    requires LaggedInv(size, l) && TimersOnly(l)
    ensures l.s.server.handler.Ready? ==> l.atServer.arrived == |l.s.toServer|
  {
    ReachableInv(size, l.s);
    assert Stored(l.s.agent);
    hide TimersOnly, Inv, Reachable, Ordered, Apart, Replied, UnreadReplies, UnreadCalls, Size, Paired, Timing, Stored;
    NotPossible(l, Step(ServerHandle(false, "")));
    NotPossible(l, ServerRecv(|l.s.toServer|, 0));
  }

  /**
    Where only timers can move, the set-up is done if and only if no buffer holds a call or the answer to
    one.  Heartbeats may be left over in a buffer either way.
  */
  lemma TimersOnlyDoneIff(size: string, l: Lagged)
    requires LaggedReachable(size, l) && TimersOnly(l)
    ensures Done(l.s) <==> !CallBuffered(l) && !AnswerBuffered(l)
  {
    LaggedRefines(size, l);
    ReachableInv(size, l.s);
    hide LaggedReachable, Reachable;
    if Done(l.s) {
      DoneNothingBuffered(size, l);
    } else if l.s.agent.phase.Waiting? {
      WaitingBuffered(size, l);
    } else {
      NotWaitingDone(size, l);
    }
  }

  lemma DoneNothingBuffered(size: string, l: Lagged)
    requires Inv(size, l.s) && Done(l.s)
    ensures !CallBuffered(l) && !AnswerBuffered(l)
  {
    assert UnreadCalls(l.s) && UnreadReplies(size, l.s) && Stored(l.s.agent);
    hide Inv, Right;
  }

  lemma ReplyBuffered(size: string, l: Lagged)
    requires LaggedInv(size, l) && TimersOnly(l) && l.s.agent.phase.Waiting?
    requires l.s.server.answered > l.s.agent.returned
    ensures AnswerBuffered(l)
  {
    ReachableInv(size, l.s);
    AgentArrived(size, l);
    assert Timing(l.s.agent, l.s.server) && Stored(l.s.agent);
    hide TimersOnly, Inv, Reachable, Size;
    NotPossible(l, Step(Return));
    assert AwaitsAnswer(l.s.agent, l.s.server);
    var p := WantedReply(l.s);
  }

  /** A server that is not done with the last call has a connection to accept. */
  lemma ReadyForCall(s: State)
    requires Shaped(s) && Timing(s.agent, s.server) && Stored(s.agent) && Paired(s) && s.agent.phase.Waiting?
    requires s.server.answered <= s.agent.returned && !Enabled(s, Accept)
    ensures s.server.handler.Ready?
    ensures s.agent.returned < CALLS && |s.agent.cseqs| == CALLS
  {
  }

  lemma RequestBuffered(size: string, l: Lagged)
    requires LaggedInv(size, l) && TimersOnly(l) && l.s.agent.phase.Waiting?
    requires l.s.server.answered <= l.s.agent.returned
    ensures CallBuffered(l)
  {
    hide TimersOnly, InboxInv, Reachable, Size, Timing, Stored, Paired, Sent, CallUnderWay, Enabled;
    NotPossible(l, Step(Accept));
    ReachableInv(size, l.s);
    assert Shaped(l.s) && Timing(l.s.agent, l.s.server) && Stored(l.s.agent) && Paired(l.s);
    assert Numbers(l.s) && Sent(l.s) && CallUnderWay(l.s);
    hide Inv, Numbers, Shaped;
    ReadyForCall(l.s);
    ServerArrived(size, l);
    var p := WantedCall(l.s);
  }

  lemma WaitingBuffered(size: string, l: Lagged)
    requires LaggedInv(size, l) && TimersOnly(l) && l.s.agent.phase.Waiting?
    ensures CallBuffered(l) || AnswerBuffered(l)
  {
    hide LaggedInv, TimersOnly, CallBuffered, AnswerBuffered;
    if l.s.server.answered > l.s.agent.returned {
      ReplyBuffered(size, l);
    } else {
      RequestBuffered(size, l);
    }
  }

  lemma NotWaitingDone(size: string, l: Lagged)
    requires LaggedInv(size, l) && TimersOnly(l) && !l.s.agent.phase.Waiting?
    ensures Done(l.s)
  {
    ReachableInv(size, l.s);
    AgentArrived(size, l);
    assert Timing(l.s.agent, l.s.server) && Stored(l.s.agent) && Paired(l.s);
    hide TimersOnly, Reachable, Inv, Ordered, Apart, Replied, UnreadReplies, UnreadCalls, Results, Size;
    NotPossible(l, Step(Number));
    NotPossible(l, Step(Accept));
    assert forall k: nat :: k < CALLS ==> l.s.server.pipelines[k] == Built(l.s.server, k);
  }

  /** In particular the set-up is done when every message that has arrived has been handled. */
  lemma NothingBufferedMeansDone(size: string, l: Lagged)
    requires LaggedReachable(size, l) && TimersOnly(l)
    requires l.s.server.read == l.atServer.arrived && l.s.agent.read == l.atAgent.arrived
    ensures Done(l.s)
  {
    TimersOnlyDoneIff(size, l);
    hide LaggedReachable, TimersOnly, Done;
  }

  // --- the set-up can stop and wait for a timer -------------------------------------------------------------

  function FirstCall(): seq<int> { [2, -1, -1, -1, -1, -1] }

  function Nothing<T>(x: T): seq<T> { [x, x, x, x, x, x] }

  /** The agent's side after its first heartbeat, and then its first call. */
  function AgentAt(phase: Phase, cseqs: seq<int>, next: int, beat: bool, read: nat): Agent {
    Agent(0, phase, cseqs, Nothing(false), false, None, Idle, next, beat, read)
  }

  function ServerAt(read: nat): Server {
    Server(Ready, Nothing(None), 0, false, read, 0, false)
  }

  /** The agent's heartbeat and its first call arrive in one piece; the server answers the heartbeat and blocks. */
  function CallLeftBehind(): Lagged {
    Lagged(State(AgentAt(Waiting, FirstCall(), 3, false, 1), ServerAt(1),
                 [Beat(1), Call(2, 0)], [Reply(1, true, "")], []),
           Inbox(2, 0, false), Inbox(1, 0, false))
  }

  lemma FirstHeartbeat(size: string) returns (l: Lagged)
    ensures LaggedReachable(size, l)
    ensures l == Lagged(State(AgentAt(Outside, Nothing(-1), 2, false, 0), ServerAt(0), [Beat(1)], [], []),
                        Inbox(0, 0, false), Inbox(0, 0, false))
  {
    hide LaggedReachable;
    StartLaggedReachable(size);
    var none := Inbox(0, 0, false);
    var m := Lagged(State(AgentAt(Outside, Nothing(-1), 1, true, 0), ServerAt(0), [], [], []), none, none);
    LaggedNext(size, StartLagged(), Step(AgentBeatNumber), m);
    l := Lagged(State(AgentAt(Outside, Nothing(-1), 2, false, 0), ServerAt(0), [Beat(1)], [], []), none, none);
    LaggedNext(size, m, Step(AgentBeatSend), l);
  }

  lemma CallSent(size: string) returns (l: Lagged)
    ensures LaggedReachable(size, l)
    ensures l == Lagged(State(AgentAt(Waiting, FirstCall(), 3, false, 0), ServerAt(0), [Beat(1), Call(2, 0)], [], []),
                        Inbox(0, 0, false), Inbox(0, 0, false))
  {
    hide LaggedReachable;
    var k := FirstHeartbeat(size);
    var none := Inbox(0, 0, false);
    var m := Lagged(State(AgentAt(Numbered, FirstCall(), 3, false, 0), ServerAt(0), [Beat(1)], [], []), none, none);
    assert Nothing(-1)[0 := 2] == FirstCall();
    LaggedNext(size, k, Step(Number), m);
    l := Lagged(State(AgentAt(Waiting, FirstCall(), 3, false, 0), ServerAt(0), [Beat(1), Call(2, 0)], [], []),
                none, none);
    LaggedNext(size, m, Step(Transmit), l);
  }

  lemma LeftBehindReachable(size: string)
    ensures LaggedReachable(size, CallLeftBehind())
  {
    hide LaggedReachable, Size;
    var k := CallSent(size);
    var agent, ms := AgentAt(Waiting, FirstCall(), 3, false, 0), [Beat(1), Call(2, 0)];
    var m := Lagged(State(agent, ServerAt(0), ms, [], []), Inbox(2, 0, true), Inbox(0, 0, false));
    LaggedNext(size, k, ServerRecv(2, 0), m);
    var n := Lagged(State(agent, ServerAt(1), ms, [Reply(1, true, "")], []), Inbox(2, 0, false), Inbox(0, 0, false));
    LaggedNext(size, m, Step(ServerHandle(false, "")), n);
    var o := n.(atAgent := Inbox(1, 0, true));
    LaggedNext(size, n, AgentRecv(1, 0), o);
    assert Match(FirstCall(), 1, 0) == None;
    LaggedNext(size, o, Step(AgentHandle), CallLeftBehind());
  }

  /** A call that arrives together with a heartbeat waits for the next bytes, and only a timer will send any. */
  lemma BufferedCallExample(size: string)
    ensures LaggedReachable(size, CallLeftBehind()) && TimersOnly(CallLeftBehind())
    ensures CallBuffered(CallLeftBehind()) && !Done(CallLeftBehind().s)
  {
    LeftBehindReachable(size);
    var l := CallLeftBehind();
    hide LaggedReachable, Size, Match;
    assert l.s.toServer[1].Call?;
  }

  // --- the bytes ------------------------------------------------------------------------------------------

  /** The text of the first n messages. */
  ghost function TextOf(ms: seq<Message>, n: nat): string
    requires n <= |ms|
  {
    Flatten(Printed(AsMsgs(ms[..n])))
  }

  /** What has been received at a position. */
  ghost function BytesAt(ms: seq<Message>, arrived: nat, partial: nat): string
    requires Position(ms, arrived, partial)
  {
    TextOf(ms, arrived) + if arrived == |ms| then "" else ToString(AsMsg(ms[arrived]))[..partial]
  }

  /** Exactly the messages in front of a position are complete there. */
  lemma ArrivedComplete(ms: seq<Message>, arrived: nat, partial: nat)
    requires AllSendable(ms, true) && Position(ms, arrived, partial)
    ensures Complete(BytesAt(ms, arrived, partial)) == Printed(AsMsgs(ms[..arrived]))
  {
    var texts := Printed(AsMsgs(ms[..arrived]));
    forall f | f in texts ensures MsgCut(f) == |f| > 0 {
      var i :| 0 <= i < |texts| && texts[i] == f;
      PrintedMessage(ms[i]);
    }
    var rest := if arrived == |ms| then "" else ToString(AsMsg(ms[arrived]))[..partial];
    if arrived == |ms| {
      FindBoundsNone();
    } else {
      PartOfMessage(ms[arrived], partial);
    }
    hide MsgCut, Complete, Flatten, Sendable, ToString, AsMsg;
    CompleteBehind(texts, rest);
    CompleteHead(rest);
    assert texts + [] == texts;
  }

  lemma PrintedMessage(m: Message)
    requires Sendable(m)
    ensures MsgCut(ToString(AsMsg(m))) == |ToString(AsMsg(m))| > 0
  {
    Parses(m);
    hide Parse, Contains, ToString, Printable, AsMsg;
    PrintedEnd(AsMsg(m));
    FindBounds(ToString(AsMsg(m)), MSG_END);
  }

  /** No proper part of a message ends one. */
  lemma PartOfMessage(m: Message, n: nat)
    requires Sendable(m) && n < Size(m)
    ensures MsgCut(ToString(AsMsg(m))[..n]) == 0
  {
    var text := ToString(AsMsg(m));
    PrintedMessage(m);
    SplitAt(text, n);
    hide ToString, AsMsg, Sendable;
    if MsgCut(text[..n]) > 0 {
      FindBounds(text[..n], MSG_END);
      FindInside(text[..n], text[n..], MSG_END);
    }
  }

  lemma OneMoreText(ms: seq<Message>, n: nat)
    requires n < |ms|
    ensures TextOf(ms, n + 1) == TextOf(ms, n) + ToString(AsMsg(ms[n]))
  {
    hide ToString, AsMsg;
    var before, now := Printed(AsMsgs(ms[..n])), Printed(AsMsgs(ms[..n + 1]));
    assert now == before + [ToString(AsMsg(ms[n]))];
    FlattenSnoc(before, ToString(AsMsg(ms[n])));
  }

  lemma {:induction false} TextGrows(ms: seq<Message>, i: nat, j: nat)
    requires i <= j <= |ms|
    ensures |TextOf(ms, i)| <= |TextOf(ms, j)|
    decreases j - i
  {
    hide TextOf, ToString, AsMsg;
    if i == j {
    } else {
      TextGrows(ms, i, j - 1);
      OneMoreText(ms, j - 1);
    }
  }

  /** Every part of the stream that can have been received ends at a position, ... */
  lemma {:induction false} PositionOf(ms: seq<Message>, n: nat, received: string, underWay: string)
    returns (arrived: nat, partial: nat)
    requires n <= |ms| && received + underWay == TextOf(ms, n)
    ensures arrived <= n && Position(ms, arrived, partial) && BytesAt(ms, arrived, partial) == received
    decreases n
  {
    hide ToString, AsMsg;
    arrived, partial := n, 0;
    if underWay == "" {
      assert received == TextOf(ms, n);
      assert n < |ms| ==> ToString(AsMsg(ms[n]))[..0] == "";
    } else if n > 0 {
      OneMoreText(ms, n - 1);
      var before, last := TextOf(ms, n - 1), ToString(AsMsg(ms[n - 1]));
      if |received| >= |before| {
        arrived, partial := n - 1, |received| - |before|;
        assert received == (before + last)[..|received|] == before + last[..partial];
      } else {
        assert received + before[|received|..] == before by {
          assert received == (before + last)[..|received|] == before[..|received|];
        }
        arrived, partial := PositionOf(ms, n - 1, received, before[|received|..]);
      }
    }
  }

  /** ... and more bytes end at a later one. */
  lemma LongerIsLater(ms: seq<Message>, a: nat, p: nat, b: nat, q: nat)
    requires Position(ms, a, p) && Position(ms, b, q) && |BytesAt(ms, a, p)| < |BytesAt(ms, b, q)|
    ensures a < b || (a == b && p < q)
  {
    hide TextOf, ToString, AsMsg;
    if b < a {
      OneMoreText(ms, b);
      TextGrows(ms, b + 1, a);
    }
  }

  /**
    A receive on the session object is a receive here: from one position to a later one, at most one
    message more is handled, and one is exactly if one has arrived that has not been handled.
  */
  method Receive(session: RtspSession, chunk: string, unset: int, ghost ms: seq<Message>,
        ghost from: Inbox, ghost arrived: nat, ghost partial: nat) returns (threw: bool)
    requires AllSendable(ms, true) && Position(ms, from.arrived, from.partial) && Position(ms, arrived, partial)
    requires session.Framed(BytesAt(ms, from.arrived, from.partial)) && |session.handled| <= from.arrived <= arrived
    requires BytesAt(ms, from.arrived, from.partial) + chunk == BytesAt(ms, arrived, partial)
    modifies session
    ensures session.Framed(BytesAt(ms, arrived, partial))
    ensures |session.handled| == old(|session.handled|) + if old(|session.handled|) < arrived then 1 else 0
  {
    hide RtspSession.Framed, Complete, BytesAt, Size, AllSendable;
    ArrivedComplete(ms, arrived, partial);
    threw := session.OnRecv(chunk, unset, BytesAt(ms, from.arrived, from.partial));
  }
}
