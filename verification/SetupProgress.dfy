/**
  How far the channel set-up is: every step that handles a message, sends one or takes a connection brings
  it closer to its end or leaves it where it is.  Heartbeats make the queues grow, but what a call waits
  for keeps its place in them.
*/
module SetupProgress {
  import opened Basics
  import opened Handshake

  datatype Thread = AgentMain | AgentReader | ServerReader | AgentTimer | ServerTimer

  function ThreadOf(e: Event): Thread {
    match e
    case Number | Transmit | Return => AgentMain
    case AgentHandle | Note => AgentReader
    case ServerHandle(_, _) | Accept => ServerReader
    case AgentBeatNumber | AgentBeatSend => AgentTimer
    case ServerBeatNumber | ServerBeatSend => ServerTimer
  }

  // --- how far the set-up is ----------------------------------------------------------------------------

  predicate Wanted(m: Message, cseq: int, reply: bool) {
    m.Reply? == reply && m.cseq == cseq
  }

  /** How many messages are in front of the one that is waited for. */
  function Ahead(ms: seq<Message>, read: nat, cseq: int, reply: bool): nat
    decreases |ms| - read
  {
    if read >= |ms| || Wanted(ms[read], cseq, reply) then 0 else 1 + Ahead(ms, read + 1, cseq, reply)
  }

  lemma {:induction false} AheadAppend(ms: seq<Message>, m: Message, read: nat, cseq: int, reply: bool, p: nat)
    requires read <= p < |ms| && Wanted(ms[p], cseq, reply)
    ensures Ahead(ms + [m], read, cseq, reply) == Ahead(ms, read, cseq, reply)
    decreases p - read
  {
    if Wanted(ms[read], cseq, reply) {
    } else {
      AheadAppend(ms, m, read + 1, cseq, reply, p);
    }
  }

  /** Where in its call the agent is, counted down. */
  function Place(s: State): nat {
    var a, v := s.agent, s.server;
    match a.phase
    case Outside => 6
    case Numbered => 5
    case Failed => 0
    case Waiting =>
      if v.answered <= a.returned then if v.handler.Accepting? then 4 else 3
      else if a.reader.Matched? then 1
      else if a.returned < |a.received| && a.received[a.returned] then 0
      else 2
  }

  function Stage(s: State): nat {
    if s.agent.phase.Failed? then 0
    else if s.agent.returned >= CALLS then if s.server.handler.Accepting? then 1 else 0
    else 7 * (CALLS - s.agent.returned) + Place(s)
  }

  function Distance(s: State): nat {
    var a := s.agent;
    if a.returned >= |a.cseqs| || Stage(s) < 7 then 0
    else if Place(s) == 3 then Ahead(s.toServer, s.server.read, a.cseqs[a.returned], false)
    else if Place(s) == 2 then Ahead(s.toAgent, a.read, a.cseqs[a.returned], true)
    else 0
  }

  /** The thread whose move brings the end closer. */
  function HelpfulAt(place: nat): Thread {
    if place == 6 || place == 5 || place == 0 then AgentMain
    else if place == 4 || place == 3 then ServerReader
    else AgentReader
  }

  function Helpful(stage: nat): Thread {
    if stage < 7 then ServerReader else HelpfulAt(stage % 7)
  }

  lemma PlaceOf(s: State)
    requires s.agent.returned < CALLS && !s.agent.phase.Failed?
    ensures Stage(s) % 7 == Place(s) && Stage(s) >= 7
  {
  }

  // --- every move -----------------------------------------------------------------------------------------

  ghost predicate Less(s: State, t: State) {
    Stage(t) < Stage(s) || (Stage(t) == Stage(s) && Distance(t) < Distance(s))
  }

  ghost predicate SameRank(s: State, t: State) {
    Stage(t) == Stage(s) && Distance(t) == Distance(s)
  }

  lemma MainStep(size: string, s: State, e: Event)
    requires Inv(size, s) && Enabled(s, e) && ThreadOf(e) == AgentMain
    ensures Less(s, Next(size, s, e))
  {
    assert Timing(s.agent, s.server) && Paired(s) && Results(size, s.agent, s.server);
    hide Numbers, UnreadCalls, UnreadReplies, Sent, Echoes, CallUnderWay, AnswerUnderWay, Match, Ahead;
  }

  /** A thread's move that leaves the stage alone changes neither what is waited for nor what is in front of it. */
  lemma AppendedToServer(size: string, s: State, m: Message)
    requires Inv(size, s) && Place(s) == 3 && s.agent.returned < CALLS
    ensures Ahead(s.toServer + [m], s.server.read, s.agent.cseqs[s.agent.returned], false)
         == Ahead(s.toServer, s.server.read, s.agent.cseqs[s.agent.returned], false)
  {
    var p := WantedCall(s);
    hide Inv;
    AheadAppend(s.toServer, m, s.server.read, s.agent.cseqs[s.agent.returned], false, p);
  }

  lemma AppendedToAgent(size: string, s: State, m: Message)
    requires Inv(size, s) && Place(s) == 2 && s.agent.returned < CALLS
    ensures Ahead(s.toAgent + [m], s.agent.read, s.agent.cseqs[s.agent.returned], true)
         == Ahead(s.toAgent, s.agent.read, s.agent.cseqs[s.agent.returned], true)
  {
    assert AwaitsAnswer(s.agent, s.server);
    var p := WantedReply(s);
    hide Inv;
    AheadAppend(s.toAgent, m, s.agent.read, s.agent.cseqs[s.agent.returned], true, p);
  }

  lemma TimerStep(size: string, s: State, e: Event)
    requires Inv(size, s) && Enabled(s, e) && OfTimer(e)
    ensures SameRank(s, Next(size, s, e))
  {
    assert Timing(s.agent, s.server) && Stored(s.agent);
    hide Inv, Ahead, Ordered, Apart, Replied, Timing;
    if s.agent.returned < CALLS && Place(s) == 3 && e.AgentBeatSend? {
      AppendedToServer(size, s, Beat(s.agent.next));
    }
    if s.agent.returned < CALLS && Place(s) == 2 && e.ServerBeatSend? {
      AppendedToAgent(size, s, Beat(s.server.next));
    }
  }

  lemma ReadInFront(ms: seq<Message>, read: nat, cseq: int, reply: bool)
    requires read < |ms|
    ensures !Wanted(ms[read], cseq, reply) ==> Ahead(ms, read + 1, cseq, reply) + 1 == Ahead(ms, read, cseq, reply)
  {
  }

  /** What a thread's move has to do: never lead back, and lead on if the thread is the one that helps. */
  ghost predicate Progress(s: State, t: State, thread: Thread) {
    && (Less(s, t) || SameRank(s, t))
    && (Helpful(Stage(s)) == thread ==> Less(s, t) || Stage(s) == 0)
  }

  /** Inside a call only the place counts. */
  predicate InCall(s: State) { s.agent.returned < CALLS && !s.agent.phase.Failed? }

  lemma ProgressInCall(s: State, t: State, thread: Thread)
    requires InCall(s) && t.agent.returned == s.agent.returned && t.agent.phase == s.agent.phase
    requires Place(t) < Place(s) || (Place(t) == Place(s) && Distance(t) <= Distance(s))
    requires HelpfulAt(Place(s)) == thread && Place(t) == Place(s) ==> Distance(t) < Distance(s)
    ensures Progress(s, t, thread)
  {
    PlaceOf(s);
    PlaceOf(t);
    hide HelpfulAt, Distance, Place;
  }

  lemma NoteStep(size: string, s: State)
    requires Inv(size, s) && Enabled(s, Note)
    ensures Progress(s, Next(size, s, Note), AgentReader)
  {
    assert Timing(s.agent, s.server) && Stored(s.agent);
    hide Inv, Ahead, Ordered, Apart, Replied, Right, Match;
  }

  lemma BeatStep(size: string, s: State)
    requires Inv(size, s) && Enabled(s, AgentHandle) && s.toAgent[s.agent.read].Beat?
    ensures Progress(s, Next(size, s, AgentHandle), AgentReader)
  {
    assert Timing(s.agent, s.server) && Stored(s.agent);
    hide Inv, Ahead, Ordered, Apart, Replied, Right, Match, Timing;
    var a := s.agent;
    if InCall(s) {
      hide Stage, Helpful, Progress;
      PlaceOf(s);
      PlaceOf(Next(size, s, AgentHandle));
      if Place(s) == 3 { AppendedToServer(size, s, Reply(s.toAgent[a.read].cseq, true, "")); }
      ReadInFront(s.toAgent, a.read, a.cseqs[a.returned], true);
      ProgressInCall(s, Next(size, s, AgentHandle), AgentReader);
    }
  }

  /** A reply that is matched is the one that is waited for. */
  lemma MatchedReply(size: string, s: State)
    requires Inv(size, s) && Enabled(s, AgentHandle) && s.toAgent[s.agent.read].Reply?
    ensures var a, m := s.agent, s.toAgent[s.agent.read];
      if Match(a.cseqs, m.cseq, 0).Some? then InCall(s) && Place(s) == 2
      else a.returned < CALLS ==> m.cseq != a.cseqs[a.returned]
  {
    assert UnreadReplies(size, s);
    hide Inv, Right;
  }

  lemma ReplyStep(size: string, s: State)
    requires Inv(size, s) && Enabled(s, AgentHandle) && s.toAgent[s.agent.read].Reply?
    ensures Progress(s, Next(size, s, AgentHandle), AgentReader)
  {
    MatchedReply(size, s);
    assert Stored(s.agent);
    hide Inv, Ahead, Stored, Match;
    var a := s.agent;
    if InCall(s) {
      hide Stage, Helpful, Progress;
      PlaceOf(s);
      PlaceOf(Next(size, s, AgentHandle));
      ReadInFront(s.toAgent, a.read, a.cseqs[a.returned], true);
      ProgressInCall(s, Next(size, s, AgentHandle), AgentReader);
    }
  }

  lemma ServerHandleStep(size: string, s: State, e: Event)
    requires Inv(size, s) && Enabled(s, e) && e.ServerHandle?
    ensures Progress(s, Next(size, s, e), ServerReader)
  {
    assert Timing(s.agent, s.server) && Stored(s.agent) && UnreadCalls(s) && Paired(s);
    hide Inv, Ahead, Ordered, Apart, Replied, Built, Timing, Stored;
    var a, v := s.agent, s.server;
    if InCall(s) {
      hide Stage, Helpful, Progress;
      PlaceOf(s);
      PlaceOf(Next(size, s, e));
      if Place(s) == 2 { AppendedToAgent(size, s, Reply(s.toServer[v.read].cseq, true, "")); }
      ReadInFront(s.toServer, v.read, a.cseqs[a.returned], false);
      ProgressInCall(s, Next(size, s, e), ServerReader);
    }
  }

  lemma AcceptStep(size: string, s: State)
    requires Inv(size, s) && Enabled(s, Accept)
    ensures Progress(s, Next(size, s, Accept), ServerReader)
  {
    assert Timing(s.agent, s.server) && Stored(s.agent) && Paired(s);
    hide Inv, Ahead, Ordered, Apart, Replied, Built;
  }

  lemma StepProgress(size: string, s: State, e: Event)
    requires Inv(size, s) && Enabled(s, e)
    ensures Progress(s, Next(size, s, e), ThreadOf(e))
  {
    assert NoCalls(s.toAgent);
    hide Inv, Next, Less, SameRank, Helpful, Stage, Distance;
    match e {
      case AgentHandle => if s.toAgent[s.agent.read].Beat? { BeatStep(size, s); } else { ReplyStep(size, s); }
      case Note => NoteStep(size, s);
      case ServerHandle(_, _) => ServerHandleStep(size, s, e);
      case Accept => AcceptStep(size, s);
      case _ =>
        if OfTimer(e) {
          TimerStep(size, s, e);
          HelpfulIsNoTimer(Stage(s));
        } else {
          MainStep(size, s, e);
        }
    }
  }

  lemma HelpfulIsNoTimer(stage: nat)
    ensures Helpful(stage) != AgentTimer && Helpful(stage) != ServerTimer
  {
  }
}
