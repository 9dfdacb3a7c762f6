/**
  The channel setup: redirector-client/ProjectorAgent.cpp asks for one channel after the other in the
  order of Redirector.cpp, projector/Session.cpp answers, and RedirectChannelFactory.cpp accepts a media
  connection for each.  Nothing but the order pairs a connection with a pipeline, and the server answers
  before it accepts.

  Two processes and three queues: the two directions of the control connection and the media port's
  backlog.  Both sessions send heartbeats whenever they like.  A thread's step is what it does between
  two points where another thread can interfere.  A reader may handle any message that was sent; that it
  handles at most one per receive is the subject of module LaggedSetup.
*/
module Handshake {
  import opened Basics

  const CALLS: nat := 6          // in the order in which the agent makes them
  const RESOLUTION: nat := 0
  const SCREEN: nat := 1
  const HID: nat := 2
  const DR: nat := 3
  const AUDIOPLAYBACK: nat := 4
  const TOUCHANDPEN: nat := 5

  datatype Message =
    | Call(cseq: int, call: nat)
    | Beat(cseq: int)
    | Reply(cseq: int, ok: bool, data: string)

  predicate IsRequest(m: Message) { !m.Reply? }

  /** Numbered: the call holds its locks and has its number, which is not on the wire yet. */
  datatype Phase = Outside | Numbered | Waiting | Failed

  /** The agent compares a reply's number first and takes the mutex to note the result afterwards. */
  datatype Reader = Idle | Matched(call: nat, reply: Message)

  datatype Handler = Ready | Accepting(call: nat)

  /** ProjectorAgent and its session. */
  datatype Agent = Agent(
    returned: nat,               // calls that have returned
    phase: Phase,
    cseqs: seq<int>,             // GetCSeq of the six requests: -1 until they are sent
    received: seq<bool>,         // the six ..Received flags
    screenResult: bool,
    resolution: Option<string>,
    reader: Reader,
    next: int,                   // m_CSeq
    beat: bool,                  // the heartbeat timer has taken its first number
    read: nat                    // messages handled
  )

  /** Session, its RtspSession and its RedirectChannelFactory. */
  datatype Server = Server(
    handler: Handler,
    pipelines: seq<Option<nat>>, // by call: the connection the pipeline was built on
    next: int,
    beat: bool,
    read: nat,
    answered: nat,               // history: calls answered
    screenFailed: bool           // history: the screen could not be set up
  )

  /** A connection is named after the call that opens it. */
  datatype State = State(agent: Agent, server: Server, toServer: seq<Message>, toAgent: seq<Message>, backlog: seq<nat>)

  function Start(): State {
    State(Agent(0, Outside, seq(CALLS, _ => -1), seq(CALLS, _ => false), false, None, Idle, 0, false, 0),
          Server(Ready, seq(CALLS, _ => None), 0, false, 0, 0, false), [], [], [])
  }

  datatype Event =
    | Number | Transmit | Return
    | AgentHandle | Note
    | ServerHandle(initFails: bool, what: string) | Accept
    | AgentBeatNumber | AgentBeatSend | ServerBeatNumber | ServerBeatSend

  /** The agent's if-else chain: the first request with the reply's number. */
  function Match(cseqs: seq<int>, cseq: int, k: nat): (m: Option<nat>)
    requires k <= |cseqs|
    ensures m.Some? ==> k <= m.value < |cseqs| && cseqs[m.value] == cseq
    ensures m.Some? ==> forall j :: k <= j < m.value ==> cseqs[j] != cseq
    ensures m.None? ==> forall j :: k <= j < |cseqs| ==> cseqs[j] != cseq
    decreases |cseqs| - k
  {
    if k == |cseqs| then None
    else if cseqs[k] == cseq then Some(k)
    else Match(cseqs, cseq, k + 1)
  }

  /** What an exception says fits into one line. */
  predicate SingleLine(what: string) { '\r' !in what }

  predicate Shaped(s: State) {
    && |s.agent.cseqs| == |s.agent.received| == |s.server.pipelines| == CALLS
    && s.agent.read <= |s.toAgent| && s.server.read <= |s.toServer|
  }

  predicate Enabled(s: State, e: Event) {
    Shaped(s) &&
    var a, v := s.agent, s.server;
    match e
    case Number => a.phase.Outside? && a.returned < CALLS
    case Transmit => a.phase.Numbered? && a.returned < CALLS
    case Return => a.phase.Waiting? && a.returned < CALLS && a.received[a.returned]
    case AgentHandle =>
      // without a request handler the agent throws on a call
      a.reader.Idle? && a.read < |s.toAgent| && !s.toAgent[a.read].Call?
        && (s.toAgent[a.read].Beat? ==> !a.phase.Numbered?)
    case Note => a.reader.Matched? && a.reader.call < CALLS && a.reader.reply.Reply? && !a.phase.Numbered?
    case ServerHandle(_, what) => v.handler.Ready? && v.read < |s.toServer| && SingleLine(what)
    case Accept => v.handler.Accepting? && v.handler.call < CALLS && s.backlog != []
    case AgentBeatNumber => !a.beat
    case AgentBeatSend => a.beat && !a.phase.Numbered?
    case ServerBeatNumber => !v.beat
    case ServerBeatSend => v.beat
  }

  /** ReceivedResponseEvent, its first half. */
  function Compared(a: Agent, m: Message): Agent {
    var found := Match(a.cseqs, m.cseq, 0);
    a.(read := a.read + 1, reader := if found.Some? then Matched(found.value, m) else Idle)
  }

  /** ReceivedResponseEvent, its second half. */
  function Noted(a: Agent, k: nat, reply: Message): Agent
    requires k < |a.received| && reply.Reply?
  {
    var b := a.(received := a.received[k := true], reader := Idle);
    if k == RESOLUTION then b.(resolution := Some(reply.data))
    else if k == SCREEN then b.(screenResult := reply.ok)
    else b
  }

  /** ReceivedRequestEvent, up to the point where it waits for a connection. */
  function Answered(v: Server, k: nat, initFails: bool): Server {
    var w := v.(read := v.read + 1, answered := v.answered + 1);
    if k == RESOLUTION then w
    else if k == SCREEN && initFails then w.(screenFailed := true)
    else w.(handler := Accepting(k))
  }

  /** `size` is the server's screen size as text. */
  function Answer(size: string, c: int, k: nat, initFails: bool, what: string): Message {
    if k == RESOLUTION then Reply(c, true, size)
    else if k == SCREEN && initFails then Reply(c, false, what)
    else Reply(c, true, "")
  }

  function Next(size: string, s: State, e: Event): State
    requires Enabled(s, e)
  {
    var a, v := s.agent, s.server;
    match e
    case Number => s.(agent := a.(cseqs := a.cseqs[a.returned := a.next], next := a.next + 1, phase := Numbered))
    case Transmit => s.(agent := a.(phase := Waiting), toServer := s.toServer + [Call(a.cseqs[a.returned], a.returned)])
    case Return =>
      if a.returned == SCREEN && !a.screenResult then s.(agent := a.(phase := Failed))
      else s.(agent := a.(returned := a.returned + 1, phase := Outside),
              backlog := s.backlog + if a.returned == RESOLUTION then [] else [a.returned])
    case AgentHandle =>
      var m := s.toAgent[a.read];
      if m.Beat? then s.(agent := a.(read := a.read + 1), toServer := s.toServer + [Reply(m.cseq, true, "")])
      else s.(agent := Compared(a, m))
    case Note => s.(agent := Noted(a, a.reader.call, a.reader.reply))
    case ServerHandle(initFails, what) =>
      (match s.toServer[v.read]
       case Call(c, k) =>
         s.(server := Answered(v, k, initFails), toAgent := s.toAgent + [Answer(size, c, k, initFails, what)])
       case Beat(c) => s.(server := v.(read := v.read + 1), toAgent := s.toAgent + [Reply(c, true, "")])
       case Reply(_, _, _) => s.(server := v.(read := v.read + 1)))
    case Accept =>
      s.(server := v.(pipelines := v.pipelines[v.handler.call := Some(s.backlog[0])], handler := Ready),
         backlog := s.backlog[1..])
    case AgentBeatNumber => s.(agent := a.(next := a.next + 1, beat := true))
    case AgentBeatSend => s.(agent := a.(next := a.next + 1, beat := false), toServer := s.toServer + [Beat(a.next)])
    case ServerBeatNumber => s.(server := v.(next := v.next + 1, beat := true))
    case ServerBeatSend => s.(server := v.(next := v.next + 1, beat := false), toAgent := s.toAgent + [Beat(v.next)])
  }

  ghost predicate Run(size: string, s: State, events: seq<Event>, t: State)
    decreases |events|
  {
    if events == [] then s == t
    else Enabled(s, events[0]) && Run(size, Next(size, s, events[0]), events[1..], t)
  }

  // --- what every step keeps: numbers -------------------------------------------------------------------

  /** A request object has its number from the moment its call takes it; the numbers grow with the calls. */
  ghost predicate Stored(a: Agent) {
    && |a.cseqs| == CALLS && a.returned <= CALLS && (a.returned < CALLS || a.phase.Outside?) && a.next >= 0
    && (forall k :: 0 <= k < CALLS ==>
          if k < a.returned || (k == a.returned && !a.phase.Outside?)
          then 0 <= a.cseqs[k] < a.next else a.cseqs[k] == -1)
    && (forall j, k :: 0 <= j < k < CALLS && a.cseqs[k] >= 0 ==> a.cseqs[j] < a.cseqs[k])
  }

  /** No request on the wire has this number or a later one. */
  function Unused(a: Agent): int {
    if a.phase.Numbered? && a.returned < |a.cseqs| then a.cseqs[a.returned] else a.next
  }

  /** Requests leave a session in the order of their numbers. */
  ghost predicate Ordered(ms: seq<Message>, unused: int) {
    && unused >= 0
    && (forall p :: 0 <= p < |ms| && IsRequest(ms[p]) ==> 0 <= ms[p].cseq < unused)
    && (forall p, q :: 0 <= p < q < |ms| && IsRequest(ms[p]) && IsRequest(ms[q]) ==> ms[p].cseq < ms[q].cseq)
  }

  /** The agent's calls are on the wire with the numbers stored for them, its heartbeats with others. */
  ghost predicate Apart(ms: seq<Message>, cseqs: seq<int>) {
    && (forall p :: 0 <= p < |ms| && ms[p].Call? ==> ms[p].call < |cseqs| && cseqs[ms[p].call] == ms[p].cseq)
    && (forall p, k :: 0 <= p < |ms| && 0 <= k < |cseqs| && ms[p].Beat? ==> ms[p].cseq != cseqs[k])
  }

  /** Replies come in the order of their numbers, none of them to a request that has not been handled yet. */
  ghost predicate Replied(answers: seq<Message>, requests: seq<Message>, read: nat, unused: int) {
    && (forall p :: 0 <= p < |answers| && answers[p].Reply? ==> 0 <= answers[p].cseq < unused)
    && (forall p, q :: 0 <= p < q < |answers| && answers[p].Reply? && answers[q].Reply? ==>
          answers[p].cseq < answers[q].cseq)
    && (forall p, q :: 0 <= p < |answers| && read <= q < |requests| && answers[p].Reply? && IsRequest(requests[q]) ==>
          answers[p].cseq < requests[q].cseq)
  }

  ghost predicate NoCalls(ms: seq<Message>) {
    forall p :: 0 <= p < |ms| ==> !ms[p].Call?
  }

  ghost predicate Numbers(s: State) {
    && Shaped(s) && Stored(s.agent)
    && Ordered(s.toServer, Unused(s.agent)) && Ordered(s.toAgent, s.server.next)
    && Apart(s.toServer, s.agent.cseqs)
    && Replied(s.toAgent, s.toServer, s.server.read, Unused(s.agent))
    && NoCalls(s.toAgent)
  }

  lemma StoredNumber(a: Agent)
    requires Stored(a) && a.phase.Outside? && a.returned < CALLS
    ensures var b := a.(cseqs := a.cseqs[a.returned := a.next], next := a.next + 1, phase := Numbered);
      Stored(b) && Unused(a) == Unused(b)
  {
  }

  lemma StoredKept(a: Agent, b: Agent)
    requires Stored(a) && b.cseqs == a.cseqs && a.next <= b.next
    requires if b.returned == a.returned
             then (b.phase.Outside? <==> a.phase.Outside?) && (b.phase.Numbered? ==> a.phase.Numbered?)
             else a.phase.Waiting? && b.returned == a.returned + 1 && b.phase.Outside?
    ensures Stored(b) && Unused(a) <= Unused(b)
  {
  }

  lemma StoredStep(size: string, s: State, e: Event)
    requires Stored(s.agent) && Enabled(s, e)
    ensures Stored(Next(size, s, e).agent)
    ensures Unused(s.agent) <= Unused(Next(size, s, e).agent)
  {
    hide Match, Stored, Unused;
    if e.Number? {
      StoredNumber(s.agent);
    } else {
      StoredKept(s.agent, Next(size, s, e).agent);
    }
  }

  lemma OrderedAppend(ms: seq<Message>, unused: int, m: Message, later: int)
    requires Ordered(ms, unused) && unused <= later
    requires IsRequest(m) ==> unused <= m.cseq < later
    ensures Ordered(ms + [m], later)
  {
  }

  lemma ApartAppend(ms: seq<Message>, cseqs: seq<int>, m: Message)
    requires Apart(ms, cseqs)
    requires m.Call? ==> m.call < |cseqs| && cseqs[m.call] == m.cseq
    requires m.Beat? ==> forall k :: 0 <= k < |cseqs| ==> m.cseq != cseqs[k]
    ensures Apart(ms + [m], cseqs)
  {
  }

  lemma ApartNumber(ms: seq<Message>, cseqs: seq<int>, k: nat, unused: int)
    requires Apart(ms, cseqs) && Ordered(ms, unused) && k < |cseqs| && cseqs[k] == -1
    ensures Apart(ms, cseqs[k := unused])
  {
  }

  lemma RepliedRequest(answers: seq<Message>, requests: seq<Message>, read: nat, unused: int, m: Message, later: int)
    requires Replied(answers, requests, read, unused) && unused <= later
    requires IsRequest(m) ==> unused <= m.cseq
    ensures Replied(answers, requests + [m], read, later)
  {
  }

  lemma RepliedAnswer(answers: seq<Message>, requests: seq<Message>, read: nat, unused: int, m: Message)
    requires Replied(answers, requests, read, unused) && Ordered(requests, unused) && read < |requests|
    requires m.Reply? ==> IsRequest(requests[read]) && m.cseq == requests[read].cseq
    ensures Replied(answers + [m], requests, read + 1, unused)
  {
  }

  lemma RepliedOther(answers: seq<Message>, requests: seq<Message>, read: nat, unused: int, m: Message)
    requires Replied(answers, requests, read, unused) && !m.Reply?
    ensures Replied(answers + [m], requests, read, unused)
    ensures Replied(answers, requests, read + 1, unused)
  {
  }

  lemma Later(ms: seq<Message>, answers: seq<Message>, requests: seq<Message>, read: nat, unused: int, later: int)
    requires unused <= later
    ensures Ordered(ms, unused) ==> Ordered(ms, later)
    ensures Replied(answers, requests, read, unused) ==> Replied(answers, requests, read, later)
  {
  }

  /** A message is appended to what the agent has sent. */
  lemma AgentSends(s: State, m: Message, later: int)
    requires Numbers(s) && Unused(s.agent) <= later
    requires IsRequest(m) ==> Unused(s.agent) <= m.cseq < later
    requires m.Call? ==> m.call < CALLS && s.agent.cseqs[m.call] == m.cseq
    requires m.Beat? ==> forall k :: 0 <= k < CALLS ==> m.cseq != s.agent.cseqs[k]
    ensures Ordered(s.toServer + [m], later) && Apart(s.toServer + [m], s.agent.cseqs)
    ensures Replied(s.toAgent, s.toServer + [m], s.server.read, later)
  {
    hide Ordered, Apart, Replied;
    OrderedAppend(s.toServer, Unused(s.agent), m, later);
    ApartAppend(s.toServer, s.agent.cseqs, m);
    RepliedRequest(s.toAgent, s.toServer, s.server.read, Unused(s.agent), m, later);
  }

  lemma AgentNumbers(size: string, s: State, e: Event)
    requires Numbers(s) && Enabled(s, e)
    requires e.Number? || e.Transmit? || e.Return? || e.AgentHandle? || e.Note? || e.AgentBeatNumber?
      || e.AgentBeatSend?
    ensures Numbers(Next(size, s, e))
  {
    var a := s.agent;
    hide Ordered, Apart, Replied, Match, NoCalls;
    StoredStep(size, s, e);
    match e {
      case Number => ApartNumber(s.toServer, a.cseqs, a.returned, a.next);
      case Transmit => AgentSends(s, Call(a.cseqs[a.returned], a.returned), a.next);
      case AgentHandle =>
        var m := s.toAgent[a.read];
        if m.Beat? { AgentSends(s, Reply(m.cseq, true, ""), Unused(a)); }
      case AgentBeatNumber =>
        Later(s.toServer, s.toAgent, s.toServer, s.server.read, Unused(a), Unused(a.(next := a.next + 1)));
      case AgentBeatSend => AgentSends(s, Beat(a.next), a.next + 1);
      case _ =>
    }
  }

  lemma ServerNumbers(size: string, s: State, e: Event)
    requires Numbers(s) && Enabled(s, e)
    requires e.ServerHandle? || e.Accept? || e.ServerBeatNumber? || e.ServerBeatSend?
    ensures Numbers(Next(size, s, e))
  {
    var v := s.server;
    hide Ordered, Apart, Replied, Stored;
    match e {
      case ServerHandle(initFails, what) =>
        var m := s.toServer[v.read];
        var answer := if m.Call? then Answer(size, m.cseq, m.call, initFails, what) else Reply(m.cseq, true, "");
        OrderedAppend(s.toAgent, v.next, answer, v.next);
        if IsRequest(m) {
          RepliedAnswer(s.toAgent, s.toServer, v.read, Unused(s.agent), answer);
        } else {
          RepliedOther(s.toAgent, s.toServer, v.read, Unused(s.agent), Beat(0));
        }
      case ServerBeatNumber => Later(s.toAgent, s.toAgent, s.toServer, v.read, v.next, v.next + 1);
      case ServerBeatSend =>
        OrderedAppend(s.toAgent, v.next, Beat(v.next), v.next + 1);
        RepliedOther(s.toAgent, s.toServer, v.read, Unused(s.agent), Beat(v.next));
      case _ =>
    }
  }

  // --- what every step keeps: calls ---------------------------------------------------------------------

  /** How far the agent is, against how far the server is. */
  ghost predicate Timing(a: Agent, v: Server) {
    && |a.received| == CALLS && a.returned <= v.answered <= CALLS
    && (match a.phase
        case Outside => v.answered == a.returned
        case Numbered => v.answered == a.returned
        case Waiting => v.answered <= a.returned + 1
        case Failed => v.answered == a.returned + 1 && a.returned == SCREEN && a.received[SCREEN] && v.screenFailed)
    && (forall k :: 0 <= k < a.returned ==> a.received[k])
    && (forall k :: a.returned < k < CALLS ==> !a.received[k])
    && (a.returned < CALLS && a.received[a.returned] ==> v.answered == a.returned + 1 && a.reader.Idle?)
    && (a.reader.Matched? ==> a.phase.Waiting? && a.reader.call == a.returned && v.answered == a.returned + 1)
    && (v.screenFailed ==> a.returned == SCREEN && v.answered == SCREEN + 1)
  }

  /** The reply that a call is to get. */
  ghost predicate Right(size: string, v: Server, call: nat, reply: Message) {
    && reply.Reply?
    && (call == RESOLUTION ==> reply.data == size)
    && (reply.ok <==> !(call == SCREEN && v.screenFailed))
  }

  ghost predicate Results(size: string, a: Agent, v: Server) {
    && |a.received| == CALLS
    && (a.received[RESOLUTION] ==> a.resolution == Some(size))
    && (a.received[SCREEN] ==> (a.screenResult <==> !v.screenFailed))
    && (a.reader.Matched? ==> Right(size, v, a.reader.call, a.reader.reply))
  }

  /** The connection a pipeline has been built on, going by the calls answered: the one its own call opened. */
  ghost function Built(v: Server, k: nat): Option<nat> {
    if RESOLUTION < k < v.answered && v.handler != Accepting(k) && !(k == SCREEN && v.screenFailed)
    then Some(k) else None
  }

  /** Each pipeline answered for has been, or is just being, built on the connection that its own call opened. */
  ghost predicate Paired(s: State) {
    var a, v := s.agent, s.server;
    && |v.pipelines| == CALLS
    && (match v.handler
        case Accepting(k) =>
          && 1 <= k && k + 1 == v.answered && !(k == SCREEN && v.screenFailed)
          && (if a.returned == k then a.phase.Waiting? && s.backlog == [] else s.backlog == [k])
        case Ready =>
          && s.backlog == []
          && (a.returned < v.answered ==> a.returned == RESOLUTION || (a.returned == SCREEN && v.screenFailed)))
    && (forall k: nat :: k < CALLS ==> v.pipelines[k] == Built(v, k))
  }

  /** No call but the current one, not answered yet, is on its way to the server. */
  ghost predicate UnreadCalls(s: State) {
    forall p :: s.server.read <= p < |s.toServer| && s.toServer[p].Call? ==>
      s.toServer[p].call == s.agent.returned && s.agent.phase.Waiting? && s.server.answered == s.agent.returned
  }

  /** No reply that can match is on its way to the agent but the one to the current call, and it is right. */
  ghost predicate UnreadReplies(size: string, s: State) {
    var a, v := s.agent, s.server;
    |a.received| == CALLS &&
    forall p, k ::
      (a.read <= p < |s.toAgent| && s.toAgent[p].Reply? && 0 <= k < |a.cseqs| && a.cseqs[k] == s.toAgent[p].cseq) ==>
      && k == a.returned && k < CALLS && a.phase.Waiting? && v.answered == k + 1 && !a.received[k] && a.reader.Idle?
      && Right(size, v, k, s.toAgent[p])
  }

  ghost predicate Calls(size: string, s: State) {
    Timing(s.agent, s.server) && Results(size, s.agent, s.server) && Paired(s) && UnreadCalls(s)
      && UnreadReplies(size, s)
  }

  lemma TimingOfHandling(size: string, s: State)
    requires Shaped(s) && Timing(s.agent, s.server) && UnreadReplies(size, s) && Enabled(s, AgentHandle)
    ensures Timing(Next(size, s, AgentHandle).agent, Next(size, s, AgentHandle).server)
  {
    hide Right;
  }

  lemma TimingOfNoting(size: string, s: State)
    requires Timing(s.agent, s.server) && Enabled(s, Note)
    ensures Timing(Next(size, s, Note).agent, Next(size, s, Note).server)
  {
    hide Match;
  }

  lemma TimingOfReturn(size: string, s: State)
    requires Numbers(s) && Calls(size, s) && Enabled(s, Return)
    ensures Timing(Next(size, s, Return).agent, Next(size, s, Return).server)
  {
    hide Ordered, Replied, Apart, UnreadCalls, UnreadReplies, Paired, Right, Match;
  }

  lemma TimingOfAnswers(size: string, s: State, e: Event)
    requires Numbers(s) && Calls(size, s) && Enabled(s, e) && e.ServerHandle?
    ensures Timing(Next(size, s, e).agent, Next(size, s, e).server)
  {
    hide Ordered, Replied, Apart, UnreadReplies, Results, Match;
  }

  lemma TimingStep(size: string, s: State, e: Event)
    requires Numbers(s) && Calls(size, s) && Enabled(s, e)
    ensures Timing(Next(size, s, e).agent, Next(size, s, e).server)
  {
    hide Ordered, Replied, Apart, Results, Paired, UnreadCalls, UnreadReplies, Match;
    if e.AgentHandle? {
      TimingOfHandling(size, s);
    } else if e.Note? {
      TimingOfNoting(size, s);
    } else if e.Return? {
      TimingOfReturn(size, s);
    } else if e.ServerHandle? {
      TimingOfAnswers(size, s, e);
    }
  }

  lemma ResultsStep(size: string, s: State, e: Event)
    requires Numbers(s) && Calls(size, s) && Enabled(s, e)
    ensures Results(size, Next(size, s, e).agent, Next(size, s, e).server)
  {
    hide Ordered, Replied, Apart, Paired;
  }

  lemma PairedStep(size: string, s: State, e: Event)
    requires Numbers(s) && Calls(size, s) && Enabled(s, e)
    ensures Paired(Next(size, s, e))
  {
    hide Ordered, Replied, Apart, Match;
  }

  lemma UnreadCallsStep(size: string, s: State, e: Event)
    requires Numbers(s) && Calls(size, s) && Enabled(s, e)
    ensures UnreadCalls(Next(size, s, e))
  {
    hide Replied, Paired, Results, Match;
  }

  lemma UnreadAfterHandle(size: string, s: State)
    requires Numbers(s) && Calls(size, s) && Enabled(s, AgentHandle)
    ensures UnreadReplies(size, Next(size, s, AgentHandle))
  {
    hide Paired, Results, Ordered, Apart, Stored, UnreadCalls, Right;
    var a := s.agent;
    var m := s.toAgent[a.read];
    if m.Reply? && Match(a.cseqs, m.cseq, 0).Some? {
      assert a.cseqs[a.returned] == m.cseq;
      forall p, k | a.read < p < |s.toAgent| && 0 <= k < CALLS && s.toAgent[p].Reply?
        ensures a.cseqs[k] != s.toAgent[p].cseq {
        assert m.cseq < s.toAgent[p].cseq;
      }
    }
  }

  /** An answer to a call matches only that call, an answer to a heartbeat matches none. */
  lemma AnswerMatches(s: State, k: nat)
    requires Numbers(s) && s.server.read < |s.toServer| && k < CALLS
    requires IsRequest(s.toServer[s.server.read]) && s.toServer[s.server.read].cseq == s.agent.cseqs[k]
    ensures s.toServer[s.server.read].Call? && s.toServer[s.server.read].call == k
  {
    var m := s.toServer[s.server.read];
    assert m.cseq >= 0;
    assert m.Call? ==> s.agent.cseqs[m.call] == m.cseq;
    hide Replied, Unused;
  }

  lemma UnreadAfterAnswer(size: string, s: State, e: Event)
    requires Numbers(s) && Calls(size, s) && Enabled(s, e) && e.ServerHandle?
    ensures UnreadReplies(size, Next(size, s, e))
  {
    hide Paired, Results, Ordered, Apart, Stored, Replied, Match;
    var m := s.toServer[s.server.read];
    forall k: nat | k < CALLS && IsRequest(m) && m.cseq == s.agent.cseqs[k] ensures m.Call? && m.call == k {
      AnswerMatches(s, k);
    }
  }

  lemma UnreadAfterNumber(size: string, s: State)
    requires Numbers(s) && Calls(size, s) && Enabled(s, Number)
    ensures UnreadReplies(size, Next(size, s, Number))
  {
    hide Paired, Results, Ordered, Apart, Right, Match;
  }

  lemma UnreadRepliesStep(size: string, s: State, e: Event)
    requires Numbers(s) && Calls(size, s) && Enabled(s, e)
    ensures UnreadReplies(size, Next(size, s, e))
  {
    match e {
      case AgentHandle => UnreadAfterHandle(size, s);
      case ServerHandle(_, _) => UnreadAfterAnswer(size, s, e);
      case Number => UnreadAfterNumber(size, s);
      case _ =>
    }
    hide Paired, Results, Ordered, Apart, Replied, Stored, Match, Right;
  }

  // --- what every step keeps: histories -------------------------------------------------------------------

  /** Every call that has left the agent is on the wire under the number stored for it. */
  ghost predicate Sent(s: State) {
    var a := s.agent;
    forall k: nat :: k < |a.cseqs| && (k < a.returned || (k == a.returned && (a.phase.Waiting? || a.phase.Failed?))) ==>
      Call(a.cseqs[k], k) in s.toServer
  }

  lemma SentStep(size: string, s: State, e: Event)
    requires Numbers(s) && Calls(size, s) && Sent(s) && Enabled(s, e)
    ensures Sent(Next(size, s, e))
  {
    hide Stored, Ordered, Apart, Replied, Paired, UnreadCalls, UnreadReplies, Results, Match;
    if e.Transmit? {
      assert Next(size, s, e).toServer[|s.toServer|] == Call(s.agent.cseqs[s.agent.returned], s.agent.returned);
    }
  }

  /** The numbers of the requests in a list of messages, and those of the replies. */
  function Requests(ms: seq<Message>): seq<int> {
    if ms == [] then []
    else Requests(ms[..|ms| - 1]) + if IsRequest(ms[|ms| - 1]) then [ms[|ms| - 1].cseq] else []
  }

  function Replies(ms: seq<Message>): seq<int> {
    if ms == [] then []
    else Replies(ms[..|ms| - 1]) + if ms[|ms| - 1].Reply? then [ms[|ms| - 1].cseq] else []
  }

  /** What has been answered is exactly what has been read. */
  ghost predicate Echo(answers: seq<Message>, requests: seq<Message>, read: nat) {
    read <= |requests| && Replies(answers) == Requests(requests[..read])
  }

  lemma Sends(answers: seq<Message>, requests: seq<Message>, read: nat, m: Message)
    requires Echo(answers, requests, read)
    ensures Echo(answers, requests + [m], read)
    ensures !m.Reply? ==> Echo(answers + [m], requests, read)
  {
    assert (requests + [m])[..read] == requests[..read];
    assert (answers + [m])[..|answers|] == answers;
  }

  lemma Reads(answers: seq<Message>, requests: seq<Message>, read: nat, m: Message)
    requires Echo(answers, requests, read) && read < |requests|
    requires m.Reply? && m.cseq == requests[read].cseq
    ensures Echo(if IsRequest(requests[read]) then answers + [m] else answers, requests, read + 1)
  {
    assert requests[..read + 1][..read] == requests[..read];
    assert (answers + [m])[..|answers|] == answers;
  }

  ghost predicate Echoes(s: State) {
    Echo(s.toAgent, s.toServer, s.server.read) && Echo(s.toServer, s.toAgent, s.agent.read)
  }

  lemma EchoesStep(size: string, s: State, e: Event)
    requires NoCalls(s.toAgent) && Echoes(s) && Enabled(s, e)
    ensures Echoes(Next(size, s, e))
  {
    hide Echo, Match;
    var a, v := s.agent, s.server;
    match e {
      case Transmit =>
        Sends(s.toAgent, s.toServer, v.read, Call(a.cseqs[a.returned], a.returned));
        Sends(s.toServer, s.toAgent, a.read, Call(a.cseqs[a.returned], a.returned));
      case AgentBeatSend =>
        Sends(s.toAgent, s.toServer, v.read, Beat(a.next));
        Sends(s.toServer, s.toAgent, a.read, Beat(a.next));
      case ServerBeatSend =>
        Sends(s.toAgent, s.toServer, v.read, Beat(v.next));
        Sends(s.toServer, s.toAgent, a.read, Beat(v.next));
      case AgentHandle =>
        var answer := Reply(s.toAgent[a.read].cseq, true, "");
        Reads(s.toServer, s.toAgent, a.read, answer);
        Sends(s.toAgent, s.toServer, v.read, answer);
      case ServerHandle(initFails, what) =>
        var m := s.toServer[v.read];
        var answer := if m.Call? then Answer(size, m.cseq, m.call, initFails, what) else Reply(m.cseq, true, "");
        Reads(s.toAgent, s.toServer, v.read, answer);
        Sends(s.toServer, s.toAgent, a.read, answer);
      case _ =>
    }
  }

  /** A call is on its way until it is answered, ... */
  ghost predicate CallUnderWay(s: State) {
    forall p :: 0 <= p < s.server.read && p < |s.toServer| && s.toServer[p].Call? ==>
      s.toServer[p].call < s.server.answered
  }

  ghost predicate AwaitsAnswer(a: Agent, v: Server) {
    && a.phase.Waiting? && a.returned < |a.cseqs| == |a.received|
    && v.answered > a.returned && !a.received[a.returned] && a.reader.Idle?
  }

  /** ... and from then on its answer is, until the agent has it. */
  ghost predicate AnswerUnderWay(s: State) {
    var a := s.agent;
    AwaitsAnswer(a, s.server) ==>
      exists p :: a.read <= p < |s.toAgent| && s.toAgent[p].Reply? && s.toAgent[p].cseq == a.cseqs[a.returned]
  }

  lemma CallUnderWayStep(size: string, s: State, e: Event)
    requires Numbers(s) && Calls(size, s) && CallUnderWay(s) && Enabled(s, e)
    ensures CallUnderWay(Next(size, s, e))
  {
    hide Stored, Ordered, Apart, Replied, Paired, UnreadReplies, Results, Match;
  }

  lemma AnswerUnderWayStep(size: string, s: State, e: Event)
    requires Numbers(s) && Calls(size, s) && AnswerUnderWay(s) && Enabled(s, e)
    ensures AnswerUnderWay(Next(size, s, e))
  {
    hide Ordered, Replied, Paired, UnreadReplies, Results, Stored;
    var a, t := s.agent, Next(size, s, e);
    if e.ServerHandle? && s.toServer[s.server.read].Call? {
      assert t.toAgent[|s.toAgent|].cseq == s.toServer[s.server.read].cseq;
    } else if AwaitsAnswer(t.agent, t.server) {
      var p :| a.read <= p < |s.toAgent| && s.toAgent[p].Reply? && s.toAgent[p].cseq == a.cseqs[a.returned];
      assert t.toAgent[p] == s.toAgent[p];
    }
  }

  ghost predicate Inv(size: string, s: State) {
    Numbers(s) && Calls(size, s) && Sent(s) && Echoes(s) && CallUnderWay(s) && AnswerUnderWay(s)
  }

  lemma InvStep(size: string, s: State, e: Event)
    requires Inv(size, s) && Enabled(s, e)
    ensures Inv(size, Next(size, s, e))
  {
    assert NoCalls(s.toAgent);
    hide Numbers, Timing, Results, Paired, UnreadCalls, UnreadReplies;
    hide Sent, Echoes, CallUnderWay, AnswerUnderWay, Enabled, Next;
    if e.ServerHandle? || e.Accept? || e.ServerBeatNumber? || e.ServerBeatSend? {
      ServerNumbers(size, s, e);
    } else {
      AgentNumbers(size, s, e);
    }
    TimingStep(size, s, e);
    ResultsStep(size, s, e);
    PairedStep(size, s, e);
    UnreadCallsStep(size, s, e);
    UnreadRepliesStep(size, s, e);
    SentStep(size, s, e);
    EchoesStep(size, s, e);
    CallUnderWayStep(size, s, e);
    AnswerUnderWayStep(size, s, e);
  }

  lemma {:induction false} RunKeeps(size: string, s: State, events: seq<Event>, t: State)
    requires Inv(size, s) && Run(size, s, events, t)
    ensures Inv(size, t)
    decreases |events|
  {
    hide Inv, Enabled, Next;
    if events == [] {
    } else {
      InvStep(size, s, events[0]);
      RunKeeps(size, Next(size, s, events[0]), events[1..], t);
    }
  }

  lemma StartInv(size: string)
    ensures Inv(size, Start())
  {
    assert Echo([], [], 0);
  }

  ghost predicate Reachable(size: string, s: State) {
    exists events :: Run(size, Start(), events, s)
  }

  lemma ReachableInv(size: string, s: State)
    requires Reachable(size, s)
    ensures Inv(size, s)
  {
    hide Inv, Run, Start;
    var events :| Run(size, Start(), events, s);
    StartInv(size);
    RunKeeps(size, Start(), events, s);
  }

  lemma {:induction false} RunSnoc(size: string, s: State, events: seq<Event>, t: State, e: Event)
    requires Run(size, s, events, t) && Enabled(t, e)
    ensures Run(size, s, events + [e], Next(size, t, e))
    decreases |events|
  {
    hide Enabled, Next;
    if events == [] {
      assert [] + [e] == [e] && [e][1..] == [];
      assert Run(size, Next(size, t, e), [], Next(size, t, e));
    } else {
      assert (events + [e])[0] == events[0] && (events + [e])[1..] == events[1..] + [e];
      RunSnoc(size, Next(size, s, events[0]), events[1..], t, e);
    }
  }

  lemma ReachableNext(size: string, s: State, e: Event)
    requires Reachable(size, s) && Enabled(s, e)
    ensures Reachable(size, Next(size, s, e))
  {
    hide Run, Enabled, Next, Start;
    var events :| Run(size, Start(), events, s);
    RunSnoc(size, Start(), events, s, e);
  }

  lemma StartReachable(size: string)
    ensures Reachable(size, Start())
  {
    assert Run(size, Start(), [], Start());
  }

  // --- main results ---------------------------------------------------------------------------------------

  /**
    Whatever the interleaving, a pipeline is built on the connection that its own call opened; at most one
    connection waits to be accepted, and the agent is at most one call ahead of the server's accept.
  */
  lemma ChannelsArePaired(size: string, s: State)
    requires Reachable(size, s)
    ensures Shaped(s)
    ensures forall k: nat :: k < CALLS && s.server.pipelines[k].Some? ==> s.server.pipelines[k] == Some(k)
    ensures |s.backlog| <= 1
    ensures s.server.handler.Accepting? ==> s.backlog == [] || s.backlog == [s.server.handler.call]
    ensures s.server.handler.Accepting? ==> s.server.handler.call <= s.agent.returned <= s.server.handler.call + 1
  {
    hide Run;
    ReachableInv(size, s);
    assert Paired(s);
    hide Stored, Ordered, Apart, Replied, Results, UnreadCalls, UnreadReplies, Sent, Echoes;
  }

  /**
    A reply is taken for the answer to a call if and only if it carries the number under which that call
    was sent; one to a heartbeat is taken for nothing, and so no number stands for two requests.
  */
  lemma RepliesMatchTheirCall(size: string, s: State)
    requires Reachable(size, s) && Enabled(s, AgentHandle) && s.toAgent[s.agent.read].Reply?
    ensures var m, t := s.toAgent[s.agent.read], Next(size, s, AgentHandle);
      && (t.agent.reader.Matched? <==> exists k: nat :: Call(m.cseq, k) in s.toServer)
      && (forall k: nat :: Call(m.cseq, k) in s.toServer ==> t.agent.reader == Matched(k, m) && k == s.agent.returned)
  {
    hide Run;
    ReachableInv(size, s);
    hide Ordered, Results, UnreadCalls, Paired, Echoes, Timing, CallUnderWay, AnswerUnderWay, Right;
    var m, t := s.toAgent[s.agent.read], Next(size, s, AgentHandle);
    if t.agent.reader.Matched? {
      assert Call(m.cseq, t.agent.reader.call) in s.toServer;
    }
  }

  /**
    Requests leave both sessions with strictly increasing numbers, none negative; a call's is stored before it
    is sent.
  */
  lemma NumbersIncrease(size: string, s: State)
    requires Reachable(size, s)
    ensures forall p, q :: 0 <= p < q < |s.toServer| && IsRequest(s.toServer[p]) && IsRequest(s.toServer[q]) ==>
      s.toServer[p].cseq < s.toServer[q].cseq
    ensures forall p, q :: 0 <= p < q < |s.toAgent| && IsRequest(s.toAgent[p]) && IsRequest(s.toAgent[q]) ==>
      s.toAgent[p].cseq < s.toAgent[q].cseq
    ensures forall p :: 0 <= p < |s.toServer| && IsRequest(s.toServer[p]) ==> s.toServer[p].cseq >= 0
    ensures forall p :: 0 <= p < |s.toAgent| && IsRequest(s.toAgent[p]) ==> s.toAgent[p].cseq >= 0
    ensures |s.agent.cseqs| == CALLS
    ensures forall p :: 0 <= p < |s.toServer| && s.toServer[p].Call? ==>
      s.toServer[p].call < CALLS && s.agent.cseqs[s.toServer[p].call] == s.toServer[p].cseq
  {
    hide Run;
    ReachableInv(size, s);
    hide Stored, Replied, Timing, Results, Paired, UnreadCalls, UnreadReplies, Sent, Echoes;
  }

  /** Each session answers exactly the requests it has handled, each once, in order and under their numbers. */
  lemma AnswersEcho(size: string, s: State)
    requires Reachable(size, s)
    ensures Shaped(s)
    ensures Replies(s.toAgent) == Requests(s.toServer[..s.server.read])
    ensures Replies(s.toServer) == Requests(s.toAgent[..s.agent.read])
  {
    hide Run;
    ReachableInv(size, s);
    hide Stored, Ordered, Apart, Replied, Timing, Results, Paired, UnreadCalls, UnreadReplies, Sent;
  }

  /** The first call returns what the server reports; a failed screen set-up, and nothing else, fails the agent. */
  lemma ResultsArrive(size: string, s: State)
    requires Reachable(size, s)
    ensures s.agent.returned > RESOLUTION ==> s.agent.resolution == Some(size)
    ensures s.agent.phase.Failed? ==> s.server.screenFailed
    ensures s.server.screenFailed ==> s.agent.returned == SCREEN
  {
    hide Run;
    ReachableInv(size, s);
    hide Stored, Ordered, Apart, Replied, Paired, UnreadCalls, UnreadReplies, Sent, Echoes;
  }

  /**
    Outside calls the agent's reader takes no reply for an answer, so it does not go for the mutex; a
    destructor that holds the mutex while it joins the reader is held up only by a call under way.
  */
  lemma NoReplyMatchesOutsideCalls(size: string, s: State)
    requires Reachable(size, s) && !s.agent.phase.Waiting?
    ensures s.agent.reader.Idle?
    ensures forall p :: s.agent.read <= p < |s.toAgent| && s.toAgent[p].Reply? ==> s.toAgent[p].cseq !in s.agent.cseqs
  {
    hide Run;
    ReachableInv(size, s);
    hide Ordered, Apart, Replied, Paired, UnreadCalls, Sent, Echoes, Right;
  }

  // --- what is answered, and how numbers are spent ----------------------------------------------------------

  function Beats(ms: seq<Message>): nat {
    if ms == [] then 0 else Beats(ms[..|ms| - 1]) + if ms[|ms| - 1].Beat? then 1 else 0
  }

  lemma BeatsSnoc(ms: seq<Message>, m: Message)
    ensures Beats(ms + [m]) == Beats(ms) + if m.Beat? then 1 else 0
  {
    assert (ms + [m])[..|ms|] == ms;
  }

  /** Every number is a call's, or one of the two that each heartbeat takes. */
  ghost predicate NumbersSpent(s: State) {
    var a, v := s.agent, s.server;
    && a.next == a.returned + (if a.phase.Outside? then 0 else 1) + 2 * Beats(s.toServer) + (if a.beat then 1 else 0)
    && v.next == 2 * Beats(s.toAgent) + (if v.beat then 1 else 0)
  }

  lemma NumbersSpentStep(size: string, s: State, e: Event)
    requires NumbersSpent(s) && Enabled(s, e)
    ensures NumbersSpent(Next(size, s, e))
  {
    hide Beats, Match;
    var t := Next(size, s, e);
    if |t.toServer| > |s.toServer| {
      var m := t.toServer[|s.toServer|];
      assert t.toServer == s.toServer + [m];
      BeatsSnoc(s.toServer, m);
    }
    if |t.toAgent| > |s.toAgent| {
      var m := t.toAgent[|s.toAgent|];
      assert t.toAgent == s.toAgent + [m];
      BeatsSnoc(s.toAgent, m);
    }
  }

  lemma {:induction false} NumbersSpentRun(size: string, s: State, events: seq<Event>, t: State)
    requires NumbersSpent(s) && Run(size, s, events, t)
    ensures NumbersSpent(t)
    decreases |events|
  {
    hide NumbersSpent, Enabled, Next;
    if events == [] {
    } else {
      NumbersSpentStep(size, s, events[0]);
      NumbersSpentRun(size, Next(size, s, events[0]), events[1..], t);
    }
  }

  /** Both sessions account for all their numbers: one for each call, two for each heartbeat. */
  lemma NumbersAreSpent(size: string, s: State)
    requires Reachable(size, s)
    ensures s.agent.next ==
      s.agent.returned + (if s.agent.phase.Outside? then 0 else 1)
        + 2 * Beats(s.toServer) + (if s.agent.beat then 1 else 0)
    ensures s.server.next == 2 * Beats(s.toAgent) + (if s.server.beat then 1 else 0)
  {
    hide Run, Beats;
    var events :| Run(size, Start(), events, s);
    NothingSpent();
    NumbersSpentRun(size, Start(), events, s);
  }

  lemma NothingSpent()
    ensures NumbersSpent(Start())
  {
  }

  /** The reply that a request is to get. */
  ghost predicate Answers(size: string, v: Server, request: Message, reply: Message) {
    match request
    case Beat(c) => reply == Message.Reply(c, true, "")
    case Call(c, k) =>
      if k == RESOLUTION then reply == Message.Reply(c, true, size)
      else if k == SCREEN && v.screenFailed then reply.Reply? && reply.cseq == c && !reply.ok
      else reply == Message.Reply(c, true, "")
    case Reply(_, _, _) => true
  }

  ghost predicate AllAnswered(size: string, s: State) {
    && (forall p, q ::
          (0 <= p < |s.toAgent| && 0 <= q < s.server.read && q < |s.toServer|
           && s.toAgent[p].Reply? && IsRequest(s.toServer[q]) && s.toAgent[p].cseq == s.toServer[q].cseq) ==>
            Answers(size, s.server, s.toServer[q], s.toAgent[p]))
    && (forall p :: 0 <= p < |s.toServer| && s.toServer[p].Reply? ==> s.toServer[p].ok && s.toServer[p].data == "")
  }

  lemma AllAnsweredByAgent(size: string, s: State, e: Event)
    requires Numbers(s) && AllAnswered(size, s) && Enabled(s, e) && !e.ServerHandle?
    ensures AllAnswered(size, Next(size, s, e))
  {
    hide Match, Stored, Ordered, Apart, Replied, Answers;
    var t := Next(size, s, e);
    assert t.server.screenFailed == s.server.screenFailed && t.server.read == s.server.read;
    forall request: Message, reply: Message
      ensures Answers(size, t.server, request, reply) <==> Answers(size, s.server, request, reply) {
      AnswersByHistory(size, s.server, t.server, request, reply);
    }
  }

  lemma AnswersByHistory(size: string, v: Server, w: Server, request: Message, reply: Message)
    requires v.screenFailed == w.screenFailed
    ensures Answers(size, v, request, reply) <==> Answers(size, w, request, reply)
  {
  }

  /** A request being handled is new: nothing has been answered under its number. */
  lemma NotAnsweredYet(s: State)
    requires Numbers(s) && s.server.read < |s.toServer| && IsRequest(s.toServer[s.server.read])
    ensures forall p :: 0 <= p < |s.toAgent| && s.toAgent[p].Reply? ==>
      s.toAgent[p].cseq < s.toServer[s.server.read].cseq
    ensures forall q :: 0 <= q < s.server.read && IsRequest(s.toServer[q]) ==>
      s.toServer[q].cseq < s.toServer[s.server.read].cseq
  {
  }

  lemma AllAnsweredByServer(size: string, s: State, e: Event)
    requires Inv(size, s) && AllAnswered(size, s) && Enabled(s, e) && e.ServerHandle?
    ensures AllAnswered(size, Next(size, s, e))
  {
    assert Numbers(s) && UnreadCalls(s) && Timing(s.agent, s.server) && CallUnderWay(s);
    hide Inv, Numbers, Timing;
    if IsRequest(s.toServer[s.server.read]) { NotAnsweredYet(s); }
    var t := Next(size, s, e);
    forall p, q | 0 <= p < |t.toAgent| && 0 <= q < t.server.read && q < |t.toServer|
        && t.toAgent[p].Reply? && IsRequest(t.toServer[q]) && t.toAgent[p].cseq == t.toServer[q].cseq
      ensures Answers(size, t.server, t.toServer[q], t.toAgent[p]) {
      if q == s.server.read {
        assert p == |s.toAgent|;
      } else {
        assert p < |s.toAgent|;
        assert Answers(size, s.server, t.toServer[q], t.toAgent[p]);
      }
    }
  }

  lemma {:induction false} AllAnsweredRun(size: string, s: State, events: seq<Event>, t: State)
    requires Inv(size, s) && AllAnswered(size, s) && Run(size, s, events, t)
    ensures AllAnswered(size, t)
    decreases |events|
  {
    if events == [] {
    } else {
      assert Numbers(s);
      hide Inv, Numbers, AllAnswered, Enabled, Next;
      InvStep(size, s, events[0]);
      if events[0].ServerHandle? {
        AllAnsweredByServer(size, s, events[0]);
      } else {
        AllAnsweredByAgent(size, s, events[0]);
      }
      AllAnsweredRun(size, Next(size, s, events[0]), events[1..], t);
    }
  }

  /**
    What every reply says, at both ends: heartbeats and set-ups are answered with a success without data,
    RESOLUTION with the screen size, and the screen with a failure exactly if it could not be set up.
  */
  lemma RepliesAreRight(size: string, s: State)
    requires Reachable(size, s)
    ensures forall p, q ::
      (0 <= p < |s.toAgent| && 0 <= q < s.server.read && q < |s.toServer|
       && s.toAgent[p].Reply? && IsRequest(s.toServer[q]) && s.toAgent[p].cseq == s.toServer[q].cseq) ==>
        Answers(size, s.server, s.toServer[q], s.toAgent[p])
    ensures forall p :: 0 <= p < |s.toServer| && s.toServer[p].Reply? ==>
      s.toServer[p] == Reply(s.toServer[p].cseq, true, "")
  {
    hide Run, Answers, Inv;
    var events :| Run(size, Start(), events, s);
    StartInv(size);
    NothingAnswered(size);
    AllAnsweredRun(size, Start(), events, s);
  }

  lemma NothingAnswered(size: string)
    ensures AllAnswered(size, Start())
  {
  }

  /** The screen set-up is refused, with the reason, if and only if the initialisation failed; else it is accepted. */
  lemma ScreenRefusedIff(size: string, s: State, initFails: bool, what: string, c: int)
    requires Enabled(s, ServerHandle(initFails, what)) && s.toServer[s.server.read] == Call(c, SCREEN)
    ensures var t := Next(size, s, ServerHandle(initFails, what));
      if initFails
      then t.toAgent == s.toAgent + [Reply(c, false, what)] && t.server.screenFailed && t.server.handler.Ready?
      else t.toAgent == s.toAgent + [Reply(c, true, "")] && t.server.screenFailed == s.server.screenFailed
           && t.server.handler == Accepting(SCREEN)
  {
  }

  /** A screen that could not be set up goes back to an initialisation that failed. */
  lemma {:induction false} FailedBecause(size: string, s: State, events: seq<Event>, t: State)
    requires Run(size, s, events, t) && t.server.screenFailed && !s.server.screenFailed
    ensures exists e :: e in events && e.ServerHandle? && e.initFails
    decreases |events|
  {
    if events == [] {
    } else {
      var u := Next(size, s, events[0]);
      FailsOnlyBy(size, s, events[0]);
      hide Enabled, Next;
      if !u.server.screenFailed {
        FailedBecause(size, u, events[1..], t);
        var e :| e in events[1..] && e.ServerHandle? && e.initFails;
        assert e in events;
      } else {
        assert events[0] in events;
      }
    }
  }

  lemma FailsOnlyBy(size: string, s: State, e: Event)
    requires Enabled(s, e) && !s.server.screenFailed
    ensures Next(size, s, e).server.screenFailed ==> e.ServerHandle? && e.initFails
  {
    hide Match;
  }

  /** Without a failed initialisation the agent never fails. */
  lemma NoFailureWithoutCause(size: string, events: seq<Event>, s: State)
    requires Run(size, Start(), events, s) && forall e :: e in events && e.ServerHandle? ==> !e.initFails
    ensures !s.server.screenFailed && !s.agent.phase.Failed?
  {
    hide Run, Enabled, Next;
    assert Reachable(size, s);
    ResultsArrive(size, s);
    if s.server.screenFailed {
      FailedBecause(size, Start(), events, s);
    }
  }

  // --- progress -------------------------------------------------------------------------------------------

  predicate OfTimer(e: Event) { e.AgentBeatNumber? || e.AgentBeatSend? || e.ServerBeatNumber? || e.ServerBeatSend? }

  function Cost(m: Message): nat { if m.Reply? then 2 else 3 }

  function Unread(ms: seq<Message>, read: nat): nat
    decreases |ms| - read
  {
    if read >= |ms| then 0 else Cost(ms[read]) + Unread(ms, read + 1)
  }

  lemma {:induction false} UnreadAppend(ms: seq<Message>, m: Message, read: nat)
    requires read <= |ms|
    ensures Unread(ms + [m], read) == Unread(ms, read) + Cost(m)
    decreases |ms| - read
  {
    if read < |ms| {
      UnreadAppend(ms, m, read + 1);
    } else {
      assert Unread(ms + [m], read + 1) == 0;
    }
  }

  /** What is left to do if no heartbeat is sent any more. */
  function Rank(s: State): int {
    var a := s.agent;
    10 * (CALLS - a.returned) - (match a.phase case Outside => 0 case Numbered => 1 case Waiting => 5 case Failed => 9)
    + (if a.reader.Matched? then 1 else 0) + |s.backlog| + Unread(s.toServer, s.server.read) + Unread(s.toAgent, a.read)
  }

  lemma RankDropsAtAgent(size: string, s: State, e: Event)
    requires Stored(s.agent) && NoCalls(s.toAgent) && Enabled(s, e)
    requires e.Number? || e.Transmit? || e.Return? || e.AgentHandle? || e.Note?
    ensures Rank(Next(size, s, e)) < Rank(s)
  {
    hide Match;
    var a := s.agent;
    if e.Transmit? {
      UnreadAppend(s.toServer, Call(a.cseqs[a.returned], a.returned), s.server.read);
    } else if e.AgentHandle? {
      UnreadAppend(s.toServer, Reply(s.toAgent[a.read].cseq, true, ""), s.server.read);
    }
  }

  lemma RankDropsAtServer(size: string, s: State, e: Event)
    requires Enabled(s, e) && (e.ServerHandle? || e.Accept?)
    ensures Rank(Next(size, s, e)) < Rank(s)
  {
    if e.ServerHandle? {
      var m := s.toServer[s.server.read];
      var answer := if m.Call? then Answer(size, m.cseq, m.call, e.initFails, e.what) else Reply(m.cseq, true, "");
      UnreadAppend(s.toAgent, answer, s.agent.read);
    }
  }

  lemma RankDrops(size: string, s: State, e: Event)
    requires Inv(size, s) && Enabled(s, e) && !OfTimer(e)
    ensures Rank(Next(size, s, e)) < Rank(s)
  {
    hide Stored, NoCalls, Enabled, Next, Rank;
    if e.ServerHandle? || e.Accept? {
      RankDropsAtServer(size, s, e);
    } else {
      RankDropsAtAgent(size, s, e);
    }
  }

  /**
    The server has built every pipeline and the agent has returned from every call, or the screen could not be
    set up.
  */
  predicate Done(s: State) {
    || (s.agent.returned == CALLS && s.server.handler.Ready? && s.backlog == []
        && s.server.pipelines == [None, Some(1), Some(2), Some(3), Some(4), Some(5)])
    || (s.agent.phase.Failed? && s.server.screenFailed
        && s.server.pipelines == [None, None, None, None, None, None])
  }

  /** While no timer fires the set-up makes a bounded number of steps. */
  lemma {:induction false} QuietRunsEnd(size: string, s: State, events: seq<Event>, t: State)
    requires Inv(size, s) && Run(size, s, events, t) && forall e :: e in events ==> !OfTimer(e)
    ensures 0 <= Rank(t) <= Rank(s) - |events|
    decreases |events|
  {
    hide Numbers, Calls, Sent, Echoes, CallUnderWay, AnswerUnderWay, Enabled, Next, Rank;
    if events == [] {
      RankCounts(t);
    } else {
      RankDrops(size, s, events[0]);
      InvStep(size, s, events[0]);
      QuietRunsEnd(size, Next(size, s, events[0]), events[1..], t);
    }
  }

  lemma RankCounts(s: State)
    requires Numbers(s)
    ensures 0 <= Rank(s)
  {
    assert Stored(s.agent);
  }

  /** While a call is not answered it is on its way to the server, ... */
  lemma WantedCall(s: State) returns (p: nat)
    requires Numbers(s) && Sent(s) && CallUnderWay(s)
    requires s.agent.returned < CALLS && s.agent.phase.Waiting? && s.server.answered <= s.agent.returned
    ensures s.server.read <= p < |s.toServer|
    ensures s.toServer[p] == Call(s.agent.cseqs[s.agent.returned], s.agent.returned)
  {
    var a := s.agent;
    assert Call(a.cseqs[a.returned], a.returned) in s.toServer;
    p :| 0 <= p < |s.toServer| && s.toServer[p] == Call(a.cseqs[a.returned], a.returned);
    hide Ordered, Apart, Replied, Stored, NoCalls;
  }

  /** ... and then its answer is on its way to the agent. */
  lemma WantedReply(s: State) returns (p: nat)
    requires Numbers(s) && AnswerUnderWay(s) && AwaitsAnswer(s.agent, s.server)
    ensures s.agent.read <= p < |s.toAgent|
    ensures s.toAgent[p].Reply? && s.toAgent[p].cseq == s.agent.cseqs[s.agent.returned]
  {
    var a := s.agent;
    p :| a.read <= p < |s.toAgent| && s.toAgent[p].Reply? && s.toAgent[p].cseq == a.cseqs[a.returned];
  }
}
