/**
  The objects of the channel set-up: redirector-client/ProjectorAgent.cpp at one end, projector/Session.cpp
  and RedirectChannelFactory.cpp at the other.  Each method is one step of a thread, and is proved to be
  the step of that name in the system of module Handshake.
*/
module Endpoints {
  import opened Basics
  import opened Handshake
  import opened LaggedSetup

  /** One direction of the control connection: all that was written, what has arrived of it, and how much is handled. */
  class ControlStream {
    var sent: seq<Message>
    var inbox: Inbox
    var read: nat

    constructor ()
      ensures sent == [] && read == 0 && inbox == Inbox(0, 0, false)
    {
      sent, read, inbox := [], 0, Inbox(0, 0, false);
    }

    /** A receive, up to the point where a message, if one is complete, has been cut off the buffer. */
    method Receive(arrived: nat, partial: nat)
      modifies this`inbox
      ensures inbox == Inbox(arrived, partial, read < arrived)
    {
      inbox := Inbox(arrived, partial, read < arrived);
    }
  }

  /** The media port: connections that nobody has accepted yet. */
  class MediaPort {
    var backlog: seq<nat>

    constructor ()
      ensures backlog == []
    {
      backlog := [];
    }

    method ConnectTo(call: nat)
      modifies this
      ensures backlog == old(backlog) + [call]
    {
      backlog := backlog + [call];
    }

    method WaitForConnection() returns (connection: nat)
      requires backlog != []
      modifies this
      ensures connection == old(backlog)[0] && backlog == old(backlog)[1..]
    {
      connection, backlog := backlog[0], backlog[1..];
    }
  }

  class ProjectorAgent {
    const toServer: ControlStream
    const toAgent: ControlStream
    const media: MediaPort
    var returned: nat
    var phase: Phase
    var cseqs: seq<int>
    var received: seq<bool>
    var screenResult: bool
    var resolution: Option<string>
    var reader: Reader
    var next: int
    var beat: bool

    constructor (toServer: ControlStream, toAgent: ControlStream, media: MediaPort)
      ensures this.toServer == toServer && this.toAgent == toAgent && this.media == media
      ensures toAgent.read == 0 ==> View() == Handshake.Start().agent
    {
      this.toServer, this.toAgent, this.media := toServer, toAgent, media;
      returned, phase, screenResult, resolution, reader, next, beat := 0, Outside, false, None, Idle, 0, false;
      cseqs, received := seq(CALLS, _ => -1), seq(CALLS, _ => false);
    }

    function View(): Agent
      reads this, toAgent
    {
      Agent(returned, phase, cseqs, received, screenResult, resolution, reader, next, beat, toAgent.read)
    }

    /** ResquestResolution and the Setup functions up to RtspSession::Send's assignment of the number. */
    method NumberRequest(ghost server: Session)
      requires Wired(this, server) && Enabled(Whole(this, server), Number)
      modifies this
      ensures Whole(this, server) == Next(server.size, old(Whole(this, server)), Number)
    {
      cseqs := cseqs[returned := next];
      next := next + 1;
      phase := Numbered;
    }

    /** ... from there until the wait for the response releases the mutex, ... */
    method TransmitRequest(ghost server: Session)
      requires Wired(this, server) && Enabled(Whole(this, server), Transmit)
      modifies this, toServer`sent
      ensures Whole(this, server) == Next(server.size, old(Whole(this, server)), Transmit)
    {
      toServer.sent := toServer.sent + [Call(cseqs[returned], returned)];
      phase := Waiting;
    }

    /** ... and from the end of the wait until they return or throw. */
    method ReturnFromCall(ghost server: Session)
      requires Wired(this, server) && Enabled(Whole(this, server), Return)
      modifies this, media
      ensures Whole(this, server) == Next(server.size, old(Whole(this, server)), Return)
    {
      if returned == RESOLUTION {
      } else if returned == SCREEN && !screenResult {
        phase := Failed;
        return;
      } else {
        media.ConnectTo(returned);
      }
      returned := returned + 1;
      phase := Outside;
    }

    /** The reading thread: answer a heartbeat, or find out which request a response belongs to. */
    method HandleMessage(ghost server: Session)
      requires Wired(this, server) && Enabled(Whole(this, server), AgentHandle)
      modifies this, toServer`sent, toAgent`read, toAgent`inbox
      ensures Whole(this, server) == Next(server.size, old(Whole(this, server)), AgentHandle)
      ensures toAgent.inbox == old(toAgent.inbox).(holding := false)
    {
      var message := toAgent.sent[toAgent.read];
      toAgent.read := toAgent.read + 1;
      toAgent.inbox := toAgent.inbox.(holding := false);
      if message.Beat? {
        toServer.sent := toServer.sent + [Reply(message.cseq, true, "")];
      } else {
        var call := FindRequest(cseqs, message.cseq);
        reader := if call.Some? then Matched(call.value, message) else Idle;
      }
    }

    /** What the response is for, noted under the mutex. */
    method NoteResponse(ghost server: Session)
      requires Wired(this, server) && Enabled(Whole(this, server), Note)
      modifies this
      ensures Whole(this, server) == Next(server.size, old(Whole(this, server)), Note)
    {
      if reader.call == RESOLUTION {
        resolution := Some(reader.reply.data);
      } else if reader.call == SCREEN {
        screenResult := reader.reply.ok;
      }
      received := received[reader.call := true];
      reader := Idle;
    }

    method NumberBeat(ghost server: Session)
      requires Wired(this, server) && Enabled(Whole(this, server), AgentBeatNumber)
      modifies this
      ensures Whole(this, server) == Next(server.size, old(Whole(this, server)), AgentBeatNumber)
    {
      next := next + 1;
      beat := true;
    }

    method SendBeat(ghost server: Session)
      requires Wired(this, server) && Enabled(Whole(this, server), AgentBeatSend)
      modifies this, toServer`sent
      ensures Whole(this, server) == Next(server.size, old(Whole(this, server)), AgentBeatSend)
    {
      toServer.sent := toServer.sent + [Beat(next)];
      next := next + 1;
      beat := false;
    }
  }

  /** ReceivedResponseEvent's chain of comparisons. */
  method FindRequest(cseqs: seq<int>, cseq: int) returns (call: Option<nat>)
    requires |cseqs| == CALLS
    ensures call == Match(cseqs, cseq, 0)
  {
    if cseqs[RESOLUTION] == cseq {
      call := Some(RESOLUTION);
    } else if cseqs[SCREEN] == cseq {
      call := Some(SCREEN);
    } else if cseqs[HID] == cseq {
      call := Some(HID);
    } else if cseqs[DR] == cseq {
      call := Some(DR);
    } else if cseqs[AUDIOPLAYBACK] == cseq {
      call := Some(AUDIOPLAYBACK);
    } else if cseqs[TOUCHANDPEN] == cseq {
      call := Some(TOUCHANDPEN);
    } else {
      call := None;
    }
  }

  /** The five Setup functions take the next connection, whosever it is, and build their own pipeline on it. */
  class RedirectChannelFactory {
    const server: MediaPort
    var screen: Option<nat>
    var hid: Option<nat>
    var dr: Option<nat>
    var audioPlayback: Option<nat>
    var touchAndPen: Option<nat>

    constructor (server: MediaPort)
      ensures this.server == server && Pipelines() == seq(CALLS, _ => None)
    {
      this.server := server;
      screen, hid, dr, audioPlayback, touchAndPen := None, None, None, None, None;
    }

    function Pipelines(): seq<Option<nat>>
      reads this
    {
      [None, screen, hid, dr, audioPlayback, touchAndPen]
    }

    method SetupScreenPipeline()
      requires server.backlog != []
      modifies this, server
      ensures Pipelines() == old(Pipelines())[SCREEN := Some(old(server.backlog[0]))]
      ensures server.backlog == old(server.backlog[1..])
    {
      var socket := server.WaitForConnection();
      screen := Some(socket);
    }

    method SetupHIDPipeline()
      requires server.backlog != []
      modifies this, server
      ensures Pipelines() == old(Pipelines())[HID := Some(old(server.backlog[0]))]
      ensures server.backlog == old(server.backlog[1..])
    {
      var socket := server.WaitForConnection();
      hid := Some(socket);
    }

    method SetupDrRedirect()
      requires server.backlog != []
      modifies this, server
      ensures Pipelines() == old(Pipelines())[DR := Some(old(server.backlog[0]))]
      ensures server.backlog == old(server.backlog[1..])
    {
      var socket := server.WaitForConnection();
      dr := Some(socket);
    }

    method SetupAudioPlaybackRedirect()
      requires server.backlog != []
      modifies this, server
      ensures Pipelines() == old(Pipelines())[AUDIOPLAYBACK := Some(old(server.backlog[0]))]
      ensures server.backlog == old(server.backlog[1..])
    {
      var socket := server.WaitForConnection();
      audioPlayback := Some(socket);
    }

    method SetupTouchAndPenRedirect()
      requires server.backlog != []
      modifies this, server
      ensures Pipelines() == old(Pipelines())[TOUCHANDPEN := Some(old(server.backlog[0]))]
      ensures server.backlog == old(server.backlog[1..])
    {
      var socket := server.WaitForConnection();
      touchAndPen := Some(socket);
    }
  }

  class Session {
    const toServer: ControlStream
    const toAgent: ControlStream
    const factory: RedirectChannelFactory
    const size: string          // GetSystemMetrics, as text
    var handler: Handler
    var next: int
    var beat: bool
    var answered: nat           // history
    var screenFailed: bool      // history

    constructor (toServer: ControlStream, toAgent: ControlStream, factory: RedirectChannelFactory, size: string)
      ensures this.toServer == toServer && this.toAgent == toAgent && this.factory == factory && this.size == size
      ensures toServer.read == 0 && factory.Pipelines() == seq(CALLS, _ => None) ==> View() == Handshake.Start().server
    {
      this.toServer, this.toAgent, this.factory, this.size := toServer, toAgent, factory, size;
      handler, next, beat, answered, screenFailed := Ready, 0, false, 0, false;
    }

    function View(): Server
      reads this, toServer, factory
    {
      Server(handler, factory.Pipelines(), next, beat, toServer.read, answered, screenFailed)
    }

    /** Send of a response. */
    method Send(message: Message)
      modifies toAgent`sent
      ensures toAgent.sent == old(toAgent.sent) + [message]
    {
      toAgent.sent := toAgent.sent + [message];
    }

    /** The handler's branches for the commands. */
    method AnswerCall(cseq: int, call: nat, initFails: bool, what: string)
      modifies this, toAgent`sent
      ensures toAgent.sent == old(toAgent.sent) + [Answer(size, cseq, call, initFails, what)]
      ensures var v := Answered(old(View()), call, initFails);
        handler == v.handler && answered == v.answered && screenFailed == v.screenFailed
      ensures next == old(next) && beat == old(beat)
    {
      answered := answered + 1;
      if call == RESOLUTION {
        Send(Reply(cseq, true, size));
      } else if call == SCREEN {
        if initFails {
          screenFailed := true;
          Send(Reply(cseq, false, what));
        } else {
          Send(Reply(cseq, true, ""));
          handler := Accepting(SCREEN);
        }
      } else {
        Send(Reply(cseq, true, ""));
        handler := Accepting(call);
      }
    }

    /** ReceivedRequestEvent: answer first; what follows an answer to a set-up is waiting for its connection. */
    method HandleMessage(initFails: bool, what: string, ghost agent: ProjectorAgent)
      requires Wired(agent, this) && Enabled(Whole(agent, this), ServerHandle(initFails, what))
      modifies this, toServer`read, toServer`inbox, toAgent`sent
      ensures Whole(agent, this) == Next(size, old(Whole(agent, this)), ServerHandle(initFails, what))
      ensures toServer.inbox == old(toServer.inbox).(holding := false)
    {
      var message := toServer.sent[toServer.read];
      toServer.read := toServer.read + 1;
      toServer.inbox := toServer.inbox.(holding := false);
      match message {
        case Beat(cseq) => Send(Reply(cseq, true, ""));
        case Reply(_, _, _) =>
        case Call(cseq, call) => AnswerCall(cseq, call, initFails, what);
      }
    }

    /** The rest of the handler, once there is a connection to accept; it never waits for one after RESOLUTION. */
    method SetupPipeline(ghost agent: ProjectorAgent)
      requires Wired(agent, this) && Enabled(Whole(agent, this), Accept) && handler.call != RESOLUTION
      modifies this, factory, factory.server
      ensures Whole(agent, this) == Next(size, old(Whole(agent, this)), Accept)
    {
      if handler.call == SCREEN {
        factory.SetupScreenPipeline();
      } else if handler.call == HID {
        factory.SetupHIDPipeline();
      } else if handler.call == DR {
        factory.SetupDrRedirect();
      } else if handler.call == AUDIOPLAYBACK {
        factory.SetupAudioPlaybackRedirect();
      } else {
        factory.SetupTouchAndPenRedirect();
      }
      handler := Ready;
    }

    method NumberBeat(ghost agent: ProjectorAgent)
      requires Wired(agent, this) && Enabled(Whole(agent, this), ServerBeatNumber)
      modifies this
      ensures Whole(agent, this) == Next(size, old(Whole(agent, this)), ServerBeatNumber)
    {
      next := next + 1;
      beat := true;
    }

    method SendBeat(ghost agent: ProjectorAgent)
      requires Wired(agent, this) && Enabled(Whole(agent, this), ServerBeatSend)
      modifies this, toAgent`sent
      ensures Whole(agent, this) == Next(size, old(Whole(agent, this)), ServerBeatSend)
    {
      Send(Beat(next));
      next := next + 1;
      beat := false;
    }
  }

  /** The two ends hold the two ends of the same connections. */
  ghost predicate Wired(agent: ProjectorAgent, session: Session) {
    && agent.toServer == session.toServer && agent.toAgent == session.toAgent && agent.media == session.factory.server
    && agent.toServer != agent.toAgent
  }

  function Whole(agent: ProjectorAgent, session: Session): State
    reads agent, agent.toAgent, agent.toServer, agent.media, session, session.toServer, session.toAgent, session.factory
  {
    State(agent.View(), session.View(), agent.toServer.sent, agent.toAgent.sent, agent.media.backlog)
  }

  // --- the objects together -----------------------------------------------------------------------------

  function WholeLagged(agent: ProjectorAgent, session: Session): Lagged
    reads agent, agent.toAgent, agent.toServer, agent.media, session, session.toServer, session.toAgent, session.factory
  {
    Lagged(Whole(agent, session), agent.toServer.inbox, agent.toAgent.inbox)
  }

  method PerformAtAgent(agent: ProjectorAgent, session: Session, e: Event)
    requires Wired(agent, session) && Possible(WholeLagged(agent, session), Step(e))
    requires e.Number? || e.Transmit? || e.Return? || e.AgentHandle? || e.Note? || e.AgentBeatNumber?
      || e.AgentBeatSend?
    modifies agent, agent.toServer`sent, agent.toAgent`read, agent.toAgent`inbox, agent.media
    ensures WholeLagged(agent, session) == After(session.size, old(WholeLagged(agent, session)), Step(e))
  {
    hide Next, Position;
    match e {
      case Number => agent.NumberRequest(session);
      case Transmit => agent.TransmitRequest(session);
      case Return => agent.ReturnFromCall(session);
      case AgentHandle => agent.HandleMessage(session);
      case Note => agent.NoteResponse(session);
      case AgentBeatNumber => agent.NumberBeat(session);
      case AgentBeatSend => agent.SendBeat(session);
    }
  }

  method PerformAtServer(agent: ProjectorAgent, session: Session, e: Event)
    requires Wired(agent, session) && Possible(WholeLagged(agent, session), Step(e))
    requires e.ServerHandle? || e.Accept? || e.ServerBeatNumber? || e.ServerBeatSend?
    requires session.handler.Accepting? ==> session.handler.call != RESOLUTION
    modifies session, session.toServer`read, session.toServer`inbox, session.toAgent`sent, session.factory,
      session.factory.server
    ensures WholeLagged(agent, session) == After(session.size, old(WholeLagged(agent, session)), Step(e))
  {
    hide Next, Position;
    match e {
      case ServerHandle(initFails, what) => session.HandleMessage(initFails, what, agent);
      case Accept => session.SetupPipeline(agent);
      case ServerBeatNumber => session.NumberBeat(agent);
      case ServerBeatSend => session.SendBeat(agent);
    }
  }

  /** Any thread's next step, on the objects. */
  method Perform(agent: ProjectorAgent, session: Session, e: LaggedEvent)
    requires Wired(agent, session) && Possible(WholeLagged(agent, session), e)
    requires LaggedReachable(session.size, WholeLagged(agent, session))
    modifies agent, session, agent.toServer, agent.toAgent, agent.media, session.factory
    ensures WholeLagged(agent, session) == After(session.size, old(WholeLagged(agent, session)), e)
  {
    hide LaggedReachable, Reachable, InboxInv, Next, Position, Enabled;
    LaggedRefines(session.size, WholeLagged(agent, session));
    AcceptsACall(session.size, Whole(agent, session));
    match e {
      case Step(h) =>
        if h.ServerHandle? || h.Accept? || h.ServerBeatNumber? || h.ServerBeatSend? {
          PerformAtServer(agent, session, h);
        } else {
          PerformAtAgent(agent, session, h);
        }
      case ServerRecv(arrived, partial) => session.toServer.Receive(arrived, partial);
      case AgentRecv(arrived, partial) => agent.toAgent.Receive(arrived, partial);
    }
  }

  lemma AcceptsACall(size: string, s: State)
    requires Reachable(size, s)
    ensures s.server.handler.Accepting? ==> s.server.handler.call != RESOLUTION
  {
    ReachableInv(size, s);
    assert Paired(s);
    hide Inv, Reachable;
  }

  /** The state after a schedule, leaving out what is not possible when its turn comes. */
  function Scheduled(size: string, schedule: seq<LaggedEvent>): Lagged {
    if schedule == [] then StartLagged()
    else
      var l, e := Scheduled(size, schedule[..|schedule| - 1]), schedule[|schedule| - 1];
      if Possible(l, e) then After(size, l, e) else l
  }

  lemma NothingScheduled(size: string, schedule: seq<LaggedEvent>)
    ensures Scheduled(size, schedule[..0]) == StartLagged()
  {
  }

  lemma OneMoreEvent(size: string, schedule: seq<LaggedEvent>, n: nat)
    requires n < |schedule|
    ensures var l := Scheduled(size, schedule[..n]);
      Scheduled(size, schedule[..n + 1]) == if Possible(l, schedule[n]) then After(size, l, schedule[n]) else l
  {
    hide Possible, After;
    assert schedule[..n + 1][..n] == schedule[..n];
  }

  /**
    New objects, wired and scheduled in any way; what a schedule asks for and is not possible is skipped.
    The pipelines that exist are on their own connections, and where only timers are left all of them do,
    unless a buffer holds a call or an answer, or the screen could not be set up.
  */
  method SetUp(size: string, schedule: seq<LaggedEvent>) returns (agent: ProjectorAgent, session: Session)
    ensures Wired(agent, session) && session.size == size
    ensures WholeLagged(agent, session) == Scheduled(size, schedule)
      && LaggedReachable(size, WholeLagged(agent, session))
    ensures forall k: nat :: k < CALLS && session.factory.Pipelines()[k].Some? ==>
      session.factory.Pipelines()[k] == Some(k)
    ensures |agent.media.backlog| <= 1
    ensures TimersOnly(WholeLagged(agent, session)) ==>
      (Done(Whole(agent, session))
       <==> !CallBuffered(WholeLagged(agent, session)) && !AnswerBuffered(WholeLagged(agent, session)))
  {
    hide LaggedReachable, Reachable, After, Possible, TimersOnly;
    hide Done, CallBuffered, AnswerBuffered, Scheduled, InboxInv;
    var toServer := new ControlStream();
    var toAgent := new ControlStream();
    var media := new MediaPort();
    var factory := new RedirectChannelFactory(media);
    agent := new ProjectorAgent(toServer, toAgent, media);
    session := new Session(toServer, toAgent, factory, size);
    StartLaggedReachable(size);
    NothingScheduled(size, schedule);
    assert WholeLagged(agent, session) == StartLagged();
    for n := 0 to |schedule|
      invariant Wired(agent, session) && session.size == size && LaggedReachable(size, WholeLagged(agent, session))
      invariant WholeLagged(agent, session) == Scheduled(size, schedule[..n])
      invariant fresh({agent, session, agent.toServer, agent.toAgent, agent.media, session.factory})
    {
      OneMoreEvent(size, schedule, n);
      if Possible(WholeLagged(agent, session), schedule[n]) {
        ghost var l := WholeLagged(agent, session);
        LaggedNext(size, l, schedule[n], After(size, l, schedule[n]));
        Perform(agent, session, schedule[n]);
      }
    }
    assert schedule[..|schedule|] == schedule;
    LaggedRefines(size, WholeLagged(agent, session));
    ChannelsArePaired(size, Whole(agent, session));
    if TimersOnly(WholeLagged(agent, session)) {
      TimersOnlyDoneIff(size, WholeLagged(agent, session));
    }
  }
}
