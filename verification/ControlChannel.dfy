/**
  The control protocol as bytes: the messages of the channel set-up, printed one after the other by
  common/rtsp/IMsg.cpp, are what a session at the other end cuts off the stream and understands.
*/
module ControlChannel {
  import opened Basics
  import opened Text
  import opened Messages
  import opened RtspSessions
  import opened Handshake

  /** The commands of ProjectorAgent's six requests. */
  function Name(call: nat): string {
    if call == RESOLUTION then "RESOLUTION"
    else if call == SCREEN then "SETUP_SCREEN_CHANNEL"
    else if call == HID then "SETUP_HID_CHANNEL"
    else if call == DR then "SETUP_DR_CHANNEL"
    else if call == AUDIOPLAYBACK then "SETUP_AUDIOPLAYBACK_CHANNEL"
    else "SETUP_TOUCHANDPEN_CHANNEL"
  }

  function AsMsg(m: Message): Msg {
    match m
    case Call(c, k) => Request(Name(k)).(cseq := c)
    case Beat(c) => Request(HEART_BEAT).(cseq := c)
    case Reply(c, ok, data) => Response(c, ok, data)
  }

  function AsMsgs(ms: seq<Message>): (r: seq<Msg>)
    ensures |r| == |ms| && forall i :: 0 <= i < |ms| ==> r[i] == AsMsg(ms[i])
  {
    seq(|ms|, i requires 0 <= i < |ms| => AsMsg(ms[i]))
  }

  /** The comparisons that projector/Session.cpp makes. */
  function CallNamed(cmd: string): Option<nat> {
    if cmd == "RESOLUTION" then Some(RESOLUTION)
    else if cmd == "SETUP_SCREEN_CHANNEL" then Some(SCREEN)
    else if cmd == "SETUP_HID_CHANNEL" then Some(HID)
    else if cmd == "SETUP_DR_CHANNEL" then Some(DR)
    else if cmd == "SETUP_AUDIOPLAYBACK_CHANNEL" then Some(AUDIOPLAYBACK)
    else if cmd == "SETUP_TOUCHANDPEN_CHANNEL" then Some(TOUCHANDPEN)
    else None
  }

  /** What a session makes of a message: which of the set-up's messages it takes it for, if any. */
  function Understood(o: Outcome): Option<Message> {
    match o
    case AnswerHeartbeat(Some(c)) => Some(Beat(c))
    case RaiseRequest(p) =>
      if p.cseq.Some? && CallNamed(p.cmd).Some? then Some(Call(p.cseq.value, CallNamed(p.cmd).value)) else None
    case RaiseResponse(p) =>
      if p.cseq.Some? then Some(Reply(p.cseq.value, GetResult(p.type_), p.data)) else None
    case _ => None
  }

  predicate Sendable(m: Message) {
    && INT_MIN <= m.cseq <= INT_MAX
    && (m.Call? ==> m.call < CALLS)
    && (m.Reply? ==> SingleLine(m.data))
  }

  /** No two commands are of the same length. */
  lemma NameLengths(k: nat)
    requires k < CALLS
    ensures |Name(k)| == [10, 20, 17, 16, 27, 25][k] && |HEART_BEAT| == 9
  {
  }

  lemma NameRead(k: nat)
    requires k < CALLS
    ensures CallNamed(Name(k)) == Some(k) && Name(k) != HEART_BEAT
  {
    NameLengths(k);
    forall j: nat | j < CALLS && j != k ensures Name(j) != Name(k) {
      NameLengths(j);
    }
    NamesInOrder();
    hide Name;
  }

  lemma NamesInOrder()
    ensures Name(RESOLUTION) == "RESOLUTION" && Name(SCREEN) == "SETUP_SCREEN_CHANNEL"
      && Name(HID) == "SETUP_HID_CHANNEL"
    ensures Name(DR) == "SETUP_DR_CHANNEL" && Name(AUDIOPLAYBACK) == "SETUP_AUDIOPLAYBACK_CHANNEL"
    ensures Name(TOUCHANDPEN) == "SETUP_TOUCHANDPEN_CHANNEL"
  {
  }

  /** The texts of the calls, letter by letter. */
  lemma CallText(c: int, k: nat)
    requires k < CALLS
    ensures ToString(AsMsg(Call(c, k))) == "Type:Req\r\nCSeq:" + PrintInt(c) + "\r\nCmd:" +
      ["RESOLUTION", "SETUP_SCREEN_CHANNEL", "SETUP_HID_CHANNEL", "SETUP_DR_CHANNEL", "SETUP_AUDIOPLAYBACK_CHANNEL",
       "SETUP_TOUCHANDPEN_CHANNEL"][k] + "\r\nData:\r\n\r\n"
  {
    NamesInOrder();
    hide Name, ToString;
    RequestText(Name(k), c);
  }

  lemma NameLacks(k: nat, c: char)
    requires k < CALLS && (c == '\r' || c == ':')
    ensures c !in Name(k)
  {
    hide CallNamed;
    NamesInOrder();
    match k {
      case 0 => assert c !in "RESOLUTION";
      case 1 => assert c !in "SETUP_SCREEN_CHANNEL";
      case 2 => assert c !in "SETUP_HID_CHANNEL";
      case 3 => assert c !in "SETUP_DR_CHANNEL";
      case 4 => assert c !in "SETUP_AUDIOPLAYBACK_CHANNEL";
      case 5 => assert c !in "SETUP_TOUCHANDPEN_CHANNEL";
    }
    hide Name;
  }

  lemma Types()
    ensures Find(TYPE_RESP_OK, "Resp", 0).Some? && Find(TYPE_RESP_FAIL, "Resp", 0).Some?
    ensures TYPE_RESP_OK != TYPE_REQ && TYPE_RESP_FAIL != TYPE_REQ && TYPE_RESP_OK != TYPE_RESP_FAIL
  {
    assert MatchAt(TYPE_RESP_OK, "Resp", 0) && MatchAt(TYPE_RESP_FAIL, "Resp", 0);
    assert TYPE_RESP_OK[5] != TYPE_RESP_FAIL[5];
    hide MatchAt;
  }

  lemma Parses(m: Message)
    requires Sendable(m)
    ensures Printable(AsMsg(m)) && !Contains(AsMsg(m).cmd, DATA_TOKEN)
    ensures var n := AsMsg(m); Parse(ToString(n)) == Parsed(n.type_, Some(n.cseq), n.cmd, n.data)
  {
    var n := AsMsg(m);
    if m.Call? {
      NameLacks(m.call, '\r');
      NameLacks(m.call, ':');
    }
    assert '\r' !in n.cmd && ':' !in n.cmd && '\r' !in n.data;
    hide Parse, ToString, Contains, Name;
    LacksChar(n.cmd, CRLF, '\r');
    LacksChar(n.data, CRLF, '\r');
    LacksChar(n.cmd, DATA_TOKEN, ':');
    PrintableSurvives(n);
  }

  lemma DispatchUnderstands(m: Message, hasRequestHandler: bool)
    requires Sendable(m) && (m.Call? ==> hasRequestHandler)
    ensures var n := AsMsg(m);
      Understood(Dispatch(Parsed(n.type_, Some(n.cseq), n.cmd, n.data), hasRequestHandler)) == Some(m)
  {
    Types();
    if m.Call? { NameRead(m.call); }
    hide Name, CallNamed, Find;
  }

  /** Printing, parsing and dispatch give back the message: the server has a request handler, the agent needs none. */
  lemma MessageSurvives(m: Message, hasRequestHandler: bool)
    requires Sendable(m) && (m.Call? ==> hasRequestHandler)
    ensures Understood(Dispatch(Parse(ToString(AsMsg(m))), hasRequestHandler)) == Some(m)
  {
    hide Parse, ToString, Contains, AsMsg, Understood, Dispatch, Sendable;
    Parses(m);
    DispatchUnderstands(m, hasRequestHandler);
  }

  /**
    What a session sends in answer to a heartbeat: one message, a success under the heartbeat's number
    without data, which the peer understands as that.
  */
  lemma HeartbeatAnswered(c: int, hasRequestHandler: bool, peerHasHandler: bool, unset: int)
    requires INT_MIN <= c <= INT_MAX
    ensures var heartbeat := "Type:Req\r\nCSeq:" + PrintInt(c) + "\r\nCmd:HEARTBEAT\r\nData:\r\n\r\n";
      var answer := AnswerTo(RtspSessions.Dispatch(Parse(heartbeat), hasRequestHandler), unset);
      && heartbeat == ToString(AsMsg(Beat(c)))
      && answer == "Type:Resp 200 OK\r\nCSeq:" + PrintInt(c) + "\r\nCmd:\r\nData:\r\n\r\n"
      && MsgCut(answer) == |answer|
      && Parse(answer) == Parsed("Resp 200 OK", Some(c), "", "")
      && Understood(RtspSessions.Dispatch(Parse(answer), peerHasHandler)) == Some(Reply(c, true, ""))
  {
    HeartbeatText(c);
    Parses(Beat(c));
    AnswerText(c);
    Parses(Reply(c, true, ""));
    PrintedEnd(Response(c, true, ""));
    CutAtEndIff(Response(c, true, ""));
    MessageSurvives(Reply(c, true, ""), peerHasHandler);
    DispatchIff(Parse(ToString(AsMsg(Beat(c)))), hasRequestHandler);
    hide ToString, Parse, PrintInt, RtspSessions.Dispatch, Understood, MsgCut, Typed, Framable, Printable, Contains;
  }

  lemma HeartbeatText(c: int)
    ensures ToString(AsMsg(Beat(c))) == "Type:Req\r\nCSeq:" + PrintInt(c) + "\r\nCmd:HEARTBEAT\r\nData:\r\n\r\n"
  {
    RequestText(HEART_BEAT, c);
    hide ToString, PrintInt;
    assert "\r\nCmd:" + "HEARTBEAT" + "\r\nData:\r\n\r\n" == "\r\nCmd:HEARTBEAT\r\nData:\r\n\r\n";
  }

  lemma AnswerText(c: int)
    ensures ToString(Response(c, true, "")) == "Type:Resp 200 OK\r\nCSeq:" + PrintInt(c) + "\r\nCmd:\r\nData:\r\n\r\n"
  {
    ResponseText(c, true, "");
    hide ToString, PrintInt;
  }

  // --- the two streams ------------------------------------------------------------------------------------

  /** Replies hold a single line and a number that its requester can have used. */
  ghost predicate Fits(s: State) {
    && (forall p :: 0 <= p < |s.toServer| && s.toServer[p].Reply? ==>
          0 <= s.toServer[p].cseq < s.server.next && SingleLine(s.toServer[p].data))
    && (forall p :: 0 <= p < |s.toAgent| && s.toAgent[p].Reply? ==> SingleLine(s.toAgent[p].data))
  }

  lemma FitsStep(size: string, s: State, e: Event)
    requires SingleLine(size) && Fits(s) && Ordered(s.toAgent, s.server.next) && Handshake.Enabled(s, e)
    ensures Fits(Handshake.Next(size, s, e))
  {
    hide Match;
  }

  lemma {:induction false} FitsRun(size: string, s: State, events: seq<Event>, t: State)
    requires SingleLine(size) && Inv(size, s) && Fits(s) && Run(size, s, events, t)
    ensures Inv(size, t) && Fits(t)
    decreases |events|
  {
    if events == [] {
    } else {
      assert Ordered(s.toAgent, s.server.next);
      hide Inv, Fits, Handshake.Enabled, Handshake.Next, Ordered;
      InvStep(size, s, events[0]);
      FitsStep(size, s, events[0]);
      FitsRun(size, Handshake.Next(size, s, events[0]), events[1..], t);
    }
  }

  ghost predicate AllSendable(ms: seq<Message>, calls: bool) {
    forall p :: 0 <= p < |ms| ==> Sendable(ms[p]) && (ms[p].Call? ==> calls)
  }

  lemma ReachableSendable(size: string, s: State)
    requires SingleLine(size) && Reachable(size, s) && s.agent.next <= INT_MAX && s.server.next <= INT_MAX
    ensures AllSendable(s.toServer, true) && AllSendable(s.toAgent, false)
  {
    hide Run, Calls, Sent, Echoes, CallUnderWay, AnswerUnderWay;
    ReachableFits(size, s);
    assert Numbers(s);
  }

  lemma ReachableFits(size: string, s: State)
    requires SingleLine(size) && Reachable(size, s)
    ensures Inv(size, s) && Fits(s)
  {
    hide Run, Inv, SingleLine;
    assert Fits(Start());
    var events :| Run(size, Start(), events, s);
    StartInv(size);
    FitsRun(size, Start(), events, s);
  }

  /** The bytes received so far are the beginning of these messages' text; the session has them framed. */
  ghost predicate HasReceived(ms: seq<Message>, session: RtspSession, received: string)
    reads session
  {
    session.Framed(received) && exists underWay :: received + underWay == Flatten(Printed(AsMsgs(ms)))
  }

  /**
    A session that has received part of these messages, in whatever pieces, has handled and understood the first
    of them.
  */
  lemma StreamUnderstood(ms: seq<Message>, session: RtspSession, received: string)
    requires AllSendable(ms, session.hasRequestHandler) && HasReceived(ms, session, received)
    ensures |session.handled| <= |ms|
    ensures forall i :: 0 <= i < |session.handled| ==>
      Understood(RtspSessions.Dispatch(Parse(session.handled[i]), session.hasRequestHandler)) == Some(ms[i])
  {
    var texts := AsMsgs(ms);
    hide Sendable, Parse, ToString, AsMsg, Understood, RtspSessions.Dispatch, Contains, Flatten, Printable;
    forall m | m in texts ensures Framable(m) {
      var i :| 0 <= i < |ms| && texts[i] == m;
      Parses(ms[i]);
      PrintedEnd(m);
    }
    var underWay :| received + underWay == Flatten(Printed(texts));
    ControlStreamRoundTrip(texts, session, received, underWay);
    forall i | 0 <= i < |session.handled|
      ensures Understood(RtspSessions.Dispatch(Parse(session.handled[i]), session.hasRequestHandler)) == Some(ms[i])
    {
      MessageSurvives(ms[i], session.hasRequestHandler);
      assert session.handled[i] == Printed(texts)[i];
    }
  }

  /**
    In every run of the set-up, and whatever part of either stream has arrived, each end has understood
    exactly the first messages that the other has sent: reading messages one by one is all that cutting,
    parsing and dispatching the bytes amounts to.
  */
  lemma BytesCarryTheSetup(size: string, s: State, atServer: RtspSession, atAgent: RtspSession, toServer: string,
        toAgent: string)
    requires SingleLine(size) && Reachable(size, s) && s.agent.next <= INT_MAX && s.server.next <= INT_MAX
    requires atServer.hasRequestHandler && HasReceived(s.toServer, atServer, toServer)
    requires !atAgent.hasRequestHandler && HasReceived(s.toAgent, atAgent, toAgent)
    ensures |atServer.handled| <= |s.toServer| && |atAgent.handled| <= |s.toAgent|
    ensures forall i :: 0 <= i < |atServer.handled| ==>
      Understood(RtspSessions.Dispatch(Parse(atServer.handled[i]), true)) == Some(s.toServer[i])
    ensures forall i :: 0 <= i < |atAgent.handled| ==>
      Understood(RtspSessions.Dispatch(Parse(atAgent.handled[i]), false)) == Some(s.toAgent[i])
  {
    hide Reachable, Sendable, Parse, HasReceived, Understood, RtspSessions.Dispatch, SingleLine;
    ReachableSendable(size, s);
    StreamUnderstood(s.toServer, atServer, toServer);
    StreamUnderstood(s.toAgent, atAgent, toAgent);
  }
}
