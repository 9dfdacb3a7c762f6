/**
  common/rtsp/RtspSession.cpp: a session cuts the control stream into messages, numbers the requests it
  sends, answers heartbeats and watches for a silent peer.
*/
module RtspSessions {
  import opened Basics
  import opened FrameStream
  import opened Text
  import opened Messages

  const HEART_BEAT := "HEARTBEAT"

  // --- framing --------------------------------------------------------------------------------------------

  /** A message ends with the first blank line. */
  function MsgCut(s: string): nat {
    match Find(s, MSG_END, 0)
    case None => 0
    case Some(i) => i + |MSG_END|
  }

  lemma CutPrefix(s: string)
    requires MsgCut(s) > 0
    ensures MsgCut(s) <= |s| && MsgCut(s[..MsgCut(s)]) == MsgCut(s)
  {
    var i := Find(s, MSG_END, 0).value;
    FindBounds(s, MSG_END);
    var head, tail := s[..i + 4], s[i + 4..];
    SplitAt(s, i + 4);
    forall j: nat | j <= i ensures MatchAt(head, MSG_END, j) <==> MatchAt(s, MSG_END, j) {
      MatchInside(head, tail, MSG_END, j);
    }
    hide MatchAt;
    FindFirst(head, MSG_END, 0, i);
  }

  lemma MsgCutStable()
    ensures Stable(MsgCut)
  {
    forall s: string ensures MsgCut(s) <= |s| {
      if Find(s, MSG_END, 0).Some? { FindBounds(s, MSG_END); }
    }
    forall s: string, t: string | MsgCut(s) > 0 ensures MsgCut(s + t) == MsgCut(s) {
      FindInside(s, t, MSG_END);
    }
    forall s: string | MsgCut(s) > 0 ensures MsgCut(s[..MsgCut(s)]) == MsgCut(s) {
      CutPrefix(s);
    }
  }

  /** The complete messages of a control stream. */
  ghost function Complete(s: string): seq<string> {
    MsgCutStable();
    Decode(MsgCut, s).frames
  }

  lemma CompleteMonotone(a: string, b: string)
    ensures Complete(a) <= Complete(a + b)
  {
    MsgCutStable();
    DecodeMonotone(MsgCut, a, b);
  }

  /** With `handled` cut off the front, the buffer still holds exactly the other messages. */
  lemma CompleteBehind(handled: seq<string>, buf: string)
    requires forall f :: f in handled ==> MsgCut(f) == |f| > 0
    ensures Complete(Flatten(handled) + buf) == handled + Complete(buf)
  {
    MsgCutStable();
    DecodeEncoded(MsgCut, handled, buf);
  }

  lemma CompleteHead(buf: string)
    ensures MsgCut(buf) == 0 ==> Complete(buf) == []
    ensures MsgCut(buf) > 0 ==>
      MsgCut(buf) <= |buf| && Complete(buf) == [buf[..MsgCut(buf)]] + Complete(buf[MsgCut(buf)..])
  {
    MsgCutStable();
  }

  /** What becomes of a handled message. */
  datatype Outcome = AnswerHeartbeat(cseq: Option<int>) | RaiseRequest(p: Parsed) | RaiseResponse(p: Parsed) | Throw

  /**
    OnReceive with the handlers that a session has been given; the server's has no response handler and ignores
    responses.
  */
  function Dispatch(p: Parsed, hasRequestHandler: bool): Outcome {
    if p.type_ == TYPE_REQ then
      if p.cmd == HEART_BEAT then AnswerHeartbeat(p.cseq)
      else if hasRequestHandler then RaiseRequest(p)
      else Throw
    else if Find(p.type_, "Resp", 0).Some? then RaiseResponse(p)
    else Throw
  }

  /** Which messages do what, in the protocol's own words. */
  lemma DispatchIff(p: Parsed, hasRequestHandler: bool)
    ensures Dispatch(p, hasRequestHandler).AnswerHeartbeat? <==> p.type_ == "Req" && p.cmd == "HEARTBEAT"
    ensures Dispatch(p, hasRequestHandler) == RaiseRequest(p) <==>
      p.type_ == "Req" && p.cmd != "HEARTBEAT" && hasRequestHandler
    ensures Dispatch(p, hasRequestHandler) == RaiseResponse(p) <==> p.type_ != "Req" && Contains(p.type_, "Resp")
    ensures Dispatch(p, hasRequestHandler).Throw? <==>
      if p.type_ == "Req" then p.cmd != "HEARTBEAT" && !hasRequestHandler else !Contains(p.type_, "Resp")
    ensures Dispatch(p, hasRequestHandler).AnswerHeartbeat? ==> Dispatch(p, hasRequestHandler).cseq == p.cseq
  {
    ContainsIffFound(p.type_, "Resp");
    hide Contains, Find;
  }

  function Outcomes(handled: seq<string>, hasRequestHandler: bool): (r: seq<Outcome>)
    ensures |r| == |handled| && forall i :: 0 <= i < |handled| ==>
      r[i] == Dispatch(Parse(handled[i]), hasRequestHandler)
  {
    seq(|handled|, i requires 0 <= i < |handled| => Dispatch(Parse(handled[i]), hasRequestHandler))
  }

  /** A heartbeat is answered under its own number; `unset` is what the number holds when none could be read. */
  function AnswerTo(o: Outcome, unset: int): string {
    if o.AnswerHeartbeat? then ToString(Response(if o.cseq.Some? then o.cseq.value else unset, true, "")) else ""
  }

  /** Only heartbeats are answered by the session itself. */
  lemma OnlyHeartbeatsAnswered(p: Parsed, hasRequestHandler: bool, unset: int)
    ensures AnswerTo(Dispatch(p, hasRequestHandler), unset) != "" <==> p.type_ == "Req" && p.cmd == "HEARTBEAT"
  {
    DispatchIff(p, hasRequestHandler);
    hide Dispatch, CSeqPart;
  }

  /** A request or response object: its number is assigned in place when it is sent, and its owner keeps it. */
  class IMsg {
    const type_: string
    const cmd: string
    const data: string
    var cseq: int

    constructor (m: Msg)
      ensures View() == m
    {
      type_, cmd, data, cseq := m.type_, m.cmd, m.data, m.cseq;
    }

    function View(): Msg
      reads this
    {
      Msg(type_, cseq, cmd, data)
    }

    method SetCSeq(n: int)
      modifies this
      ensures View() == old(View()).(cseq := n)
    {
      cseq := n;
    }
  }

  class RtspSession {
    const hasRequestHandler: bool
    var buf: string             // m_Buf
    var nextCSeq: int           // m_CSeq
    var isAlive: bool           // m_IsAlive
    var sent: string            // the bytes given to the socket
    var handled: seq<string>    // history: the messages cut off the stream
    var outcomes: seq<Outcome>  // history: what each of them led to

    constructor (hasRequestHandler: bool)
      ensures this.hasRequestHandler == hasRequestHandler
      ensures buf == "" && nextCSeq == 0 && isAlive && sent == "" && handled == [] && outcomes == []
    {
      this.hasRequestHandler := hasRequestHandler;
      buf, nextCSeq, isAlive, sent, handled, outcomes := "", 0, true, "", [], [];
    }

    /** All of `received` is accounted for: complete messages handled in order, and the rest still in the buffer. */
    ghost predicate Framed(received: string)
      reads this
    {
      && Flatten(handled) + buf == received
      && Complete(received) == handled + Complete(buf)
      && forall f :: f in handled ==> MsgCut(f) == |f| > 0
    }

    /** Send: a request gets the next number, which its owner sees before the bytes leave. */
    method Send(msg: IMsg)
      modifies this`nextCSeq, this`sent, msg
      ensures old(msg.View()).type_ == TYPE_REQ ==>
        msg.View() == old(msg.View()).(cseq := old(nextCSeq)) && nextCSeq == old(nextCSeq) + 1
      ensures old(msg.View()).type_ != TYPE_REQ ==> msg.View() == old(msg.View()) && nextCSeq == old(nextCSeq)
      ensures sent == old(sent) + ToString(msg.View())
    {
      if msg.type_ == TYPE_REQ {
        msg.SetCSeq(nextCSeq);
        nextCSeq := nextCSeq + 1;
      }
      sent := sent + ToString(msg.View());
    }

    /** The heartbeat timer numbers its request itself and then sends it, so every heartbeat leaves a gap. */
    method SendHeartbeat()
      modifies this`nextCSeq, this`sent
      ensures nextCSeq == old(nextCSeq) + 2
      ensures sent == old(sent) + ToString(Request(HEART_BEAT).(cseq := old(nextCSeq) + 1))
    {
      var request := new IMsg(Request(HEART_BEAT));
      request.SetCSeq(nextCSeq);
      nextCSeq := nextCSeq + 1;
      Send(request);
    }

    method HandleMessage(msg: string, unset: int) returns (threw: bool)
      modifies this`isAlive, this`outcomes, this`sent, this`nextCSeq
      ensures outcomes == old(outcomes) + [Dispatch(Parse(msg), hasRequestHandler)]
      ensures threw == Dispatch(Parse(msg), hasRequestHandler).Throw?
      ensures isAlive == (old(isAlive) || !threw)
      ensures nextCSeq == old(nextCSeq) && sent == old(sent) + AnswerTo(Dispatch(Parse(msg), hasRequestHandler), unset)
    {
      hide ToString, Parse, Dispatch;
      var outcome := Dispatch(Parse(msg), hasRequestHandler);
      outcomes := outcomes + [outcome];
      if outcome.AnswerHeartbeat? {
        var response := new IMsg(Response(if outcome.cseq.Some? then outcome.cseq.value else unset, true, ""));
        Send(response);
      }
      threw := outcome.Throw?;
      if !threw {
        isAlive := true;
      }
    }

    /** The watchdog callback (release build): report a peer that has not been heard of since the last check. */
    method CheckAlive() returns (disconnected: bool)
      modifies this`isAlive
      ensures disconnected == !old(isAlive) && !isAlive
    {
      disconnected := !isAlive;
      if isAlive {
        isAlive := false;
      }
    }

    /** One round of the work loop: however many messages the chunk completes, at most one is handled. */
    method OnRecv(chunk: string, unset: int, ghost received: string) returns (threw: bool)
      requires Framed(received)
      modifies this
      ensures Framed(received + chunk)
      ensures |handled| == Min(|old(handled)| + 1, |Complete(received + chunk)|)
      ensures nextCSeq == old(nextCSeq)
      ensures old(outcomes) == Outcomes(old(handled), hasRequestHandler) ==>
        outcomes == Outcomes(handled, hasRequestHandler)
      ensures if handled == old(handled) then sent == old(sent) && isAlive == old(isAlive) && !threw
              else outcomes != [] && sent == old(sent) + AnswerTo(outcomes[|outcomes| - 1], unset)
                   && threw == outcomes[|outcomes| - 1].Throw? && (isAlive || threw)
    {
      hide Complete, Flatten, MsgCut, Dispatch, Parse, AnswerTo, Outcomes;
      ghost var before := handled;
      buf := buf + chunk;
      BufferGrows(before, old(buf), chunk, received);
      threw := false;
      var n := MsgCut(buf);
      CompleteHead(buf);
      if n > 0 {
        HandleOne(before, buf, n, received + chunk);
        var msg := buf[..n];
        buf := buf[n..];
        handled := handled + [msg];
        threw := HandleMessage(msg, unset);
      }
    }
  }

  // --- the whole stream -------------------------------------------------------------------------------------

  /** How many messages the first j receives complete. */
  ghost function CompleteAfter(chunks: seq<string>, j: nat): nat
    requires j <= |chunks|
  {
    |Complete(Flatten(chunks[..j]))|
  }

  /** How many messages the first k receives lead to handling, one per receive at most. */
  ghost function HandledAfter(chunks: seq<string>, k: nat): nat
    requires k <= |chunks|
  {
    if k == 0 then 0 else Min(HandledAfter(chunks, k - 1) + 1, CompleteAfter(chunks, k))
  }

  /** The exact lag of the one-message-per-receive loop: the smallest F(j) + (k - j) over all j up to k. */
  lemma {:induction false} LagExact(chunks: seq<string>, k: nat)
    requires k <= |chunks|
    ensures forall j :: 0 <= j <= k ==> HandledAfter(chunks, k) <= CompleteAfter(chunks, j) + (k - j)
    ensures exists j :: 0 <= j <= k && HandledAfter(chunks, k) == CompleteAfter(chunks, j) + (k - j)
  {
    hide Complete, Flatten;
    if k == 0 {
      NothingComplete(chunks);
    } else {
      LagExact(chunks, k - 1);
      var i :| 0 <= i <= k - 1 && HandledAfter(chunks, k - 1) == CompleteAfter(chunks, i) + (k - 1 - i);
      if HandledAfter(chunks, k - 1) + 1 < CompleteAfter(chunks, k) {
        assert HandledAfter(chunks, k) == CompleteAfter(chunks, i) + (k - i);
      } else {
        assert HandledAfter(chunks, k) == CompleteAfter(chunks, k) + (k - k);
      }
    }
  }

  lemma NothingComplete(chunks: seq<string>)
    ensures CompleteAfter(chunks, 0) == 0
  {
    assert chunks[..0] == [];
    CompleteHead("");
    assert Flatten(chunks[..0]) == "";
    FindBoundsNone();
  }

  lemma FindBoundsNone()
    ensures MsgCut("") == 0
  {
  }

  /**
    After k receives nothing lags if and only if no stretch of receives up to there completed more messages than
    it has receives.
  */
  lemma NoLagAt(chunks: seq<string>, k: nat)
    requires k <= |chunks|
    ensures HandledAfter(chunks, k) == CompleteAfter(chunks, k)
      <==> forall j :: 0 <= j <= k ==> CompleteAfter(chunks, k) - CompleteAfter(chunks, j) <= k - j
  {
    hide CompleteAfter, HandledAfter;
    LagExact(chunks, k);
  }

  lemma {:induction false} NoLag(chunks: seq<string>, k: nat)
    requires k <= |chunks|
    requires forall j: nat :: j < k ==> CompleteAfter(chunks, j + 1) <= CompleteAfter(chunks, j) + 1
    ensures HandledAfter(chunks, k) == CompleteAfter(chunks, k)
  {
    hide CompleteAfter;
    if k == 0 {
      NothingComplete(chunks);
    } else {
      NoLag(chunks, k - 1);
      assert CompleteAfter(chunks, k - 1 + 1) <= CompleteAfter(chunks, k - 1) + 1;
    }
  }

  /** Nothing ever lags if and only if no receive completes two messages. */
  lemma NoLagIff(chunks: seq<string>)
    ensures (forall k: nat :: k <= |chunks| ==> HandledAfter(chunks, k) == CompleteAfter(chunks, k))
      <==> (forall j: nat :: j < |chunks| ==> CompleteAfter(chunks, j + 1) <= CompleteAfter(chunks, j) + 1)
  {
    hide CompleteAfter;
    if forall j: nat :: j < |chunks| ==> CompleteAfter(chunks, j + 1) <= CompleteAfter(chunks, j) + 1 {
      forall k: nat | k <= |chunks| ensures HandledAfter(chunks, k) == CompleteAfter(chunks, k) {
        NoLag(chunks, k);
      }
    } else {
      var j: nat :| j < |chunks| && CompleteAfter(chunks, j + 1) > CompleteAfter(chunks, j) + 1;
      assert HandledAfter(chunks, j + 1) <= HandledAfter(chunks, j) + 1;
    }
  }

  /**
    The work loop over the chunks that successive receives return, ended by Stop after some rounds or by a
    message that cannot be dispatched.  After k receives the messages handled are the first ones of the stream, as many
    as `HandledAfter` says, and together with the buffer they are the bytes received.
  */
  method Workloop(session: RtspSession, chunks: seq<string>, rounds: nat) returns (k: nat)
    requires session.buf == "" && session.handled == [] && session.outcomes == []
    modifies session
    ensures k <= |chunks| && session.Framed(Flatten(chunks[..k]))
    ensures |session.handled| == HandledAfter(chunks, k)
    ensures session.outcomes == Outcomes(session.handled, session.hasRequestHandler)
    ensures k == Min(rounds, |chunks|) || Throw in session.outcomes
  {
    hide Complete, Flatten, Dispatch, Parse, AnswerTo;
    StartFramed(session);
    k := 0;
    while k < rounds && k < |chunks|
      invariant k <= rounds && k <= |chunks| && session.Framed(Flatten(chunks[..k]))
      invariant |session.handled| == HandledAfter(chunks, k)
      invariant session.outcomes == Outcomes(session.handled, session.hasRequestHandler)
    {
      assert chunks[..k + 1] == chunks[..k] + [chunks[k]];
      FlattenSnoc(chunks[..k], chunks[k]);
      var unset: int := *;
      var threw := session.OnRecv(chunks[k], unset, Flatten(chunks[..k]));
      k := k + 1;
      if threw {
        break;
      }
    }
  }

  lemma StartFramed(session: RtspSession)
    requires session.buf == "" && session.handled == []
    ensures session.Framed("") && forall chunks: seq<string> :: Flatten(chunks[..0]) == ""
  {
    CompleteHead("");
    FindBoundsNone();
    forall chunks: seq<string> ensures Flatten(chunks[..0]) == "" {
      assert chunks[..0] == [];
    }
  }

  function Printed(ms: seq<Msg>): (printed: seq<string>)
    ensures |printed| == |ms| && forall i :: 0 <= i < |ms| ==> printed[i] == ToString(ms[i])
  {
    seq(|ms|, i requires 0 <= i < |ms| => ToString(ms[i]))
  }

  ghost predicate AllTyped(ms: seq<Msg>) {
    forall m :: m in ms ==> Typed(m)
  }

  ghost predicate AllFramable(ms: seq<Msg>) {
    forall m :: m in ms ==> Framable(m)
  }

  /** A session cuts a message off at its end if and only if the message is framable. */
  lemma CutAtEndIff(m: Msg)
    requires Typed(m)
    ensures MsgCut(ToString(m)) == |ToString(m)| > 0 <==> Framable(m)
  {
    PrintedEndIff(m);
    hide ToString, Typed, BlankFree;
    if Find(ToString(m), MSG_END, 0).Some? { FindBounds(ToString(m), MSG_END); }
  }

  /** A list of printed messages is cut into these messages if and only if all of them are framable. */
  lemma PrintedCompleteIff(ms: seq<Msg>)
    requires AllTyped(ms)
    ensures Complete(Flatten(Printed(ms))) == Printed(ms) <==> AllFramable(ms)
  {
    hide ToString, Typed, Framable, MsgCut, Flatten;
    var texts := Printed(ms);
    if AllFramable(ms) {
      forall f | f in texts ensures MsgCut(f) == |f| > 0 {
        var i :| 0 <= i < |ms| && texts[i] == f;
        CutAtEndIff(ms[i]);
      }
      CompleteBehind(texts, "");
      CompleteHead("");
      FindBoundsNone();
      assert Flatten(texts) + "" == Flatten(texts);
    } else if Complete(Flatten(texts)) == texts {
      MsgCutStable();
      DecodePieces(MsgCut, Flatten(texts));
      forall m | m in ms ensures Framable(m) {
        var i :| 0 <= i < |ms| && ms[i] == m;
        assert texts[i] in texts;
        CutAtEndIff(m);
      }
    }
  }

  /** Two messages in one piece: the second stays in the buffer until something else arrives. */
  lemma LagExample(m: Msg, n: Msg)
    requires Framable(m) && Framable(n)
    ensures CompleteAfter([ToString(m) + ToString(n)], 1) == 2 && HandledAfter([ToString(m) + ToString(n)], 1) == 1
  {
    var chunks, printed := [ToString(m) + ToString(n)], Printed([m, n]);
    assert chunks[..1] == chunks && Flatten(chunks) == chunks[0];
    assert printed == [ToString(m)] + [ToString(n)];
    FlattenSnoc([ToString(m)], ToString(n));
    assert Flatten([ToString(m)]) == ToString(m);
    assert Typed(m) && Typed(n);
    hide Complete, ToString, Framable, Typed, Flatten;
    PrintedCompleteIff([m, n]);
    NothingComplete(chunks);
  }

  /**
    The control stream round trip.  Whatever part of the printed messages has been received, in whatever
    chunks, what a session has handled is a prefix of them, in order, and each is read back exactly if it
    is one that printing and parsing give back.
  */
  lemma ControlStreamRoundTrip(ms: seq<Msg>, session: RtspSession, received: string, underWay: string)
    requires AllFramable(ms)
    requires received + underWay == Flatten(Printed(ms)) && session.Framed(received)
    ensures session.handled <= Printed(ms)
    ensures forall i :: 0 <= i < |session.handled| ==>
      (Parse(session.handled[i]) == Parsed(ms[i].type_, Some(ms[i].cseq), ms[i].cmd, ms[i].data) <==> ReadsBack(ms[i]))
  {
    hide Flatten, Parse, ToString, Framable, ReadsBack;
    HandledPrefix(ms, session, received, underWay);
    forall i | 0 <= i < |session.handled|
      ensures Parse(session.handled[i]) == Parsed(ms[i].type_, Some(ms[i].cseq), ms[i].cmd, ms[i].data) <==>
        ReadsBack(ms[i])
    {
      assert session.handled[i] == Printed(ms)[i];
      ReadBackIff(ms, i);
    }
  }

  lemma ReadBackIff(ms: seq<Msg>, i: nat)
    requires AllFramable(ms) && i < |ms|
    ensures Parse(Printed(ms)[i]) == Parsed(ms[i].type_, Some(ms[i].cseq), ms[i].cmd, ms[i].data) <==> ReadsBack(ms[i])
  {
    assert ms[i] in ms;
    assert Typed(ms[i]);
    hide Parse, ToString, Typed, Framable, ReadsBack;
    ParseInvertsPrintIff(ms[i]);
  }

  lemma HandledPrefix(ms: seq<Msg>, session: RtspSession, received: string, underWay: string)
    requires AllFramable(ms)
    requires received + underWay == Flatten(Printed(ms)) && session.Framed(received)
    ensures session.handled <= Printed(ms)
  {
    assert AllTyped(ms);
    hide Complete, Flatten, MsgCut, ToString, Typed, Framable;
    PrintedCompleteIff(ms);
    CompleteMonotone(received, underWay);
  }

  lemma BufferGrows(handled: seq<string>, buf: string, chunk: string, received: string)
    requires Flatten(handled) + buf == received && forall f :: f in handled ==> MsgCut(f) == |f| > 0
    ensures Flatten(handled) + (buf + chunk) == received + chunk
    ensures Complete(received + chunk) == handled + Complete(buf + chunk)
  {
    ConcatAssociates(Flatten(handled), buf, chunk);
    CompleteBehind(handled, buf + chunk);
  }

  lemma HandleOne(before: seq<string>, buf: string, n: nat, received: string)
    requires n == MsgCut(buf) > 0 && Flatten(before) + buf == received
    requires Complete(received) == before + Complete(buf)
    ensures n <= |buf| && MsgCut(buf[..n]) == |buf[..n]|
    ensures Flatten(before + [buf[..n]]) + buf[n..] == received
    ensures Complete(received) == (before + [buf[..n]]) + Complete(buf[n..])
  {
    CutPrefix(buf);
    CompleteHead(buf);
    hide MsgCut, Complete;
    FlattenSnoc(before, buf[..n]);
    ConcatAssociates(Flatten(before), buf[..n], buf[n..]);
    SplitAt(buf, n);
    ConcatAssociates(before, [buf[..n]], Complete(buf[n..]));
  }
}
