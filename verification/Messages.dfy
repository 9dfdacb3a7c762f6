/**
  common/rtsp/IMsg.cpp and its request and response variants: control messages as lines of text.  The
  syntax is the repository's own; CSeq plays the role of section 12.17 of RFC 2326.
*/
module Messages {
  import opened Basics
  import opened Text

  const TYPE_REQ := "Req"
  const TYPE_RESP_OK := "Resp 200 OK"
  const TYPE_RESP_FAIL := "Resp 100 FAIL"
  const MSG_END: string := CRLF + CRLF
  const DATA_TOKEN: string := "Data:"

  datatype Msg = Msg(type_: string, cseq: int, cmd: string, data: string)

  /** Requests are numbered when they are sent; until then their number is -1. */
  function Request(cmd: string): Msg { Msg(TYPE_REQ, -1, cmd, "") }

  function Response(cseq: int, result: bool, data: string): Msg {
    Msg(if result then TYPE_RESP_OK else TYPE_RESP_FAIL, cseq, "", data)
  }

  function GetResult(type_: string): bool { type_ == TYPE_RESP_OK }

  // --- printing -----------------------------------------------------------------------------------------

  function DataPart(m: Msg): string { DATA_TOKEN + m.data + MSG_END }
  function CmdPart(m: Msg): string { "Cmd:" + m.cmd + CRLF + DataPart(m) }
  function CSeqPart(m: Msg): string { "CSeq:" + PrintInt(m.cseq) + CRLF + CmdPart(m) }
  function ToString(m: Msg): string { "Type:" + m.type_ + CRLF + CSeqPart(m) }

  /** The text of a reply, letter by letter. */
  lemma ResponseText(c: int, ok: bool, d: string)
    ensures ToString(Response(c, ok, d)) ==
      "Type:Resp " + (if ok then "200 OK" else "100 FAIL") + "\r\nCSeq:" + PrintInt(c)
      + "\r\nCmd:\r\nData:" + d + "\r\n\r\n"
  {
    hide PrintInt;
    var m := Response(c, ok, d);
    var result := if ok then "200 OK" else "100 FAIL";
    assert "Type:" + m.type_ == "Type:Resp " + result;
    assert CRLF + ("CSeq:" + PrintInt(c)) == "\r\nCSeq:" + PrintInt(c);
    assert CmdPart(m) == "Cmd:\r\nData:" + d + "\r\n\r\n";
    LinesJoin("Type:" + m.type_, PrintInt(c), CmdPart(m));
    assert CRLF + CmdPart(m) == "\r\nCmd:\r\nData:" + d + "\r\n\r\n";
  }

  /** The text of a request, letter by letter. */
  lemma RequestText(cmd: string, c: int)
    ensures ToString(Request(cmd).(cseq := c)) ==
      "Type:Req\r\nCSeq:" + PrintInt(c) + "\r\nCmd:" + cmd + "\r\nData:\r\n\r\n"
  {
    hide PrintInt;
    var m := Request(cmd).(cseq := c);
    assert "Type:" + m.type_ == "Type:Req";
    assert "Type:Req" + "\r\nCSeq:" == "Type:Req\r\nCSeq:";
    assert CmdPart(m) == "Cmd:" + cmd + "\r\nData:\r\n\r\n";
    LinesJoin("Type:" + m.type_, PrintInt(c), CmdPart(m));
    assert CRLF + CmdPart(m) == "\r\nCmd:" + cmd + "\r\nData:\r\n\r\n";
  }

  lemma LinesJoin(typeLine: string, number: string, rest: string)
    ensures typeLine + CRLF + ("CSeq:" + number + CRLF + rest) == typeLine + "\r\nCSeq:" + number + (CRLF + rest)
  {
  }

  // --- parsing ------------------------------------------------------------------------------------------

  function DeriveString(token: string, str: string, begin: string, end: string): string {
    var target := token + begin;
    match Find(str, target, 0)
    case None => ""
    case Some(i) =>
      var value := str[i + |target|..];
      match Find(value, end, 0)
      case None => ""
      case Some(n) => value[..n]
  }

  /** The parsing constructor leaves the number unset when the CSeq value is empty. */
  datatype Parsed = Parsed(type_: string, cseq: Option<int>, cmd: string, data: string)

  function Parse(str: string): Parsed {
    Parsed(DeriveString("Type", str, ":", CRLF),
           ExtractInt(DeriveString("CSeq", str, ":", CRLF)).value,
           DeriveString("Cmd", str, ":", CRLF),
           DeriveString("Data", str, ":", CRLF))
  }

  // --- one line at a time ---------------------------------------------------------------------------------

  ghost predicate Token(token: string) {
    '\r' !in token && '\n' !in token
  }

  /** A header is not looked for in the value of another one, unless that value contains it. */
  lemma DeriveBehind(token: string, line: string, more: string)
    requires Token(token) && !Contains(line, token + ":")
    ensures DeriveString(token, line + CRLF + more, ":", CRLF) == DeriveString(token, more, ":", CRLF)
  {
    var target := token + ":";
    hide MatchAt, Contains, Find;
    FindBehindLine(line, more, target);
    match Find(more, target, 0) {
      case None =>
      case Some(i) =>
        FindBounds(more, target);
        assert (line + CRLF + more)[|line| + 2 + i + |target|..] == more[i + |target|..];
    }
  }

  lemma DeriveFrom(token: string, str: string, i: nat, v: string, more: string)
    requires Find(str, token + ":", 0) == Some(i) && !Contains(v, CRLF)
    requires str[i + |token| + 1..] == v + (CRLF + more)
    ensures DeriveString(token, str, ":", CRLF) == v
  {
    FindLineEnd(v, more);
    assert (v + (CRLF + more))[..|v|] == v;
  }

  lemma DeriveHere(token: string, v: string, more: string)
    requires !Contains(v, CRLF)
    ensures DeriveString(token, token + ":" + v + CRLF + more, ":", CRLF) == v
  {
    var target := token + ":";
    var str := target + v + CRLF + more;
    assert MatchAt(str, target, 0) by { assert str[0..|target|] == target; }
    FindFirst(str, target, 0, 0);
    assert str[|target|..] == v + (CRLF + more);
    DeriveFrom(token, str, 0, v, more);
  }

  /** A value is cut at the first line end it contains. */
  lemma DeriveCut(token: string, v: string, more: string)
    requires Contains(v, CRLF)
    ensures DeriveString(token, token + ":" + v + CRLF + more, ":", CRLF) != v
  {
    var target := token + ":";
    var str := target + v + CRLF + more;
    assert MatchAt(str, target, 0) by { assert str[0..|target|] == target; }
    FindFirst(str, target, 0, 0);
    assert str[|target|..] == v + (CRLF + more);
    ContainsIffFound(v, CRLF);
    FindBounds(v, CRLF);
    FindInside(v, CRLF + more, CRLF);
  }

  lemma FindInside(line: string, tail: string, target: string)
    requires Find(line, target, 0).Some?
    ensures Find(line + tail, target, 0) == Find(line, target, 0)
  {
    var i := Find(line, target, 0).value;
    forall j: nat | j <= i ensures MatchAt(line + tail, target, j) <==> MatchAt(line, target, j) {
      MatchInside(line, tail, target, j);
    }
    hide MatchAt;
    FindFirst(line + tail, target, 0, i);
  }

  /** A header name inside a value is taken for the header itself. */
  lemma DeriveInside(token: string, line: string, more: string)
    requires Find(line, token + ":", 0).Some? && !Contains(line, CRLF)
    ensures DeriveString(token, line + CRLF + more, ":", CRLF) == line[Find(line, token + ":", 0).value + |token| + 1..]
  {
    var target := token + ":";
    hide MatchAt, Find, Contains, DeriveString;
    var i := Find(line, target, 0).value;
    FindBounds(line, target);
    FindInside(line, CRLF + more, target);
    SuffixHasNoLineEnd(line, i + |target|);
    ConcatAssociates(line, CRLF, more);
    assert (line + (CRLF + more))[i + |target|..] == line[i + |target|..] + (CRLF + more);
    DeriveFrom(token, line + (CRLF + more), i, line[i + |target|..], more);
  }

  lemma SuffixHasNoLineEnd(s: string, n: nat)
    requires n <= |s| && !Contains(s, CRLF)
    ensures !Contains(s[n..], CRLF)
  {
    forall j: nat | j <= |s[n..]| ensures !MatchAt(s[n..], CRLF, j) {
      SplitAt(s, n);
      ShiftMatch(s[..n], s[n..], CRLF, j);
      assert !MatchAt(s, CRLF, n + j) by { if n + j > |s| {} }
    }
  }

  /** A text counts as a success if and only if its type line is exactly this one. */
  lemma SuccessIff(line: string, more: string)
    requires !Contains(line, CRLF)
    ensures GetResult(Parse("Type:" + line + CRLF + more).type_) <==> line == "Resp 200 OK"
  {
    hide Contains, MatchAt, Find, DeriveString, ExtractInt;
    Targets();
    DeriveHere("Type", line, more);
  }

  /** A header that is missing, or that no line end follows, is read as empty. */
  lemma DeriveNothing(token: string, str: string, i: nat)
    ensures !Contains(str, token + ":") ==> DeriveString(token, str, ":", CRLF) == ""
    ensures
      (Find(str, token + ":", 0) == Some(i) && i + |token| + 1 <= |str| && !Contains(str[i + |token| + 1..], CRLF)) ==>
        DeriveString(token, str, ":", CRLF) == ""
  {
    ContainsIffFound(str, token + ":");
    if i + |token| + 1 <= |str| { ContainsIffFound(str[i + |token| + 1..], CRLF); }
    hide Contains, Find, MatchAt;
  }

  // --- whole messages ---------------------------------------------------------------------------------------

  /** What the constructors guarantee: one of the three types, and a number of type int. */
  predicate Typed(m: Msg) {
    && (m.type_ == TYPE_REQ || m.type_ == TYPE_RESP_OK || m.type_ == TYPE_RESP_FAIL)
    && INT_MIN <= m.cseq <= INT_MAX
  }

  /** Values that end with their line. */
  ghost predicate Printable(m: Msg) {
    Typed(m) && !Contains(m.cmd, CRLF) && !Contains(m.data, CRLF)
  }

  lemma TypeChars(type_: string, c: char)
    requires type_ == TYPE_REQ || type_ == TYPE_RESP_OK || type_ == TYPE_RESP_FAIL
    requires c == 'C' || c == 'D' || c == '\r'
    ensures c !in type_ && c !in "Type:" + type_
  {
  }

  /** The type and number lines hold none of the later header names, and no line end. */
  lemma TypeLine(m: Msg)
    requires Typed(m)
    ensures !Contains(m.type_, CRLF)
    ensures !Contains("Type:" + m.type_, "CSeq:") && !Contains("Type:" + m.type_, "Cmd:")
    ensures !Contains("Type:" + m.type_, DATA_TOKEN)
  {
    TypeChars(m.type_, 'C');
    TypeChars(m.type_, 'D');
    TypeChars(m.type_, '\r');
    hide Contains, PrintInt;
    LacksChar(m.type_, CRLF, '\r');
    LacksChar("Type:" + m.type_, "CSeq:", 'C');
    LacksChar("Type:" + m.type_, "Cmd:", 'C');
    LacksChar("Type:" + m.type_, DATA_TOKEN, 'D');
  }

  lemma CSeqLine(m: Msg)
    ensures !Contains(PrintInt(m.cseq), CRLF)
    ensures !Contains("CSeq:" + PrintInt(m.cseq), "Cmd:") && !Contains("CSeq:" + PrintInt(m.cseq), DATA_TOKEN)
  {
    hide Contains, PrintInt;
    LacksChar(PrintInt(m.cseq), CRLF, '\r');
    LacksChar("CSeq:" + PrintInt(m.cseq), "Cmd:", 'm');
    LacksChar("CSeq:" + PrintInt(m.cseq), DATA_TOKEN, 'D');
  }

  lemma Targets()
    ensures "Type" + ":" == "Type:" && "CSeq" + ":" == "CSeq:" && "Cmd" + ":" == "Cmd:" && "Data" + ":" == DATA_TOKEN
  {
  }

  lemma ParsedCSeq(m: Msg)
    requires Typed(m)
    ensures Parse(ToString(m)).cseq == Some(m.cseq)
  {
    TypeLine(m);
    CSeqLine(m);
    Targets();
    hide PrintInt, DeriveString, Contains, ExtractInt, MatchAt, Find, CmdPart;
    DeriveBehind("CSeq", "Type:" + m.type_, CSeqPart(m));
    DeriveHere("CSeq", PrintInt(m.cseq), CmdPart(m));
    ExtractPrintedInt(m.cseq, "");
    assert PrintInt(m.cseq) + "" == PrintInt(m.cseq);
  }

  lemma CmdBehindHeaders(m: Msg)
    requires Typed(m)
    ensures Parse(ToString(m)).cmd == DeriveString("Cmd", CmdPart(m), ":", CRLF)
  {
    TypeLine(m);
    CSeqLine(m);
    Targets();
    hide PrintInt, DeriveString, Contains, ExtractInt, MatchAt, Find, CmdPart;
    DeriveBehind("Cmd", "Type:" + m.type_, CSeqPart(m));
    DeriveBehind("Cmd", "CSeq:" + PrintInt(m.cseq), CmdPart(m));
  }

  lemma ParsedType(m: Msg)
    requires Typed(m)
    ensures Parse(ToString(m)).type_ == m.type_
  {
    TypeLine(m);
    Targets();
    hide PrintInt, DeriveString, Contains, ExtractInt, MatchAt, Find, CSeqPart, Typed;
    DeriveHere("Type", m.type_, CSeqPart(m));
  }

  /** The command comes back if and only if it is a single line. */
  lemma ParsedCmd(m: Msg)
    requires Typed(m)
    ensures Parse(ToString(m)).cmd == m.cmd <==> !Contains(m.cmd, CRLF)
  {
    CmdBehindHeaders(m);
    Targets();
    hide DeriveString, Contains, MatchAt, Find, DataPart, Parse, ToString;
    if Contains(m.cmd, CRLF) {
      DeriveCut("Cmd", m.cmd, DataPart(m));
    } else {
      DeriveHere("Cmd", m.cmd, DataPart(m));
    }
  }

  /** Type and number come back whatever the values are, the command if it is a single line. */
  lemma ParsedHeaders(m: Msg)
    requires Typed(m)
    ensures var p := Parse(ToString(m));
      p.type_ == m.type_ && p.cseq == Some(m.cseq) && (p.cmd == m.cmd <==> !Contains(m.cmd, CRLF))
  {
    ParsedType(m);
    ParsedCSeq(m);
    ParsedCmd(m);
    hide Parse, ToString, Contains;
  }

  /** What the parser takes for the data of a printed message. */
  function DataRead(m: Msg): string {
    match Find(m.cmd, DATA_TOKEN, 0)
    case None => m.data
    case Some(i) => m.cmd[i + |DATA_TOKEN|..]
  }

  lemma CmdLine(cmd: string)
    ensures Find("Cmd:" + cmd, DATA_TOKEN, 0) ==
      match Find(cmd, DATA_TOKEN, 0) case None => None case Some(i) => Some(4 + i)
    ensures !Contains(cmd, CRLF) ==> !Contains("Cmd:" + cmd, CRLF)
  {
    FindBehind("Cmd:", cmd, DATA_TOKEN);
    FindBehind("Cmd:", cmd, CRLF);
  }

  lemma DataBehindHeaders(m: Msg)
    requires Typed(m)
    ensures Parse(ToString(m)).data == DeriveString("Data", CmdPart(m), ":", CRLF)
  {
    TypeLine(m);
    CSeqLine(m);
    Targets();
    hide PrintInt, DeriveString, ExtractInt, MatchAt, Find, Contains, CmdPart;
    DeriveBehind("Data", "Type:" + m.type_, CSeqPart(m));
    DeriveBehind("Data", "CSeq:" + PrintInt(m.cseq), CmdPart(m));
  }

  lemma PlainData(m: Msg)
    requires !Contains("Cmd:" + m.cmd, DATA_TOKEN) && !Contains(m.data, CRLF)
    ensures DeriveString("Data", CmdPart(m), ":", CRLF) == m.data
  {
    hide DeriveString, MatchAt, Find, Contains;
    Targets();
    DeriveBehind("Data", "Cmd:" + m.cmd, DataPart(m));
    DeriveHere("Data", m.data, CRLF);
    ConcatAssociates(DATA_TOKEN + m.data, CRLF, CRLF);
  }

  lemma DataInCmd(m: Msg, i: nat)
    requires Find("Cmd:" + m.cmd, DATA_TOKEN, 0) == Some(4 + i) && !Contains("Cmd:" + m.cmd, CRLF)
    ensures i + 5 <= |m.cmd| && DeriveString("Data", CmdPart(m), ":", CRLF) == m.cmd[i + 5..]
  {
    hide DeriveString, MatchAt, Find, Contains, DataPart;
    Targets();
    FindBounds("Cmd:" + m.cmd, DATA_TOKEN);
    DeriveInside("Data", "Cmd:" + m.cmd, DataPart(m));
    assert ("Cmd:" + m.cmd)[4 + i + 5..] == m.cmd[i + 5..];
  }

  lemma ParsedData(m: Msg)
    requires Printable(m)
    ensures Parse(ToString(m)).data == DataRead(m)
  {
    hide DeriveString, MatchAt, Find, Contains, Parse, ToString, CmdPart;
    DataBehindHeaders(m);
    CmdLine(m.cmd);
    ContainsIffFound("Cmd:" + m.cmd, DATA_TOKEN);
    match Find(m.cmd, DATA_TOKEN, 0) {
      case None => PlainData(m);
      case Some(i) => DataInCmd(m, i);
    }
  }

  /** With a single-line command, data of several lines never comes back. */
  lemma DataCut(m: Msg)
    requires Typed(m) && !Contains(m.cmd, CRLF) && Contains(m.data, CRLF)
    ensures Parse(ToString(m)).data != m.data
  {
    hide DeriveString, MatchAt, Find, Contains, Parse, ToString, CmdPart, DataPart, Typed;
    DataBehindHeaders(m);
    CmdLine(m.cmd);
    ContainsIffFound("Cmd:" + m.cmd, DATA_TOKEN);
    match Find(m.cmd, DATA_TOKEN, 0) {
      case None => DataCutPlain(m);
      case Some(i) =>
        DataInCmd(m, i);
        SuffixHasNoLineEnd(m.cmd, i + 5);
    }
  }

  lemma DataCutPlain(m: Msg)
    requires !Contains("Cmd:" + m.cmd, DATA_TOKEN) && Contains(m.data, CRLF)
    ensures DeriveString("Data", CmdPart(m), ":", CRLF) != m.data
  {
    hide DeriveString, MatchAt, Find, Contains;
    Targets();
    DeriveBehind("Data", "Cmd:" + m.cmd, DataPart(m));
    DeriveCut("Data", m.data, CRLF);
    ConcatAssociates(DATA_TOKEN + m.data, CRLF, CRLF);
  }

  /** Both values are single lines, and a command that contains "Data:" happens to go on with the data there. */
  ghost predicate ReadsBack(m: Msg) {
    && !Contains(m.cmd, CRLF) && !Contains(m.data, CRLF)
    && (Contains(m.cmd, DATA_TOKEN) ==> m.cmd[Find(m.cmd, DATA_TOKEN, 0).value + |DATA_TOKEN|..] == m.data)
  }

  /**
    For every type, every number including -1 and all values: parsing inverts printing if and only if both
    values are single lines, and a command that contains "Data:" - which is taken for the data line -
    happens to go on with the data.
  */
  lemma ParseInvertsPrintIff(m: Msg)
    requires Typed(m)
    ensures Parse(ToString(m)) == Parsed(m.type_, Some(m.cseq), m.cmd, m.data) <==> ReadsBack(m)
  {
    ParsedHeaders(m);
    ContainsIffFound(m.cmd, DATA_TOKEN);
    if !Contains(m.cmd, CRLF) && !Contains(m.data, CRLF) {
      ParsedData(m);
    } else if !Contains(m.cmd, CRLF) {
      DataCut(m);
    }
    hide Parse, ToString, Typed, MatchAt, Contains;
  }

  /** What every request and every reply of the repository relies on. */
  lemma PrintableSurvives(m: Msg)
    requires Printable(m) && !Contains(m.cmd, DATA_TOKEN)
    ensures Parse(ToString(m)) == Parsed(m.type_, Some(m.cseq), m.cmd, m.data)
  {
    hide Parse, ToString, Typed, MatchAt, Contains, Find;
    ParseInvertsPrintIff(m);
  }

  /** An exception's text of two lines, as a reply would carry it: the second line is lost. */
  lemma TwoLinesExample()
    ensures Parse(ToString(Response(0, false, "a\r\nb"))).data != "a\r\nb"
  {
    var m := Response(0, false, "a\r\nb");
    assert MatchAt(m.data, CRLF, 1);
    LacksChar("", CRLF, '\r');
    hide Parse, ToString, Contains;
    DataCut(m);
  }

  // --- where a message ends ---------------------------------------------------------------------------------

  /** The first blank line of a text is its end. */
  predicate EndsOnce(s: string) {
    |s| >= |MSG_END| && Find(s, MSG_END, 0) == Some(|s| - |MSG_END|)
  }

  /** A value neither holds a blank line nor makes one with the line end that is printed behind it. */
  predicate BlankFree(v: string) {
    !Contains(v + CRLF, MSG_END)
  }

  lemma MatchInFront(before: string, more: string, j: nat)
    requires more != [] && more[0] != '\r' && more[0] != '\n' && j < |before|
    ensures MatchAt(before + more, MSG_END, j) <==> MatchAt(before, MSG_END, j)
  {
    if j + |MSG_END| <= |before| {
      MatchInside(before, more, MSG_END, j);
    } else {
      MatchChar(before + more, MSG_END, j, |before| - j);
    }
  }

  lemma EarlyMatch(s: string, i: nat)
    requires MatchAt(s, MSG_END, i) && i + |MSG_END| < |s|
    ensures !EndsOnce(s)
  {
  }

  /** Lines in front of a text do not end it, unless they hold a blank line. */
  lemma EndBehindLines(line: string, more: string)
    requires |more| >= |MSG_END| && more[0] != '\r' && more[0] != '\n'
    ensures EndsOnce(line + CRLF + more) <==> BlankFree(line) && EndsOnce(more)
  {
    var before := line + CRLF;
    forall j: nat | j < |before| ensures MatchAt(before + more, MSG_END, j) <==> MatchAt(before, MSG_END, j) {
      MatchInFront(before, more, j);
    }
    if BlankFree(line) {
      assert forall j: nat :: j < |before| ==> !MatchAt(before, MSG_END, j);
      hide MatchAt, Contains;
      FindBehindMatches(before, more, MSG_END);
    } else {
      var i: nat :| i <= |before| && MatchAt(before, MSG_END, i);
      EarlyMatch(before + more, i);
    }
  }

  lemma EndOfLastLine(line: string)
    ensures EndsOnce(line + MSG_END) <==> BlankFree(line)
  {
    var before, s := line + CRLF, line + MSG_END;
    assert s == before + CRLF;
    assert MatchAt(s, MSG_END, |line|) by {
      assert s[|line|..|line| + 4] == MSG_END;
    }
    forall j: nat | j < |line| ensures MatchAt(s, MSG_END, j) <==> MatchAt(before, MSG_END, j) {
      if j + |MSG_END| <= |before| {
        MatchInside(before, CRLF, MSG_END, j);
      } else {
        MatchChar(s, MSG_END, j, 1);
      }
    }
    if BlankFree(line) {
      hide MatchAt;
      FindFirst(s, MSG_END, 0, |line|);
    } else {
      var i: nat :| i <= |before| && MatchAt(before, MSG_END, i);
      EarlyMatch(s, i);
    }
  }

  lemma BlankFreeBehind(name: string, v: string)
    requires '\r' !in name
    ensures BlankFree(name + v) <==> BlankFree(v)
  {
    FindBehind(name, v + CRLF, MSG_END);
    ContainsIffFound(v + CRLF, MSG_END);
    ContainsIffFound(name + (v + CRLF), MSG_END);
    ConcatAssociates(name, v, CRLF);
    hide Contains, Find;
  }

  lemma NoLineEndNoBlank(v: string)
    requires '\r' !in v
    ensures BlankFree(v)
  {
    forall i: nat | i <= |v + CRLF| ensures !MatchAt(v + CRLF, MSG_END, i) {
      MatchChar(v + CRLF, MSG_END, i, 0);
      MatchChar(v + CRLF, MSG_END, i, 2);
    }
  }

  lemma DataEnd(m: Msg)
    ensures EndsOnce(DataPart(m)) <==> BlankFree(m.data)
    ensures |DataPart(m)| >= |MSG_END| && DataPart(m)[0] == 'D'
  {
    hide EndsOnce, BlankFree;
    BlankFreeBehind(DATA_TOKEN, m.data);
    EndOfLastLine(DATA_TOKEN + m.data);
  }

  lemma CmdEnd(m: Msg)
    ensures EndsOnce(CmdPart(m)) <==> BlankFree(m.cmd) && BlankFree(m.data)
    ensures |CmdPart(m)| >= |MSG_END| && CmdPart(m)[0] == 'C'
  {
    DataEnd(m);
    hide EndsOnce, BlankFree, DataPart;
    BlankFreeBehind("Cmd:", m.cmd);
    EndBehindLines("Cmd:" + m.cmd, DataPart(m));
  }

  lemma CSeqEnd(m: Msg)
    ensures EndsOnce(CSeqPart(m)) <==> BlankFree(m.cmd) && BlankFree(m.data)
    ensures |CSeqPart(m)| >= |MSG_END| && CSeqPart(m)[0] == 'C'
  {
    CmdEnd(m);
    hide EndsOnce, BlankFree, CmdPart, PrintInt;
    NoLineEndNoBlank("CSeq:" + PrintInt(m.cseq));
    EndBehindLines("CSeq:" + PrintInt(m.cseq), CmdPart(m));
  }

  /**
    For all values: the first blank line of a printed message is its end if and only if command and data are
    blank-free.
  */
  lemma PrintedEndIff(m: Msg)
    requires Typed(m)
    ensures EndsOnce(ToString(m)) <==> BlankFree(m.cmd) && BlankFree(m.data)
  {
    CSeqEnd(m);
    TypeChars(m.type_, '\r');
    hide EndsOnce, BlankFree, CSeqPart, Typed;
    NoLineEndNoBlank("Type:" + m.type_);
    EndBehindLines("Type:" + m.type_, CSeqPart(m));
  }

  /** What a receiver can cut off a stream at its end. */
  ghost predicate Framable(m: Msg) {
    Typed(m) && BlankFree(m.cmd) && BlankFree(m.data)
  }

  lemma SingleLineBlankFree(v: string)
    requires !Contains(v, CRLF)
    ensures BlankFree(v)
  {
    forall j: nat | j <= |v + CRLF| ensures !MatchAt(v + CRLF, MSG_END, j) {
      if j < |v| {
        LineEndMatch(v, "", j);
        EndStartsWithLineEnd(v + (CRLF + ""), j);
        assert v + (CRLF + "") == v + CRLF;
      }
    }
  }

  lemma EndStartsWithLineEnd(s: string, j: nat)
    ensures MatchAt(s, MSG_END, j) ==> MatchAt(s, CRLF, j)
  {
    if MatchAt(s, MSG_END, j) {
      assert s[j..j + 2] == s[j..j + 4][..2];
    }
  }

  /** In particular with single-line values, even if they end in a carriage return. */
  lemma PrintedEnd(m: Msg)
    requires Printable(m)
    ensures Framable(m) && EndsOnce(ToString(m))
  {
    SingleLineBlankFree(m.cmd);
    SingleLineBlankFree(m.data);
    PrintedEndIff(m);
    hide EndsOnce, BlankFree, Typed, Contains;
  }

  /** Data of two lines leaves the end of the message alone; data that ends with its line moves it forward. */
  lemma DataEndExamples(cseq: int)
    requires INT_MIN <= cseq <= INT_MAX
    ensures EndsOnce(ToString(Response(cseq, false, "a\r\nb"))) && !EndsOnce(ToString(Response(cseq, false, "a\r\n")))
  {
    var two, ended := Response(cseq, false, "a\r\nb"), Response(cseq, false, "a\r\n");
    NoLineEndNoBlank("");
    assert BlankFree("a\r\nb") by {
      forall i: nat | i <= |"a\r\nb" + CRLF| ensures !MatchAt("a\r\nb" + CRLF, MSG_END, i) {
        MatchChar("a\r\nb" + CRLF, MSG_END, i, 0);
        MatchChar("a\r\nb" + CRLF, MSG_END, i, 2);
      }
    }
    assert MatchAt("a\r\n" + CRLF, MSG_END, 1);
    hide EndsOnce, ToString;
    PrintedEndIff(two);
    PrintedEndIff(ended);
  }
}
