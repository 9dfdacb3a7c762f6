/** The parts of the C++ string and stream library that the control protocol relies on. */
module Text {
  import opened Basics

  const CRLF: string := "\r\n"
  const INT_MAX := 0x7fff_ffff
  const INT_MIN := -0x8000_0000
  const UINT_MAX := 0xffff_ffff

  // --- searching -----------------------------------------------------------------------------------

  predicate MatchAt(s: string, pat: string, i: nat) {
    i + |pat| <= |s| && s[i..i + |pat|] == pat
  }

  predicate Contains(s: string, pat: string) {
    exists i: nat :: i <= |s| && MatchAt(s, pat, i)
  }

  /** std::string::find: the first match at or behind `from`, None for npos. */
  function Find(s: string, pat: string, from: nat): (r: Option<nat>)
    ensures r.Some? ==>
      from <= r.value && MatchAt(s, pat, r.value) && forall j: nat :: from <= j < r.value ==> !MatchAt(s, pat, j)
    ensures r.None? ==> forall j: nat :: from <= j ==> !MatchAt(s, pat, j)
    decreases |s| - from
  {
    if from + |pat| > |s| then None
    else if MatchAt(s, pat, from) then Some(from)
    else Find(s, pat, from + 1)
  }

  lemma FindBounds(s: string, pat: string)
    requires Find(s, pat, 0).Some?
    ensures Find(s, pat, 0).value + |pat| <= |s|
  {
  }

  lemma FindFirst(s: string, pat: string, from: nat, i: nat)
    requires from <= i && MatchAt(s, pat, i)
    requires forall j: nat :: from <= j < i ==> !MatchAt(s, pat, j)
    ensures Find(s, pat, from) == Some(i)
  {
  }

  lemma MatchChar(s: string, pat: string, i: nat, k: nat)
    requires k < |pat|
    ensures MatchAt(s, pat, i) ==> s[i + k] == pat[k]
  {
    if MatchAt(s, pat, i) {
      assert s[i..i + |pat|][k] == s[i + k];
    }
  }

  /** A pattern with a character that the text lacks does not occur in the text. */
  lemma LacksChar(s: string, pat: string, c: char)
    requires c in pat && c !in s
    ensures !Contains(s, pat)
  {
    var k :| 0 <= k < |pat| && pat[k] == c;
    forall i: nat | i <= |s| ensures !MatchAt(s, pat, i) {
      MatchChar(s, pat, i, k);
    }
  }

  lemma MatchInside(s: string, tail: string, pat: string, i: nat)
    ensures i + |pat| <= |s| ==> (MatchAt(s + tail, pat, i) <==> MatchAt(s, pat, i))
  {
    if i + |pat| <= |s| {
      assert (s + tail)[i..i + |pat|] == s[i..i + |pat|];
    }
  }

  /** A pattern within one line that is not in `line` can only occur behind it, never across the line end. */
  lemma SkipLineMatch(line: string, more: string, pat: string, i: nat)
    requires pat != [] && '\r' !in pat && '\n' !in pat && !Contains(line, pat)
    requires MatchAt(line + CRLF + more, pat, i)
    ensures i >= |line| + 2 && MatchAt(more, pat, i - |line| - 2)
  {
    var s := line + CRLF + more;
    assert s[|line|] == '\r' && s[|line| + 1] == '\n';
    assert forall k :: 0 <= k < |pat| ==> pat[k] in pat;
    assert i <= |line| ==> !MatchAt(line, pat, i);
    MatchInside(line, CRLF + more, pat, i);
    assert s == line + (CRLF + more);
    MatchChar(s, pat, i, 0);
    if i <= |line| < i + |pat| {
      MatchChar(s, pat, i, |line| - i);
    }
    if i >= |line| + 2 {
      assert s[i..i + |pat|] == more[i - |line| - 2..i - |line| - 2 + |pat|];
    }
  }

  lemma FindBehindLine(line: string, more: string, pat: string)
    requires pat != [] && '\r' !in pat && '\n' !in pat && !Contains(line, pat)
    ensures Find(line + CRLF + more, pat, 0)
         == match Find(more, pat, 0) case None => None case Some(i) => Some(|line| + 2 + i)
  {
    var s := line + CRLF + more;
    match Find(s, pat, 0) {
      case Some(i) =>
        SkipLineMatch(line, more, pat, i);
        forall j: nat | j < i - |line| - 2 ensures !MatchAt(more, pat, j) {
          ShiftMatch(line + CRLF, more, pat, j);
        }
        FindFirst(more, pat, 0, i - |line| - 2);
      case None =>
        match Find(more, pat, 0) {
          case Some(j) => ShiftMatch(line + CRLF, more, pat, j);
          case None =>
        }
    }
  }

  lemma ShiftMatch(before: string, s: string, pat: string, j: nat)
    ensures MatchAt(before + s, pat, |before| + j) <==> MatchAt(s, pat, j)
  {
    if j + |pat| <= |s| {
      assert (before + s)[|before| + j..|before| + j + |pat|] == s[j..j + |pat|];
    }
  }

  lemma FindBehindMatches(before: string, s: string, pat: string)
    requires forall j: nat :: j < |before| ==> !MatchAt(before + s, pat, j)
    ensures Find(before + s, pat, 0) == match Find(s, pat, 0) case None => None case Some(i) => Some(|before| + i)
  {
    var str := before + s;
    match Find(s, pat, 0) {
      case Some(i) =>
        forall j: nat | j < |before| + i ensures !MatchAt(str, pat, j) {
          if j >= |before| { ShiftMatch(before, s, pat, j - |before|); }
        }
        ShiftMatch(before, s, pat, i);
        hide MatchAt;
        FindFirst(str, pat, 0, |before| + i);
      case None =>
        match Find(str, pat, 0) {
          case Some(i) => ShiftMatch(before, s, pat, i - |before|);
          case None =>
        }
    }
  }

  /** A pattern whose first character does not occur in `before` is found in the rest. */
  lemma FindBehind(before: string, s: string, pat: string)
    requires pat != [] && pat[0] !in before
    ensures Find(before + s, pat, 0) == match Find(s, pat, 0) case None => None case Some(i) => Some(|before| + i)
    ensures !Contains(s, pat) ==> !Contains(before + s, pat)
  {
    forall j: nat | j < |before| ensures !MatchAt(before + s, pat, j) {
      MatchChar(before + s, pat, j, 0);
    }
    hide MatchAt;
    FindBehindMatches(before, s, pat);
    ContainsIffFound(s, pat);
    ContainsIffFound(before + s, pat);
  }

  lemma ContainsIffFound(s: string, pat: string)
    ensures Contains(s, pat) <==> Find(s, pat, 0).Some?
  {
  }

  lemma LineEndMatch(v: string, more: string, j: nat)
    requires !Contains(v, CRLF) && j < |v|
    ensures !MatchAt(v + (CRLF + more), CRLF, j)
  {
    var rest := v + (CRLF + more);
    assert !MatchAt(v, CRLF, j);
    MatchChar(rest, CRLF, j, 1);
    if j + 2 <= |v| {
      assert rest[j..j + 2] == v[j..j + 2];
    }
  }

  /** The end of a value is found at its own line end, also when the value ends in a carriage return. */
  lemma FindLineEnd(v: string, more: string)
    requires !Contains(v, CRLF)
    ensures Find(v + (CRLF + more), CRLF, 0) == Some(|v|)
  {
    var rest := v + (CRLF + more);
    assert MatchAt(rest, CRLF, |v|) by {
      assert rest[|v|..|v| + 2] == CRLF;
    }
    forall j: nat | j < |v| ensures !MatchAt(rest, CRLF, j) {
      LineEndMatch(v, more, j);
    }
    hide MatchAt, Contains;
    FindFirst(rest, CRLF, 0, |v|);
  }

  // --- numbers ---------------------------------------------------------------------------------------

  predicate IsDigit(c: char) { '0' <= c <= '9' }

  function PrintNat(n: nat): (s: string)
    ensures s != [] && forall c :: c in s ==> IsDigit(c)
  {
    var last := ['0' + (n % 10) as char];
    if n < 10 then last else PrintNat(n / 10) + last
  }

  function PrintInt(n: int): (s: string)
    ensures s != [] && forall c :: c in s ==> IsDigit(c) || c == '-'
  {
    if n < 0 then "-" + PrintNat(-n) else PrintNat(n)
  }

  function DigitsValue(s: string): nat
    requires forall c :: c in s ==> IsDigit(c)
  {
    if s == [] then 0
    else
      var last := s[|s| - 1];
      assert last in s;
      assert IsDigit(last);
      DigitsValue(s[..|s| - 1]) * 10 + (last - '0') as nat
  }

  function DigitsPrefix(s: string): (n: nat)
    ensures n <= |s| && forall c :: c in s[..n] ==> IsDigit(c)
  {
    if s == [] || !IsDigit(s[0]) then 0 else 1 + DigitsPrefix(s[1..])
  }

  predicate IsSpace(c: char) { c == ' ' || '\t' <= c <= '\r' }

  function SkipSpace(s: string): string {
    if s != [] && IsSpace(s[0]) then SkipSpace(s[1..]) else s
  }

  /**
    `is >> x`: `ok` is false once the stream has failed, and x then keeps its value only if nothing was left to
    read.
  */
  datatype Extracted = Extracted(value: Option<int>, ok: bool, rest: string)

  function Clamp(v: int, lo: int, hi: int): int {
    if v < lo then lo else if v > hi then hi else v
  }

  function SignedDigits(body: string, negative: bool): Extracted {
    var n := DigitsPrefix(body);
    var v: int := DigitsValue(body[..n]);
    var signed := if negative then -v else v;
    Extracted(Some(Clamp(signed, INT_MIN, INT_MAX)), n > 0 && INT_MIN <= signed <= INT_MAX, body[n..])
  }

  /**
    Extraction of a signed int: digits after an optional sign, out-of-range values clamped, 0 if there are no
    digits.
  */
  function ExtractInt(text: string): Extracted {
    var s := SkipSpace(text);
    if s == [] then Extracted(None, false, [])
    else SignedDigits(if s[0] == '-' || s[0] == '+' then s[1..] else s, s[0] == '-')
  }

  /** Extraction of an unsigned: as strtoull does, a negative number wraps around. */
  function ExtractUnsigned(text: string): Extracted {
    var s := SkipSpace(text);
    if s == [] then Extracted(None, false, [])
    else
      var negative := s[0] == '-';
      var body := if s[0] == '-' || s[0] == '+' then s[1..] else s;
      var n := DigitsPrefix(body);
      var v := DigitsValue(body[..n]);
      var value := if v > UINT_MAX then UINT_MAX else if negative then (UINT_MAX + 1 - v) % (UINT_MAX + 1) else v;
      Extracted(Some(value), n > 0 && v <= UINT_MAX, body[n..])
  }

  lemma {:induction false} PrintNatValue(n: nat)
    ensures DigitsValue(PrintNat(n)) == n
  {
    var s := PrintNat(n);
    if n >= 10 {
      PrintNatValue(n / 10);
      assert s[..|s| - 1] == PrintNat(n / 10);
    } else {
      assert s[..|s| - 1] == [];
    }
    assert s[|s| - 1] == '0' + (n % 10) as char;
  }

  lemma {:induction false} DigitsStop(digits: string, rest: string)
    requires forall c :: c in digits ==> IsDigit(c)
    requires rest == [] || !IsDigit(rest[0])
    ensures DigitsPrefix(digits + rest) == |digits|
  {
    if digits == [] {
      assert digits + rest == rest;
    } else {
      assert (digits + rest)[0] == digits[0] && (digits + rest)[1..] == digits[1..] + rest;
      DigitsStop(digits[1..], rest);
    }
  }

  lemma ReadDigits(n: nat, rest: string)
    requires rest == [] || !IsDigit(rest[0])
    ensures var body := PrintNat(n) + rest;
            var k := DigitsPrefix(body);
            DigitsValue(body[..k]) == n && body[k..] == rest && k > 0
  {
    var digits := PrintNat(n);
    PrintNatValue(n);
    DigitsStop(digits, rest);
    hide PrintNat, DigitsValue, DigitsPrefix;
    assert (digits + rest)[..|digits|] == digits && (digits + rest)[|digits|..] == rest;
  }

  /** Reading back a printed number gives the number, whatever non-digit follows. */
  lemma ExtractPrintedUnsigned(n: nat, rest: string)
    requires n <= UINT_MAX
    requires rest == [] || !IsDigit(rest[0])
    ensures ExtractUnsigned(PrintInt(n) + rest) == Extracted(Some(n), true, rest)
    ensures n <= INT_MAX ==> ExtractInt(PrintInt(n) + rest) == Extracted(Some(n), true, rest)
  {
    ReadDigits(n, rest);
    hide PrintNat, DigitsValue, DigitsPrefix;
    var s := PrintNat(n) + rest;
    assert s[0] == PrintNat(n)[0];
    assert SkipSpace(s) == s;
  }

  lemma ExtractPrintedInt(n: int, rest: string)
    requires INT_MIN <= n <= INT_MAX
    requires rest == [] || !IsDigit(rest[0])
    ensures ExtractInt(PrintInt(n) + rest) == Extracted(Some(n), true, rest)
  {
    if n >= 0 {
      ExtractPrintedUnsigned(n, rest);
    } else {
      var body := PrintNat(-n) + rest;
      assert SignedDigits(body, true) == Extracted(Some(n), true, rest) by {
        ReadDigits(-n, rest);
        hide PrintNat, DigitsValue, DigitsPrefix;
      }
      ConcatAssociates("-", PrintNat(-n), rest);
      hide PrintNat, SignedDigits;
      var s := "-" + body;
      assert s[0] == '-' && s[1..] == body && SkipSpace(s) == s;
    }
  }

  /** Printing uses no leading zeros, and a minus sign for negative numbers only. */
  lemma {:induction false} PrintedPlain(n: nat)
    ensures PrintNat(n)[0] == '0' <==> n == 0
    ensures PrintInt(n) == PrintNat(n) && PrintInt(-1 - n) == "-" + PrintNat(n + 1)
    ensures n == 0 ==> PrintNat(n) == "0"
  {
    if n < 10 {
    } else {
      PrintedPlain(n / 10);
      assert PrintNat(n)[0] == PrintNat(n / 10)[0];
    }
  }

  lemma {:induction false} SkipsSpaces(spaces: string, text: string)
    requires forall c :: c in spaces ==> IsSpace(c)
    requires text == [] || !IsSpace(text[0])
    ensures SkipSpace(spaces + text) == text
  {
    if spaces == [] {
      assert spaces + text == text;
    } else {
      assert spaces[0] in spaces;
      assert (spaces + text)[1..] == spaces[1..] + text;
      SkipsSpaces(spaces[1..], text);
    }
  }

  /**
    What extraction makes of any decimal number: spaces and a plus sign are skipped, values out of range are
    clamped.
  */
  lemma ExtractAnyInt(spaces: string, n: nat, rest: string)
    requires forall c :: c in spaces ==> IsSpace(c)
    requires rest == [] || !IsDigit(rest[0])
    ensures ExtractInt(spaces + (PrintNat(n) + rest)) == ExtractInt(spaces + ("+" + (PrintNat(n) + rest)))
    ensures ExtractInt(spaces + (PrintNat(n) + rest))
      == Extracted(Some(if n > 0x7fff_ffff then 0x7fff_ffff else n), n <= 0x7fff_ffff, rest)
    ensures var value: int := if n > 0x8000_0000 then -0x8000_0000 else 0 - n;
      ExtractInt(spaces + ("-" + (PrintNat(n) + rest))) == Extracted(Some(value), n <= 0x8000_0000, rest)
  {
    ReadDigits(n, rest);
    hide PrintNat, DigitsValue, DigitsPrefix;
    var body := PrintNat(n) + rest;
    assert body[0] == PrintNat(n)[0];
    SkipsSpaces(spaces, body);
    SkipsSpaces(spaces, "+" + body);
    SkipsSpaces(spaces, "-" + body);
    assert ("+" + body)[1..] == body && ("-" + body)[1..] == body;
    hide SkipSpace;
  }

  /** The same for an unsigned number, ... */
  lemma ExtractAnyUnsigned(spaces: string, n: nat, rest: string)
    requires forall c :: c in spaces ==> IsSpace(c)
    requires rest == [] || !IsDigit(rest[0])
    ensures ExtractUnsigned(spaces + (PrintNat(n) + rest))
      == Extracted(Some(if n > 0xffff_ffff then 0xffff_ffff else n), n <= 0xffff_ffff, rest)
  {
    ReadDigits(n, rest);
    hide PrintNat, DigitsValue, DigitsPrefix;
    var body := PrintNat(n) + rest;
    assert body[0] == PrintNat(n)[0];
    SkipsSpaces(spaces, body);
    hide SkipSpace;
  }

  /** ... of which a negative one wraps around. */
  lemma ExtractWrapped(spaces: string, n: nat, rest: string)
    requires forall c :: c in spaces ==> IsSpace(c)
    requires (rest == [] || !IsDigit(rest[0])) && 0 < n <= 0xffff_ffff
    ensures ExtractUnsigned(spaces + ("-" + (PrintNat(n) + rest))) == Extracted(Some(0x1_0000_0000 - n), true, rest)
  {
    ReadDigits(n, rest);
    var body := PrintNat(n) + rest;
    SkipsSpaces(spaces, "-" + body);
    assert ("-" + body)[1..] == body;
    var v: int := 0x1_0000_0000 - n;
    assert v % 0x1_0000_0000 == v;
    hide PrintNat, DigitsValue, DigitsPrefix, SkipSpace;
  }
}
