/**
  The one piece of data the control protocol carries: the screen size, from the server's reply
  (projector/Session.cpp) through the wire to the agent's parser (redirector-client/ProjectorAgent.cpp).
*/
module Resolutions {
  import opened Basics
  import opened Text
  import opened Messages

  datatype Resolution = Resolution(w: int, h: int)

  /** `os << w << 'x' << h` */
  function Format(w: int, h: int): string {
    PrintInt(w) + ("x" + PrintInt(h))
  }

  /** `is >> w >> c >> h`: None if the stream fails, which leaves h, or both, unset or zero. */
  function ParseResolution(str: string): Option<Resolution> {
    var first := ExtractUnsigned(str);
    var rest := SkipSpace(first.rest);
    if !first.ok || rest == [] then None
    else
      var second := ExtractUnsigned(rest[1..]);
      if first.value.Some? && second.ok && second.value.Some?
      then Some(Resolution(first.value.value, second.value.value)) else None
  }

  lemma FormatHasChars(w: int, h: int)
    ensures '\r' !in Format(w, h)
  {
    hide PrintInt;
  }

  /** Every size a screen can have survives printing, the wire and both parsers, in a reply that counts as a success. */
  lemma ResolutionSurvives(cseq: int, w: nat, h: nat)
    requires INT_MIN <= cseq <= INT_MAX && w <= INT_MAX && h <= INT_MAX
    ensures var p := Parse(ToString(Response(cseq, true, Format(w, h))));
      GetResult(p.type_) && p.cseq == Some(cseq) && ParseResolution(p.data) == Some(Resolution(w, h))
  {
    var m := Response(cseq, true, Format(w, h));
    FormatHasChars(w, h);
    LacksChar(Format(w, h), CRLF, '\r');
    ContainsIffFound("", DATA_TOKEN);
    assert !Contains("", CRLF) && !Contains("", DATA_TOKEN);
    hide PrintInt, Contains, Parse, ToString, Find, MatchAt;
    PrintableSurvives(m);
    ParseFormatted(w, h);
  }

  lemma ParseFormatted(w: nat, h: nat)
    requires w <= INT_MAX && h <= INT_MAX
    ensures ParseResolution(Format(w, h)) == Some(Resolution(w, h))
  {
    hide PrintInt, ExtractUnsigned;
    ExtractPrintedUnsigned(w, "x" + PrintInt(h));
    ExtractPrintedUnsigned(h, "");
    assert PrintInt(h) + "" == PrintInt(h);
    assert ("x" + PrintInt(h))[1..] == PrintInt(h);
    assert SkipSpace("x" + PrintInt(h)) == "x" + PrintInt(h);
  }

  /** The size as the server writes it: two numbers with an x between them. */
  lemma FormatText(w: nat, h: nat)
    ensures Format(w, h) == PrintNat(w) + "x" + PrintNat(h)
    ensures Format(0, 7) == "0x7"
  {
    PrintedPlain(w);
    PrintedPlain(h);
    hide PrintNat;
    assert Format(w, h) == PrintNat(w) + ("x" + PrintNat(h));
    ShortFormat();
  }

  lemma ShortFormat()
    ensures Format(0, 7) == "0x7"
  {
  }
}
