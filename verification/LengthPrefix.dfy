/**
  The media format: a 4-byte little-endian payload length, then the payload
  (redirector-client/Redirector.cpp, projector/RdpStreamingDef.h).
*/
module LengthPrefix {
  import opened Basics
  import opened FrameStream

  const HEADER_SIZE := 4

  type Payload = p: seq<byte> | |p| < 0x1_0000_0000

  /** The header word as an x86 machine reads it. */
  function WordAt(s: seq<byte>): (n: uint32)
    requires |s| >= HEADER_SIZE
  {
    var n := s[0] as int + 0x100 * s[1] as int + 0x1_0000 * s[2] as int + 0x100_0000 * s[3] as int;
    n as uint32
  }

  function WordBytes(n: uint32): (s: seq<byte>)
    ensures |s| == HEADER_SIZE && WordAt(s) == n
  {
    var v := n as int;
    var v1 := v / 0x100;
    var v2 := v1 / 0x100;
    [(v % 0x100) as byte, (v1 % 0x100) as byte, (v2 % 0x100) as byte, (v2 / 0x100) as byte]
  }

  /** What the agent's sender callbacks put on the wire for one payload: two sends, header and data. */
  function Encode(p: Payload): seq<byte> {
    WordBytes(|p| as uint32) + p
  }

  lemma EncodeIsFrame(p: Payload)
    ensures FrameCut(Encode(p)) == |Encode(p)| > 0
  {
    var header := WordBytes(|p| as uint32);
    assert forall j :: 0 <= j < HEADER_SIZE ==> Encode(p)[j] == header[j];
  }

  /** The length on the wire, byte by byte: the least significant one comes first. */
  lemma LengthOnWire(p: Payload)
    ensures var f := Encode(p);
      && |f| == 4 + |p| && f[4..] == p
      && |p| == f[0] as int + 256 * f[1] as int + 65536 * f[2] as int + 16777216 * f[3] as int
  {
    var header := WordBytes(|p| as uint32);
    assert forall j :: 0 <= j < HEADER_SIZE ==> Encode(p)[j] == header[j];
    assert WordAt(header) as int == |p|;
  }

  function EncodeAll(ps: seq<Payload>): seq<seq<byte>>
    ensures |EncodeAll(ps)| == |ps|
    ensures forall i :: 0 <= i < |ps| ==> EncodeAll(ps)[i] == Encode(ps[i])
  {
    seq(|ps|, i requires 0 <= i < |ps| => Encode(ps[i]))
  }

  function FrameCut(s: seq<byte>): nat {
    if |s| < HEADER_SIZE || |s| < HEADER_SIZE + WordAt(s) as nat then 0 else HEADER_SIZE + WordAt(s) as nat
  }

  lemma FrameCutStable()
    ensures Stable(FrameCut)
  {
    forall s: seq<byte>, t: seq<byte> | FrameCut(s) > 0 ensures FrameCut(s + t) == FrameCut(s) {
      assert forall i :: 0 <= i < HEADER_SIZE ==> (s + t)[i] == s[i];
    }
    forall s: seq<byte> | FrameCut(s) > 0 ensures FrameCut(s[..FrameCut(s)]) == FrameCut(s) {
      assert forall i :: 0 <= i < HEADER_SIZE ==> s[..FrameCut(s)][i] == s[i];
    }
  }

  /** The payloads of a list of frames. */
  function Payloads(frames: seq<seq<byte>>): (ps: seq<seq<byte>>)
    ensures |ps| == |frames|
    ensures forall i :: 0 <= i < |frames| ==>
      ps[i] == if |frames[i]| < HEADER_SIZE then [] else frames[i][HEADER_SIZE..]
  {
    seq(|frames|, i requires 0 <= i < |frames| => if |frames[i]| < HEADER_SIZE then [] else frames[i][HEADER_SIZE..])
  }

  /** Everything a correct receiver has delivered once it has seen `s`. */
  ghost function Received(s: seq<byte>): seq<seq<byte>> {
    FrameCutStable();
    Payloads(Decode(FrameCut, s).frames)
  }

  /** The incomplete frame that a correct receiver still holds. */
  ghost function Pending(s: seq<byte>): seq<byte> {
    FrameCutStable();
    Decode(FrameCut, s).rest
  }

  lemma ReceivedAppend(a: seq<byte>, b: seq<byte>)
    ensures Received(a + b) == Received(a) + Received(Pending(a) + b)
    ensures Pending(a + b) == Pending(Pending(a) + b)
  {
    FrameCutStable();
    DecodeAppend(FrameCut, a, b);
  }

  /**
    A receiver that holds `Pending(seen)` and takes a chunk that completes at most the frame in progress
    has to keep the grown frame, or to deliver its payload and start over.
  */
  ghost predicate Advances(frame: seq<byte>, residue: seq<byte>, before: seq<seq<byte>>, after: seq<seq<byte>>) {
    || (FrameCut(frame) == 0 && residue == frame && after == before)
    || (FrameCut(frame) == |frame| > 0 && residue == [] && after == before + [frame[HEADER_SIZE..]])
  }

  lemma ReceivedStep(seen: seq<byte>, chunk: seq<byte>, residue: seq<byte>, delivered: seq<seq<byte>>)
    requires Advances(Pending(seen) + chunk, residue, Received(seen), delivered)
    ensures residue == Pending(seen + chunk) && delivered == Received(seen + chunk)
  {
    FrameCutStable();
    var frame := Pending(seen) + chunk;
    ReceivedAppend(seen, chunk);
    DecodeOne(FrameCut, frame);
    if FrameCut(frame) == 0 {
      assert Received(seen) + [] == Received(seen);
    } else {
      assert Payloads([frame]) == [frame[HEADER_SIZE..]];
    }
  }

  /** How many bytes the frame in progress can still take before the receiver has to look at it again. */
  function Need(frame: seq<byte>): (n: nat) {
    if |frame| < HEADER_SIZE then HEADER_SIZE - |frame|
    else if |frame| < HEADER_SIZE + WordAt(frame) as nat then HEADER_SIZE + WordAt(frame) as nat - |frame|
    else 0
  }

  /** A pass that takes no more than it needs never reads past the end of a frame, and always makes progress. */
  lemma NeedExact(seen: seq<byte>, chunk: seq<byte>)
    requires |chunk| <= Need(Pending(seen))
    ensures Need(Pending(seen)) > 0
    ensures FrameCut(Pending(seen) + chunk) > 0 ==> FrameCut(Pending(seen) + chunk) == |Pending(seen) + chunk|
  {
    FrameCutStable();
    DecodePieces(FrameCut, seen);
    var frame := Pending(seen) + chunk;
    if |Pending(seen)| >= HEADER_SIZE {
      assert forall i :: 0 <= i < HEADER_SIZE ==> frame[i] == Pending(seen)[i];
    }
  }

  lemma NothingReceived()
    ensures Received([]) == [] && Pending([]) == []
  {
    FrameCutStable();
    DecodeOne(FrameCut, []);
  }

  /** Decoding inverts encoding, also when the stream breaks off inside a further frame. */
  lemma ReceivedEncoded(ps: seq<Payload>, tail: seq<byte>)
    requires FrameCut(tail) == 0
    ensures Received(Flatten(EncodeAll(ps)) + tail) == ps
    ensures Pending(Flatten(EncodeAll(ps)) + tail) == tail
  {
    FrameCutStable();
    var frames := EncodeAll(ps);
    forall f | f in frames ensures FrameCut(f) == |f| > 0 {
      var i :| 0 <= i < |frames| && frames[i] == f;
      EncodeIsFrame(ps[i]);
    }
    DecodeEncoded(FrameCut, frames, tail);
    DecodeOne(FrameCut, tail);
    hide FrameCut, WordAt, WordBytes, Flatten;
    assert frames + [] == frames;
    assert forall i :: 0 <= i < |ps| ==> Payloads(frames)[i] == ps[i];
  }
}
