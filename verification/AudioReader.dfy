/**
  redirector-client/AudioSocketReader.cpp: a second, blocking decoder of the length-prefixed format.  It
  takes a single receive for the whole header, so what it delivers depends on how many bytes each header
  read returned, and on nothing else.
*/
module AudioReader {
  import opened Basics
  import opened LengthPrefix
  import opened Tcp

  const AUDIO_BUFFER_SIZE := 1000

  /** What a header read can return. */
  type HeaderRead = h: nat | 1 <= h <= HEADER_SIZE witness 1

  function Zeros(n: nat): (z: seq<byte>)
    ensures |z| == n && forall i :: 0 <= i < n ==> z[i] == 0
  {
    seq(n, _ => 0 as byte)
  }

  /** The size word behind a header read of h bytes: it was zero before, and the bytes not read stay zero. */
  function SizeRead(s: seq<byte>, h: HeaderRead): uint32
    requires h <= |s|
  {
    WordAt(s[..h] + Zeros(HEADER_SIZE - h))
  }

  /**
    The frame that one round takes off the stream.  There is none if the stream ends first, if the size
    is zero (the reader then asks for no bytes and takes the answer for the end of the connection), or if
    the size exceeds the buffer.
  */
  function Frame(s: seq<byte>, h: HeaderRead): (frame: Option<seq<byte>>)
    ensures frame.Some? ==> 0 < |frame.value| <= AUDIO_BUFFER_SIZE && h + |frame.value| <= |s|
  {
    if |s| < h then None
    else
      var size := SizeRead(s, h) as nat;
      if size == 0 || size > AUDIO_BUFFER_SIZE || |s| < h + size then None else Some(s[h..h + size])
  }

  /** What the reader delivers when its header reads return `hs`, and what it has not read by then. */
  function Delivered(s: seq<byte>, hs: seq<HeaderRead>): (frames: seq<seq<byte>>)
    ensures |frames| <= |hs|
    decreases |hs|
  {
    if hs == [] || Frame(s, hs[0]).None? then []
    else [Frame(s, hs[0]).value] + Delivered(s[hs[0] + |Frame(s, hs[0]).value|..], hs[1..])
  }

  function Left(s: seq<byte>, hs: seq<HeaderRead>): seq<byte>
    decreases |hs|
  {
    if hs == [] || Frame(s, hs[0]).None? then s
    else Left(s[hs[0] + |Frame(s, hs[0]).value|..], hs[1..])
  }

  /** One more round, behind rounds that have all delivered. */
  lemma {:induction false} OneMoreRound(s: seq<byte>, hs: seq<HeaderRead>, h: HeaderRead)
    requires |Delivered(s, hs)| == |hs|
    ensures var frame := Frame(Left(s, hs), h);
      && Delivered(s, hs + [h]) == Delivered(s, hs) + (if frame.Some? then [frame.value] else [])
      && Left(s, hs + [h]) == if frame.Some? then Left(s, hs)[h + |frame.value|..] else Left(s, hs)
    decreases |hs|
  {
    hide Frame;
    if hs == [] {
      assert [] + [h] == [h] && [h][1..] == [];
    } else {
      var rest := s[hs[0] + |Frame(s, hs[0]).value|..];
      assert (hs + [h])[0] == hs[0] && (hs + [h])[1..] == hs[1..] + [h];
      OneMoreRound(rest, hs[1..], h);
    }
  }

  lemma HeaderFilled(header: seq<byte>, s: seq<byte>, h: HeaderRead)
    requires h <= |s| && header == Zeros(HEADER_SIZE)[..0] + s[..h] + Zeros(HEADER_SIZE)[h..]
    ensures |header| == HEADER_SIZE && WordAt(header) == SizeRead(s, h)
  {
    assert header == s[..h] + Zeros(HEADER_SIZE - h);
    hide WordAt;
  }

  /** How the reading thread ends; from Overrun on the original writes past its buffer. */
  datatype AudioEnd = Stopped | Threw | Overrun

  class AudioSocketReader {
    const socket: SocketTcp
    var delivered: seq<seq<byte>>

    constructor (socket: SocketTcp)
      ensures this.socket == socket && delivered == []
    {
      this.socket, delivered := socket, [];
    }

    /** The inner loop, over any number of receives. */
    method ReadBody(size: nat) returns (frame: Option<seq<byte>>)
      requires size <= AUDIO_BUFFER_SIZE
      modifies socket
      ensures frame.Some? <==> 0 < size <= |old(socket.incoming)|
      ensures frame.Some? ==>
        frame.value == old(socket.incoming)[..size] && socket.incoming == old(socket.incoming)[size..]
    {
      var buf := new byte[AUDIO_BUFFER_SIZE];
      var bufpointer, len := 0, 0;
      ghost var stream := socket.incoming;
      while true
        invariant bufpointer == len <= size && len <= |stream| && (len == size ==> size == 0)
        invariant buf[..len] == stream[..len] && socket.incoming == stream[len..]
        decreases size - len
      {
        var lentemp := socket.Recv(buf, bufpointer, size - len);
        if lentemp.None? {
          return None;
        }
        len := len + lentemp.value;
        bufpointer := bufpointer + lentemp.value;
        if len == size {
          return Some(buf[..size]);
        }
      }
    }

    /** One pass of the outer loop; `lentemp` is None if the header read throws. */
    method ReadFrame() returns (end: AudioEnd, lentemp: Option<HeaderRead>, frame: Option<seq<byte>>)
      modifies socket
      ensures lentemp.None? ==> old(socket.incoming) == [] && frame.None? && end == Threw
      ensures lentemp.Some? ==> frame == Frame(old(socket.incoming), lentemp.value)
      ensures frame.Some? ==> lentemp.Some? && socket.incoming == old(socket.incoming)[lentemp.value + |frame.value|..]
      ensures lentemp.Some? ==> lentemp.value <= |old(socket.incoming)|
      ensures lentemp.Some? && frame.None? ==>
        (end == if SizeRead(old(socket.incoming), lentemp.value) as nat > AUDIO_BUFFER_SIZE then Overrun else Threw)
    {
      var header := new byte[HEADER_SIZE](_ => 0);
      ghost var stream := socket.incoming;
      assert header[..] == Zeros(HEADER_SIZE);
      var count := socket.Recv(header, 0, HEADER_SIZE);
      if count.None? {
        return Threw, None, None;
      }
      HeaderFilled(header[..], stream, count.value);
      lentemp := Some(count.value);
      hide SizeRead, WordAt;
      var size := WordAt(header[..]) as nat;
      if size > AUDIO_BUFFER_SIZE {
        return Overrun, lentemp, None;
      }
      frame := ReadBody(size);
      assert frame.Some? ==> stream[count.value..][..size] == stream[count.value..count.value + size];
      end := Threw;
    }

    /**
      The reading thread, which CanLoop lets run for `rounds` rounds.  What it delivers is the function
      above of the stream and its header reads, however the bodies arrive; it ends early only when a round
      yields no frame or the peer has closed.
    */
    method Workloop(rounds: nat) returns (end: AudioEnd, ghost hs: seq<HeaderRead>)
      modifies this, socket
      ensures delivered == old(delivered) + Delivered(old(socket.incoming), hs)
      ensures end == Stopped ==> |Delivered(old(socket.incoming), hs)| == |hs| == rounds
      ensures end == Threw ==> |Delivered(old(socket.incoming), hs)| < |hs| || Left(old(socket.incoming), hs) == []
      ensures end == Overrun ==>
        var left := Left(old(socket.incoming), hs);
        hs != [] && hs[|hs| - 1] <= |left| && SizeRead(left, hs[|hs| - 1]) as nat > AUDIO_BUFFER_SIZE
    {
      hide Frame;
      ghost var stream, earlier := socket.incoming, delivered;
      var round := 0;
      hs := [];
      while round < rounds
        invariant round <= rounds && |hs| == round
        invariant socket.incoming == Left(stream, hs) && |Delivered(stream, hs)| == |hs|
        invariant delivered == earlier + Delivered(stream, hs)
      {
        var end', lentemp, frame := ReadFrame();
        if lentemp.None? {
          return end', hs;
        }
        OneMoreRound(stream, hs, lentemp.value);
        hs := hs + [lentemp.value];
        if frame.None? {
          return end', hs;
        }
        delivered := delivered + [frame.value];
        round := round + 1;
      }
      end := Stopped;
    }
  }

  // --- against the streaming parser -----------------------------------------------------------------------

  ghost predicate AllZero(p: seq<byte>) {
    forall i :: 0 <= i < |p| ==> p[i] == 0
  }

  /** Small sizes leave the upper half of the length word zero. */
  lemma SmallHeader(p: Payload)
    requires |p| <= AUDIO_BUFFER_SIZE
    ensures var w := WordBytes(|p| as uint32);
      w[0] as nat + 0x100 * w[1] as nat == |p| && w[1] <= 3 && w[2] == 0 && w[3] == 0
  {
  }

  /** A header read in one piece. */
  lemma WholeHeader(p: Payload, more: seq<byte>)
    ensures Frame(Encode(p) + more, HEADER_SIZE) == if 0 < |p| <= AUDIO_BUFFER_SIZE then Some(p) else None
    ensures (Encode(p) + more)[HEADER_SIZE + |p|..] == more
  {
    var s := Encode(p) + more;
    assert s[..HEADER_SIZE] + Zeros(0) == WordBytes(|p| as uint32);
    assert s[HEADER_SIZE..HEADER_SIZE + |p|] == p;
    hide WordAt, WordBytes;
  }

  /** The size that a part of a small header shows. */
  lemma PartSize(p: Payload, more: seq<byte>, h: HeaderRead)
    requires |p| <= AUDIO_BUFFER_SIZE && h < HEADER_SIZE
    ensures SizeRead(Encode(p) + more, h) as nat == if h == 1 then |p| % 0x100 else |p|
    ensures |p| < 0x100 || h > 1 ==> (Encode(p) + more)[h..] == Zeros(HEADER_SIZE - h) + (p + more)
  {
    SmallHeader(p);
    var s, w := Encode(p) + more, WordBytes(|p| as uint32);
    var read := s[..h] + Zeros(HEADER_SIZE - h);
    assert forall i :: 0 <= i < HEADER_SIZE ==> s[i] == w[i];
    assert read[0] == w[0] && (h > 1 ==> read[1] == w[1]) && read[3] == 0;
    if |p| < 0x100 || h > 1 {
      assert forall i :: 0 <= i < HEADER_SIZE - h ==> s[h..][i] == 0;
    }
  }

  /** Zeros in front of a frame's bytes show only if all of these are zero. */
  lemma ShiftedFrame(j: nat, p: seq<byte>, more: seq<byte>)
    requires j > 0
    ensures (Zeros(j) + (p + more))[..|p|] == p <==> AllZero(p)
    ensures AllZero(p) ==> (Zeros(j) + (p + more))[|p|..] == Zeros(j) + more
  {
    var s := Zeros(j) + (p + more);
    if s[..|p|] == p {
      ShiftedZero(j, p, more, |p|);
    }
  }

  lemma {:induction false} ShiftedZero(j: nat, p: seq<byte>, more: seq<byte>, n: nat)
    requires j > 0 && n <= |p| && (Zeros(j) + (p + more))[..|p|] == p
    ensures forall i :: 0 <= i < n ==> p[i] == 0
  {
    if n == 0 {
    } else {
      ShiftedZero(j, p, more, n - 1);
      assert p[n - 1] == (Zeros(j) + (p + more))[n - 1];
    }
  }

  /** A header read in pieces: the frame is right only if it is all zero and the piece shows its size. */
  lemma PartHeader(p: Payload, more: seq<byte>, h: HeaderRead)
    requires 0 < |p| <= AUDIO_BUFFER_SIZE && h < HEADER_SIZE
    ensures Frame(Encode(p) + more, h) == Some(p) <==> AllZero(p) && (h == 1 ==> |p| < 0x100)
    ensures Frame(Encode(p) + more, h) == Some(p) ==> (Encode(p) + more)[h + |p|..] == Zeros(HEADER_SIZE - h) + more
  {
    var s := Encode(p) + more;
    PartSize(p, more, h);
    hide SizeRead, WordBytes, AllZero, Zeros;
    if |p| < 0x100 || h > 1 {
      var shifted := Zeros(HEADER_SIZE - h) + (p + more);
      ShiftedFrame(HEADER_SIZE - h, p, more);
      assert s[h..h + |p|] == s[h..][..|p|] == shifted[..|p|];
      assert s[h + |p|..] == s[h..][|p|..] == shifted[|p|..];
    }
  }

  /** Behind such a frame the reader is out of step for good: zeros are no size ... */
  lemma ZerosEnd(j: nat, hs: seq<HeaderRead>)
    requires j < HEADER_SIZE
    ensures Delivered(Zeros(j), hs) == []
  {
    if hs != [] && hs[0] <= j {
      assert SizeRead(Zeros(j), hs[0]) == 0;
    }
  }

  /** ... and in front of a length word they multiply it. */
  lemma OutOfStep(j: nat, q: Payload, more: seq<byte>, h: HeaderRead)
    requires 1 <= j < HEADER_SIZE && 0 < |q| <= AUDIO_BUFFER_SIZE
    ensures Frame(Zeros(j) + (Encode(q) + more), h) != Some(q)
  {
    SmallHeader(q);
    var s, w := Zeros(j) + (Encode(q) + more), WordBytes(|q| as uint32);
    var read := s[..h] + Zeros(HEADER_SIZE - h);
    assert forall i :: 0 <= i < j ==> s[i] == 0;
    assert forall i :: 0 <= i < HEADER_SIZE ==> s[j + i] == w[i];
    assert read[0] == 0;
    if j == 1 {
      assert read[1] == 0 || read[1] == w[0];
    } else {
      assert read[1] == 0;
    }
  }

  /**
    What the peer has to send, and how its headers have to arrive: frames of 1 to 1000 bytes, every header
    in one piece, except that the last frame's may be read in pieces if its payload is all zeros (and its
    size shows in the first byte, if that is all that was read).
  */
  ghost predicate Readable(ps: seq<Payload>, hs: seq<HeaderRead>) {
    && |ps| <= |hs|
    && (forall i :: 0 <= i < |ps| ==> 0 < |ps[i]| <= AUDIO_BUFFER_SIZE)
    && (forall i :: 0 <= i < |ps| - 1 ==> hs[i] == HEADER_SIZE)
    && (ps != [] ==> hs[|ps| - 1] == HEADER_SIZE || HarmlessPart(ps[|ps| - 1], hs[|ps| - 1]))
  }

  ghost predicate HarmlessPart(p: Payload, h: HeaderRead) {
    AllZero(p) && (h == 1 ==> |p| < 0x100)
  }

  lemma StreamHead(ps: seq<Payload>)
    ensures ps == [] ==> Flatten(EncodeAll(ps)) == []
    ensures ps != [] ==> Flatten(EncodeAll(ps)) == Encode(ps[0]) + Flatten(EncodeAll(ps[1..]))
  {
    if ps != [] {
      assert EncodeAll(ps) == [Encode(ps[0])] + EncodeAll(ps[1..]);
      FlattenCons(Encode(ps[0]), EncodeAll(ps[1..]));
    }
  }

  lemma HeadWhole(ps: seq<Payload>, hs: seq<HeaderRead>)
    requires ps != [] && hs != [] && hs[0] == HEADER_SIZE
    ensures Delivered(Flatten(EncodeAll(ps)), hs) == ps <==>
      0 < |ps[0]| <= AUDIO_BUFFER_SIZE && Delivered(Flatten(EncodeAll(ps[1..])), hs[1..]) == ps[1..]
  {
    hide Frame, Encode, Flatten, EncodeAll;
    StreamHead(ps);
    WholeHeader(ps[0], Flatten(EncodeAll(ps[1..])));
    assert ps == [ps[0]] + ps[1..];
  }

  lemma HeadPart(ps: seq<Payload>, hs: seq<HeaderRead>)
    requires ps != [] && hs != [] && hs[0] < HEADER_SIZE
    ensures Delivered(Flatten(EncodeAll(ps)), hs) == ps <==>
      |ps| == 1 && 0 < |ps[0]| <= AUDIO_BUFFER_SIZE && HarmlessPart(ps[0], hs[0])
  {
    hide Frame, Encode, Flatten, EncodeAll, AllZero;
    StreamHead(ps);
    var p, h, others, more := ps[0], hs[0], ps[1..], Flatten(EncodeAll(ps[1..]));
    if 0 < |p| <= AUDIO_BUFFER_SIZE && Frame(Encode(p) + more, h) == Some(p) {
      PartHeader(p, more, h);
      var rest := Zeros(HEADER_SIZE - h) + more;
      StreamHead(others);
      assert Delivered(Encode(p) + more, hs) == [p] + Delivered(rest, hs[1..]);
      if others == [] {
        assert rest == Zeros(HEADER_SIZE - h);
        ZerosEnd(HEADER_SIZE - h, hs[1..]);
      } else {
        OutOfStepRun(HEADER_SIZE - h, others, hs[1..]);
        assert ps == [p] + others;
      }
    } else if 0 < |p| <= AUDIO_BUFFER_SIZE {
      PartHeader(p, more, h);
    }
  }

  lemma OutOfStepRun(j: nat, qs: seq<Payload>, hs: seq<HeaderRead>)
    requires 1 <= j < HEADER_SIZE && qs != []
    ensures Delivered(Zeros(j) + Flatten(EncodeAll(qs)), hs) != qs
  {
    hide Frame, Encode, Flatten, EncodeAll;
    StreamHead(qs);
    if hs != [] && 0 < |qs[0]| <= AUDIO_BUFFER_SIZE {
      OutOfStep(j, qs[0], Flatten(EncodeAll(qs[1..])), hs[0]);
    }
  }

  /** Exactly when the reader delivers what was sent. */
  lemma {:induction false} DeliversAllIff(ps: seq<Payload>, hs: seq<HeaderRead>)
    ensures Delivered(Flatten(EncodeAll(ps)), hs) == ps <==> Readable(ps, hs)
    decreases |ps|
  {
    hide Frame, Flatten, EncodeAll, HarmlessPart;
    if ps == [] {
      StreamHead(ps);
      assert Zeros(0) == [];
      ZerosEnd(0, hs);
    } else if hs != [] {
      if hs[0] == HEADER_SIZE {
        HeadWhole(ps, hs);
        DeliversAllIff(ps[1..], hs[1..]);
        ReadableTail(ps, hs);
      } else {
        HeadPart(ps, hs);
      }
    }
  }

  lemma ReadableTail(ps: seq<Payload>, hs: seq<HeaderRead>)
    requires ps != [] && hs != [] && hs[0] == HEADER_SIZE
    ensures Readable(ps, hs) <==> 0 < |ps[0]| <= AUDIO_BUFFER_SIZE && Readable(ps[1..], hs[1..])
  {
    hide HarmlessPart;
    if Readable(ps[1..], hs[1..]) && 0 < |ps[0]| <= AUDIO_BUFFER_SIZE {
      forall i | 0 <= i < |ps| ensures 0 < |ps[i]| <= AUDIO_BUFFER_SIZE {
        assert i > 0 ==> ps[i] == ps[1..][i - 1];
      }
      forall i | 0 <= i < |ps| - 1 ensures hs[i] == HEADER_SIZE {
        assert i > 0 ==> hs[i] == hs[1..][i - 1];
      }
    }
  }

  /**
    In every run the blocking decoder and the streaming parser deliver the same payloads if and only if
    the frames and the arrival of their headers are as `Readable` says.
  */
  lemma DecodersAgreeIff(ps: seq<Payload>, hs: seq<HeaderRead>)
    ensures Delivered(Flatten(EncodeAll(ps)), hs) == Received(Flatten(EncodeAll(ps))) <==> Readable(ps, hs)
  {
    hide Delivered, Flatten, EncodeAll, Received, Readable;
    WholeStreamDelivered(ps);
    DeliversAllIff(ps, hs);
  }

  /** With whole headers only the sizes matter: an empty frame, or one above the buffer size, parts the two. */
  lemma WholeHeadersAgreeIff(ps: seq<Payload>, hs: seq<HeaderRead>)
    requires |hs| >= |ps| && forall i :: 0 <= i < |hs| ==> hs[i] == HEADER_SIZE
    ensures Delivered(Flatten(EncodeAll(ps)), hs) == Received(Flatten(EncodeAll(ps)))
      <==> forall i :: 0 <= i < |ps| ==> 0 < |ps[i]| <= 1000
  {
    hide Delivered, Flatten, EncodeAll, Received;
    DecodersAgreeIff(ps, hs);
  }

  /**
    One frame with the single byte 1, its header read in two pieces: the reader delivers a byte of the header
    instead.
  */
  lemma SplitHeaderExample()
    ensures Delivered(Flatten(EncodeAll([[1]])), [2]) == [[0]]
    ensures Received(Flatten(EncodeAll([[1]]))) == [[1]]
  {
    WholeStreamDelivered([[1]]);
    var s: seq<byte> := [1, 0, 0, 0, 1];
    assert Encode([1]) == s;
    StreamHead([[1]]);
    assert s + [] == s;
    assert s[..2] + Zeros(2) == [1, 0, 0, 0];
    assert s[2..3] == [0];
    hide Flatten, EncodeAll, Received;
    assert Delivered(s, [2]) == [[0]] + Delivered(s[3..], []);
  }
}
