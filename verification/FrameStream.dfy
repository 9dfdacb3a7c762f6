/**
  How a receiver cuts an unbounded stream into frames.

  A cutter looks at the unread part of a stream and returns the length of the complete frame at its
  head, or 0 while that frame is still incomplete.  The three wire formats of the repository
  (length-prefixed payloads, fixed-size records, control messages ended by a blank line) are three
  cutters; everything that holds for all chunkings is proved here once.
*/
module FrameStream {
  import opened Basics

  /** More input never changes a frame already seen, and a frame is seen as soon as its last item is there. */
  ghost predicate Stable<T(!new)>(cut: seq<T> -> nat) {
    && (forall s {:trigger cut(s)} :: cut(s) <= |s|)
    && (forall s, t {:trigger cut(s + t)} :: cut(s) > 0 ==> cut(s + t) == cut(s))
    && (forall s {:trigger cut(s[..cut(s)])} :: cut(s) > 0 ==> cut(s[..cut(s)]) == cut(s))
  }

  /** The reference decoder: all complete frames of a stream, and what is left over. */
  datatype Decoded<T> = Decoded(frames: seq<seq<T>>, rest: seq<T>)

  ghost function Decode<T(!new)>(cut: seq<T> -> nat, s: seq<T>): Decoded<T>
    requires Stable(cut)
    decreases |s|
  {
    var n := cut(s);
    if n == 0 then Decoded([], s)
    else
      var d := Decode(cut, s[n..]);
      Decoded([s[..n]] + d.frames, d.rest)
  }

  /** Nothing is lost or reordered ... */
  lemma {:induction false} DecodeKeepsAll<T(!new)>(cut: seq<T> -> nat, s: seq<T>)
    requires Stable(cut)
    ensures Flatten(Decode(cut, s).frames) + Decode(cut, s).rest == s
    decreases |s|
  {
    var n := cut(s);
    if n == 0 {
      assert [] + s == s;
    } else {
      var d := Decode(cut, s[n..]);
      DecodeKeepsAll(cut, s[n..]);
      FlattenCons(s[..n], d.frames);
      ConcatAssociates(s[..n], Flatten(d.frames), d.rest);
      SplitAt(s, n);
    }
  }

  /** ... and the pieces are complete frames followed by an incomplete one. */
  lemma {:induction false} DecodePieces<T(!new)>(cut: seq<T> -> nat, s: seq<T>)
    requires Stable(cut)
    ensures cut(Decode(cut, s).rest) == 0
    ensures forall f :: f in Decode(cut, s).frames ==> cut(f) == |f| > 0
    decreases |s|
  {
    var n := cut(s);
    if n == 0 {
    } else {
      DecodePieces(cut, s[n..]);
      assert cut(s[..cut(s)]) == n;
    }
  }

  /** Decoding can be suspended anywhere: only the left-over input has to be carried to the next chunk. */
  lemma {:induction false} DecodeAppend<T(!new)>(cut: seq<T> -> nat, a: seq<T>, b: seq<T>)
    requires Stable(cut)
    ensures var first := Decode(cut, a);
            var second := Decode(cut, first.rest + b);
            Decode(cut, a + b) == Decoded(first.frames + second.frames, second.rest)
    decreases |a|
  {
    var n := cut(a);
    if n == 0 {
      var second := Decode(cut, a + b);
      assert [] + second.frames == second.frames;
    } else {
      assert cut(a + b) == n;
      assert (a + b)[..n] == a[..n] && (a + b)[n..] == a[n..] + b;
      DecodeAppend(cut, a[n..], b);
      var first := Decode(cut, a[n..]);
      var second := Decode(cut, first.rest + b);
      assert [a[..n]] + (first.frames + second.frames) == ([a[..n]] + first.frames) + second.frames;
    }
  }

  /** A list of frames written back to back is recovered exactly, whatever follows it. */
  lemma {:induction false} DecodeEncoded<T(!new)>(cut: seq<T> -> nat, frames: seq<seq<T>>, tail: seq<T>)
    requires Stable(cut)
    requires forall f :: f in frames ==> cut(f) == |f| > 0
    ensures Decode(cut, Flatten(frames) + tail)
         == Decoded(frames + Decode(cut, tail).frames, Decode(cut, tail).rest)
  {
    if frames == [] {
      assert [] + tail == tail;
      assert [] + Decode(cut, tail).frames == Decode(cut, tail).frames;
    } else {
      var head, others := frames[0], frames[1..];
      var after := Decode(cut, tail);
      assert frames == [head] + others;
      DecodeEncoded(cut, others, tail);
      DecodeHead(cut, head, Flatten(others) + tail);
      calc {
        Decode(cut, Flatten(frames) + tail);
        { ConcatAssociates(head, Flatten(others), tail); }
        Decode(cut, head + (Flatten(others) + tail));
        Decoded([head] + (others + after.frames), after.rest);
        { ConcatAssociates([head], others, after.frames); }
        Decoded(frames + after.frames, after.rest);
      }
    }
  }

  lemma DecodeHead<T(!new)>(cut: seq<T> -> nat, frame: seq<T>, more: seq<T>)
    requires Stable(cut)
    requires cut(frame) == |frame| > 0
    ensures Decode(cut, frame + more)
         == Decoded([frame] + Decode(cut, more).frames, Decode(cut, more).rest)
  {
    assert cut(frame + more) == |frame|;
    assert (frame + more)[..|frame|] == frame && (frame + more)[|frame|..] == more;
  }

  /** One more piece of input that completes at most the frame in progress. */
  lemma DecodeOne<T(!new)>(cut: seq<T> -> nat, s: seq<T>)
    requires Stable(cut)
    ensures cut(s) == 0 ==> Decode(cut, s) == Decoded([], s)
    ensures cut(s) == |s| > 0 ==> Decode(cut, s) == Decoded([s], [])
  {
    if cut(s) == |s| > 0 {
      assert s[..|s|] == s && s[|s|..] == [];
      assert cut([]) == 0;
    }
  }

  /** The number of complete frames never goes down as input arrives. */
  lemma DecodeMonotone<T(!new)>(cut: seq<T> -> nat, a: seq<T>, b: seq<T>)
    requires Stable(cut)
    ensures Decode(cut, a).frames <= Decode(cut, a + b).frames
  {
    DecodeAppend(cut, a, b);
  }
}
