/** How the orchestrator cuts the token stream into segments, stated as a
    function of the whole stream, with the facts the streaming loop relies
    on. */
module Segmentation {

  function Flatten(segs: seq<seq<nat>>): seq<nat> {
    if segs == [] then [] else segs[0] + Flatten(segs[1..])
  }

  /** The segments dispatched for stream `t` with segment size `s`: full
      segments of `s` tokens, then the non-empty remainder if there is one.
      With `s == 0` (a size the command line accepts) every push dispatches an
      empty segment, nothing is ever removed from the buffer, and the whole
      stream is dispatched at the end. */
  function Segments(t: seq<nat>, s: nat): seq<seq<nat>>
    decreases |t|
  {
    if s == 0 then seq(|t|, _ => []) + (if t == [] then [] else [t])
    else if |t| <= s then (if t == [] then [] else [t])
    else [t[..s]] + Segments(t[s..], s)
  }

  predicate AllOfSize(segs: seq<seq<nat>>, s: nat) {
    forall k :: 0 <= k < |segs| ==> |segs[k]| == s
  }

  // ---------------------------------------------------------------------

  lemma {:induction false} FlattenAppend(a: seq<seq<nat>>, b: seq<seq<nat>>)
    ensures Flatten(a + b) == Flatten(a) + Flatten(b)
  {
    if a == [] {
      assert a + b == b;
    } else {
      FlattenAppend(a[1..], b);
      assert (a + b)[0] == a[0] && (a + b)[1..] == a[1..] + b;
    }
  }

  lemma {:induction false} FlattenEmpties(segs: seq<seq<nat>>)
    requires AllOfSize(segs, 0)
    ensures Flatten(segs) == []
  {
    if segs != [] {
      FlattenEmpties(segs[1..]);
    }
  }


  /** The segments partition the stream: concatenated in order they give it
      back, with no token dropped or duplicated. */
  lemma {:induction false} SegmentsCover(t: seq<nat>, s: nat)
    ensures Flatten(Segments(t, s)) == t
    decreases |t|
  {
    if s == 0 {
      var empties: seq<seq<nat>> := seq(|t|, _ => []);
      FlattenEmpties(empties);
      FlattenAppend(empties, if t == [] then [] else [t]);
      if t != [] {
        assert Flatten([t]) == t + Flatten([]);
      }
    } else if |t| <= s {
      if t != [] {
        assert Flatten([t]) == t + Flatten([]);
      }
    } else {
      SegmentsCover(t[s..], s);
      assert t == t[..s] + t[s..];
    }
  }

  /** With a positive size, every segment is non-empty and at most `s` long,
      and all but the last hold exactly `s` tokens. */
  lemma {:induction false} SegmentsShape(t: seq<nat>, s: nat)
    requires s > 0
    ensures forall k :: 0 <= k < |Segments(t, s)| ==> 0 < |Segments(t, s)[k]| <= s
    ensures forall k :: 0 <= k < |Segments(t, s)| - 1 ==> |Segments(t, s)[k]| == s
    decreases |t|
  {
    if |t| > s {
      SegmentsShape(t[s..], s);
    }
  }

  /** The number of segments is the least `m` with `m * s >= |t|`, and the
      last segment holds what is left after the `m - 1` full ones. */
  lemma {:induction false} SegmentsLast(t: seq<nat>, s: nat)
    requires s > 0 && t != []
    ensures (|Segments(t, s)| - 1) * s < |t| <= |Segments(t, s)| * s
    ensures |Segments(t, s)[|Segments(t, s)| - 1]| == |t| - (|Segments(t, s)| - 1) * s
    decreases |t|
  {
    if |t| > s {
      var m := |Segments(t[s..], s)|;
      SegmentsLast(t[s..], s);
      assert |Segments(t, s)| == m + 1;
      assert (m + 1) * s == m * s + s;
      assert m * s == (m - 1) * s + s;
    }
  }

  /** What the streaming loop leaves behind determines the dispatched
      segments: full segments `done` so far, then a buffer shorter than `s`
      (with `s == 0`, one empty segment per token pushed and a buffer holding
      everything) add up to `Segments` of the whole stream once the buffer is
      flushed when non-empty. */
  lemma {:induction false} StreamingYieldsSegments(done: seq<seq<nat>>, buffer: seq<nat>, s: nat)
    requires AllOfSize(done, s)
    requires s > 0 ==> |buffer| < s
    requires s == 0 ==> |done| == |buffer|
    ensures Segments(Flatten(done) + buffer, s) == done + (if buffer == [] then [] else [buffer])
    decreases |done|
  {
    if s == 0 {
      FlattenEmpties(done);
      assert Flatten(done) + buffer == buffer;
      assert done == seq(|buffer|, _ => []);
    } else if done == [] {
      assert Flatten(done) + buffer == buffer;
    } else {
      var rest := Flatten(done[1..]) + buffer;
      StreamingYieldsSegments(done[1..], buffer, s);
      assert Flatten(done) + buffer == done[0] + rest;
      if rest == [] {
        assert done[1..] == [];
        assert (done[0] + rest)[..s] == done[0];
      } else {
        assert (done[0] + rest)[..s] == done[0];
        assert (done[0] + rest)[s..] == rest;
        assert [done[0]] + done[1..] == done;
      }
    }
  }
}
