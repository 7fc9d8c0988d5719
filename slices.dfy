/** Audio as a sequence of millisecond frames, cut with Python's slice
    semantics (pydub's `AudioSegment` indexes and slices in milliseconds),
    and the reference meaning of "remove these ranges": keep exactly the
    frames no range covers, in order. */
module Slices {

  /** A half-open range [start, end) of milliseconds. */
  datatype Range = Range(start: int, end: int)

  /** Python's normalisation of a slice bound for a sequence of length n: a
      negative bound counts from the end, then the bound is clamped to [0, n]. */
  function Bound(i: int, n: nat): (r: nat)
    ensures r <= n
    ensures 0 <= i <= n ==> r == i
  {
    if i < 0 then (if i + n < 0 then 0 else i + n) else if i > n then n else i
  }

  /** Python's `s[i]` for `-n <= i < n`. */
  function PyIndex(i: int, n: nat): (k: nat)
    requires 0 <= i + n && i < n
    ensures k < n
    ensures i >= 0 ==> k == i
    ensures i < 0 ==> k == n + i
  {
    if i < 0 then n + i else i
  }

  /** `s[a:b]`; a start at or past the end gives the empty slice. */
  function Slice<T>(s: seq<T>, a: int, b: int): seq<T>
  {
    var lo, hi := Bound(a, |s|), Bound(b, |s|);
    if lo <= hi then s[lo..hi] else []
  }

  lemma SliceInBounds<T>(s: seq<T>, a: int, b: int)
    requires 0 <= a <= b <= |s|
    ensures Slice(s, a, b) == s[a..b]
  {
  }

  lemma SliceBackwards<T>(s: seq<T>, a: int, b: int)
    requires 0 <= b <= a
    ensures Slice(s, a, b) == []
  {
  }

  /** `audio[:start] + audio[end:]`: one cut. */
  function CutOut<T>(audio: seq<T>, r: Range): seq<T>
  {
    Slice(audio, 0, r.start) + Slice(audio, r.end, |audio|)
  }

  /** Frame i lies in one of the ranges. */
  predicate Covered(rs: seq<Range>, i: int)
  {
    exists k :: 0 <= k < |rs| && rs[k].start <= i < rs[k].end
  }

  /** The frames from index i on that no range covers, in order. */
  function KeepFrom<T>(audio: seq<T>, rs: seq<Range>, i: nat): seq<T>
    requires i <= |audio|
    decreases |audio| - i
  {
    if i == |audio| then []
    else (if Covered(rs, i) then [] else [audio[i]]) + KeepFrom(audio, rs, i + 1)
  }

  /** The audio with every frame in some range removed: the reference
      against which both editors are proved. */
  function Keep<T>(audio: seq<T>, rs: seq<Range>): seq<T>
  {
    KeepFrom(audio, rs, 0)
  }

  /** Every range lies inside the audio and does not run backwards. */
  predicate InBounds(rs: seq<Range>, n: nat)
  {
    forall k :: 0 <= k < |rs| ==> 0 <= rs[k].start <= rs[k].end <= n
  }

  predicate SortedByStart(rs: seq<Range>)
  {
    forall j, k :: 0 <= j < k < |rs| ==> rs[j].start <= rs[k].start
  }

  /** Each range ends before the next one starts. */
  predicate Disjoint(rs: seq<Range>)
  {
    forall j, k :: 0 <= j < k < |rs| ==> rs[j].end <= rs[k].start
  }

  /** The number of frames the ranges span. */
  function Total(rs: seq<Range>): int
  {
    if rs == [] then 0 else (rs[0].end - rs[0].start) + Total(rs[1..])
  }

  lemma {:induction false} KeepSkip<T>(audio: seq<T>, rs: seq<Range>, a: nat, b: nat)
    requires a <= b <= |audio|
    requires forall i :: a <= i < b ==> Covered(rs, i)
    ensures KeepFrom(audio, rs, a) == KeepFrom(audio, rs, b)
    decreases b - a
  {
    if a < b {
      KeepSkip(audio, rs, a + 1, b);
    }
  }

  lemma {:induction false} KeepTake<T>(audio: seq<T>, rs: seq<Range>, a: nat, b: nat)
    requires a <= b <= |audio|
    requires forall i :: a <= i < b ==> !Covered(rs, i)
    ensures KeepFrom(audio, rs, a) == audio[a..b] + KeepFrom(audio, rs, b)
    decreases b - a
  {
    if a < b {
      KeepTake(audio, rs, a + 1, b);
      assert !Covered(rs, a);
      assert KeepFrom(audio, rs, a) == [audio[a]] + KeepFrom(audio, rs, a + 1);
      assert audio[a..b] == [audio[a]] + audio[a + 1..b];
    }
  }

  /** Keeping frames of `x + y` up to |x| only depends on `x`, when the two
      range lists cover the same indices below |x|. */
  lemma {:induction false} KeepConcat<T>(x: seq<T>, y: seq<T>, rsX: seq<Range>, rs: seq<Range>, i: nat)
    requires i <= |x|
    requires forall j :: i <= j < |x| ==> (Covered(rs, j) <==> Covered(rsX, j))
    ensures KeepFrom(x + y, rs, i) == KeepFrom(x, rsX, i) + KeepFrom(x + y, rs, |x|)
    decreases |x| - i
  {
    if i < |x| {
      KeepConcat(x, y, rsX, rs, i + 1);
      assert (x + y)[i] == x[i];
    }
  }
}
