/** Model of `edit_audio` in the root `audio_editor.py`: sort the unwanted
    segments by start time, then sweep a `last_end` cursor forward, keeping
    the audio between one segment's end and the next one's start. Segment
    times are whole seconds; the audio is one element per millisecond. */
module SweepEditor {
  import opened Slices
  import Sorting

  /** One entry of `unwanted_content`, times in seconds. */
  datatype Segment = Segment(startTime: int, endTime: int, description: string)

  /** The sort key `float(x['start_time'])`. */
  function StartKey(s: Segment): int { s.startTime }

  /** Seconds to milliseconds, `float(...) * 1000`. */
  function ToMs(s: Segment): Range { Range(s.startTime * 1000, s.endTime * 1000) }

  function MsRanges(segs: seq<Segment>): (rs: seq<Range>)
    ensures |rs| == |segs|
    ensures forall i :: 0 <= i < |segs| ==> rs[i] == ToMs(segs[i])
  {
    if segs == [] then [] else [ToMs(segs[0])] + MsRanges(segs[1..])
  }

  /** What the loop appends from cursor `lastEnd` on: `audio[last_end:start]`
      for each range, then `audio[last_end:]`, the cursor set to each end. */
  function Sweep<T>(audio: seq<T>, rs: seq<Range>, lastEnd: int): seq<T>
  {
    if rs == [] then Slice(audio, lastEnd, |audio|)
    else Slice(audio, lastEnd, rs[0].start) + Sweep(audio, rs[1..], rs[0].end)
  }

  /** `edit_audio` without the file I/O: `unwanted` is the caller's list,
      sorted in place; the result is what gets exported. */
  method EditAudio<T>(audio: seq<T>, unwanted: array<Segment>) returns (edited: seq<T>)
    modifies unwanted
    ensures unwanted[..] == Sorting.SortByKey(old(unwanted[..]), StartKey)
    ensures edited == Sweep(audio, MsRanges(unwanted[..]), 0)
  {
    Sorting.SortInPlace(unwanted, StartKey);
    edited := ProcessSegments(audio, unwanted);
  }

  /** The nested `process_segments`: the loop over the sorted segments that
      moves `last_end` and accumulates `edited_audio`. */
  method ProcessSegments<T>(audio: seq<T>, unwanted: array<Segment>) returns (edited: seq<T>)
    ensures edited == Sweep(audio, MsRanges(unwanted[..]), 0)
  {
    ghost var rs := MsRanges(unwanted[..]);
    edited := [];
    var lastEnd := 0;
    for i := 0 to unwanted.Length
      invariant edited + Sweep(audio, rs[i..], lastEnd) == Sweep(audio, rs, 0)
    {
      var start := unwanted[i].startTime * 1000;
      var end := unwanted[i].endTime * 1000;
      assert rs[i] == Range(start, end);
      assert rs[i..][1..] == rs[i + 1..];
      edited := edited + Slice(audio, lastEnd, start);
      lastEnd := end;
    }
    edited := edited + Slice(audio, lastEnd, |audio|);
  }

  /** With no segments the whole audio comes out unchanged. */
  lemma SweepNothing<T>(audio: seq<T>)
    ensures Sweep(audio, [], 0) == audio
  {
    assert audio[0..|audio|] == audio;
  }

  /** For sorted, disjoint, in-bounds ranges the output loses exactly the
      frames the ranges span. */
  lemma {:induction false} SweepLength<T>(audio: seq<T>, rs: seq<Range>, lastEnd: int)
    requires InBounds(rs, |audio|) && Disjoint(rs)
    requires 0 <= lastEnd <= |audio|
    requires forall k :: 0 <= k < |rs| ==> lastEnd <= rs[k].start
    ensures |Sweep(audio, rs, lastEnd)| == |audio| - lastEnd - Total(rs)
  {
    if rs != [] {
      SweepLength(audio, rs[1..], rs[0].end);
    }
  }

  /** The cursor with the clamp `last_end = max(last_end, end)` that the
      sweep needs once segments may overlap. */
  function ClampedSweep<T>(audio: seq<T>, rs: seq<Range>, lastEnd: int): seq<T>
  {
    if rs == [] then Slice(audio, lastEnd, |audio|)
    else
      var next := if rs[0].end > lastEnd then rs[0].end else lastEnd;
      Slice(audio, lastEnd, rs[0].start) + ClampedSweep(audio, rs[1..], next)
  }

  /** The clamped sweep removes exactly the covered frames for any ranges
      sorted by start and inside the audio, overlapping or nested ones too. */
  lemma ClampedSweepKeeps<T>(audio: seq<T>, rs: seq<Range>)
    requires InBounds(rs, |audio|) && SortedByStart(rs)
    ensures ClampedSweep(audio, rs, 0) == Keep(audio, rs)
  {
    ClampedSweepFrom(audio, rs, 0, 0);
  }

  lemma {:induction false} ClampedSweepFrom<T>(audio: seq<T>, all: seq<Range>, k: nat, lastEnd: nat)
    requires InBounds(all, |audio|) && SortedByStart(all)
    requires k <= |all| && lastEnd <= |audio|
    requires forall j :: 0 <= j < k ==> all[j].end <= lastEnd
    ensures ClampedSweep(audio, all[k..], lastEnd) == KeepFrom(audio, all, lastEnd)
    decreases |all| - k
  {
    var n := |audio|;
    if k == |all| {
      forall i | lastEnd <= i < n ensures !Covered(all, i) {
      }
      KeepTake(audio, all, lastEnd, n);
    } else {
      var c := all[k];
      var mid := if c.start > lastEnd then c.start else lastEnd;
      var next := if c.end > lastEnd then c.end else lastEnd;
      forall i | lastEnd <= i < mid ensures !Covered(all, i) {
        forall j | 0 <= j < |all| ensures !(all[j].start <= i < all[j].end) {
          if j >= k {
            assert all[k].start <= all[j].start;
          }
        }
      }
      KeepTake(audio, all, lastEnd, mid);
      forall i | mid <= i < next ensures Covered(all, i) {
        assert c.start <= i < c.end;
      }
      KeepSkip(audio, all, mid, next);
      ClampedSweepFrom(audio, all, k + 1, next);
      assert all[k..][1..] == all[k + 1..];
    }
  }

  /** Without overlap the clamp changes nothing. */
  lemma {:induction false} SweepIsClampedWhenDisjoint<T>(audio: seq<T>, rs: seq<Range>, lastEnd: int)
    requires InBounds(rs, |audio|) && Disjoint(rs)
    requires forall k :: 0 <= k < |rs| ==> lastEnd <= rs[k].start
    ensures Sweep(audio, rs, lastEnd) == ClampedSweep(audio, rs, lastEnd)
  {
    if rs != [] {
      SweepIsClampedWhenDisjoint(audio, rs[1..], rs[0].end);
    }
  }

  /** For sorted, disjoint, in-bounds ranges the sweep as written removes
      exactly the frames inside some range and keeps the rest in order. */
  lemma SweepKeepsWhenDisjoint<T>(audio: seq<T>, rs: seq<Range>)
    requires InBounds(rs, |audio|) && Disjoint(rs)
    ensures Sweep(audio, rs, 0) == Keep(audio, rs)
  {
    SweepIsClampedWhenDisjoint(audio, rs, 0);
    assert SortedByStart(rs) by {
      forall j, k | 0 <= j < k < |rs| ensures rs[j].start <= rs[k].start {
      }
    }
    ClampedSweepKeeps(audio, rs);
  }

  /** A segment nested in an earlier one moves the cursor back: with cuts
      [1, 6) and [2, 3) of frames 0..9, frames 3, 4 and 5, inside the first
      cut, reappear. */
  lemma NestedSegmentReappears()
    ensures Sweep([0, 1, 2, 3, 4, 5, 6, 7, 8, 9], [Range(1, 6), Range(2, 3)], 0)
            == [0, 3, 4, 5, 6, 7, 8, 9]
    ensures ClampedSweep([0, 1, 2, 3, 4, 5, 6, 7, 8, 9], [Range(1, 6), Range(2, 3)], 0)
            == [0, 6, 7, 8, 9]
  {
    var a := [0, 1, 2, 3, 4, 5, 6, 7, 8, 9];
    assert Slice(a, 0, 1) == [0];
    assert Slice(a, 6, 2) == [];
    assert Slice(a, 3, 10) == [3, 4, 5, 6, 7, 8, 9];
    assert Slice(a, 6, 10) == [6, 7, 8, 9];
  }
}
