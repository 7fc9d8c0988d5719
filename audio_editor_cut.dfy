/** Model of `backend/audio_editor.py`: `time_to_ms` reads an "h:m:s"
    string as milliseconds, and `edit_audio` sorts the unwanted segments by
    start and cuts them out last-first as `edited[:start] + edited[end:]`. The
    audio is one element per millisecond; components are whole numbers. */
module CutEditor {
  import opened Wrappers
  import opened Strings
  import opened Slices
  import Sorting
  import TimeUtils
  import SweepEditor

  /** One entry of `unwanted_content`; times are "HH:MM:SS" strings. */
  datatype Segment = Segment(startTime: string, endTime: string, description: string)

  /** `time_to_ms`: unpacking into `h, m, s` needs exactly three parts. */
  function TimeToMs(t: string): (r: Result<int>)
    ensures Count(t, ':') != 2 ==> r.Err?
  {
    var parts := Split(t, ':');
    SplitLength(t, ':');
    if |parts| < 3 then Err("not enough values to unpack (expected 3, got " + NatToString(|parts|) + ")")
    else if |parts| > 3 then Err("too many values to unpack (expected 3)")
    else
      var h :- TimeUtils.Component(parts[0], TimeUtils.IntError);
      var m :- TimeUtils.Component(parts[1], TimeUtils.IntError);
      var s :- TimeUtils.Component(parts[2], TimeUtils.FloatError);
      Ok((h * 3600 + m * 60 + s) * 1000)
  }

  /** "h:m:s" is (h*3600 + m*60 + s)*1000 milliseconds, which is a thousand
      times what `parse_duration` reads from the same string. */
  lemma TimeToMsValue(h: string, m: string, s: string)
    requires ':' !in h && ':' !in m && ':' !in s
    requires ParseInt(h).Some? && ParseInt(m).Some? && ParseInt(s).Some?
    ensures TimeToMs(h + ":" + m + ":" + s)
            == Ok((ParseInt(h).value * 3600 + ParseInt(m).value * 60 + ParseInt(s).value) * 1000)
    ensures TimeUtils.ParseDuration(TimeUtils.Text(h + ":" + m + ":" + s)).Ok?
    ensures TimeToMs(h + ":" + m + ":" + s).value
            == TimeUtils.ParseDuration(TimeUtils.Text(h + ":" + m + ":" + s)).value * 1000
  {
    SplitNoSep(s, ':');
    SplitPrefix(m, s, ':');
    SplitPrefix(h, m + ":" + s, ':');
    assert h + ":" + m + ":" + s == h + [':'] + (m + [':'] + s);
    TimeUtils.ParseThreeParts(h, m, s);
  }

  /** The sort key `time_to_ms(x['start_time'])`, where it is defined. */
  function StartKey(s: Segment): int
  {
    match TimeToMs(s.startTime)
    case Ok(v) => v
    case Err(_) => 0
  }

  predicate StartsParse(segs: seq<Segment>)
  {
    forall i :: 0 <= i < |segs| ==> TimeToMs(segs[i].startTime).Ok?
  }

  predicate EndsParse(segs: seq<Segment>)
  {
    forall i :: 0 <= i < |segs| ==> TimeToMs(segs[i].endTime).Ok?
  }

  /** The millisecond range of a segment whose times both parse. */
  function ToMs(s: Segment): Range
    requires TimeToMs(s.startTime).Ok? && TimeToMs(s.endTime).Ok?
  {
    Range(TimeToMs(s.startTime).value, TimeToMs(s.endTime).value)
  }

  function MsRanges(segs: seq<Segment>): (rs: seq<Range>)
    requires StartsParse(segs) && EndsParse(segs)
    ensures |rs| == |segs|
    ensures forall i :: 0 <= i < |segs| ==> rs[i] == ToMs(segs[i])
  {
    if segs == [] then [] else [ToMs(segs[0])] + MsRanges(segs[1..])
  }

  /** The loop `for segment in reversed(...)`: the last range is cut first. */
  function CutAll<T>(audio: seq<T>, rs: seq<Range>): seq<T>
    decreases |rs|
  {
    if rs == [] then audio
    else CutAll(CutOut(audio, rs[|rs| - 1]), rs[..|rs| - 1])
  }

  /** `edit_audio` without the file I/O. An empty list copies the audio. A
      start time that does not parse fails inside `sort`, which leaves the
      list as it was; an end time that does not parse fails inside the loop.
      Either exception is logged and re-raised, so nothing is exported. */
  method EditAudio<T>(audio: seq<T>, unwanted: array<Segment>) returns (r: Result<seq<T>>)
    modifies unwanted
    ensures unwanted.Length == 0 ==> r == Ok(audio)
    ensures !StartsParse(old(unwanted[..])) ==> r.Err? && unwanted[..] == old(unwanted[..])
    ensures StartsParse(old(unwanted[..])) ==>
              unwanted[..] == Sorting.SortByKey(old(unwanted[..]), StartKey)
    ensures StartsParse(old(unwanted[..])) && !EndsParse(old(unwanted[..])) ==> r.Err?
    ensures StartsParse(unwanted[..]) ==> r == CutSegments(audio, unwanted[..])
    ensures StartsParse(unwanted[..]) && EndsParse(unwanted[..]) ==>
              r == Ok(CutAll(audio, MsRanges(unwanted[..])))
  {
    if unwanted.Length == 0 {
      return Ok(audio);
    }
    var i := 0;
    while i < unwanted.Length
      invariant 0 <= i <= unwanted.Length
      invariant forall j :: 0 <= j < i ==> TimeToMs(unwanted[j].startTime).Ok?
    {
      var key := TimeToMs(unwanted[i].startTime);
      if key.Err? {
        assert unwanted[..][i] == unwanted[i];
        assert !StartsParse(unwanted[..]);
        return Err(key.msg);
      }
      i := i + 1;
    }
    ghost var before := unwanted[..];
    assert StartsParse(before);
    Sorting.SortInPlace(unwanted, StartKey);
    SortedKeepsParsing(before, unwanted[..]);
    CutSegmentsMeaning(audio, unwanted[..]);
    r := CutReversed(audio, unwanted);
  }

  /** The segments after sorting are the same segments, so their start and
      end times still parse exactly when they did before. */
  lemma SortedKeepsParsing(before: seq<Segment>, after: seq<Segment>)
    requires multiset(after) == multiset(before)
    ensures StartsParse(after) <==> StartsParse(before)
    ensures EndsParse(after) <==> EndsParse(before)
  {
    forall i | 0 <= i < |after| ensures after[i] in before {
      assert after[i] in multiset(after);
    }
    forall i | 0 <= i < |before| ensures before[i] in after {
      assert before[i] in multiset(before);
    }
  }

  /** What the loop `for segment in reversed(...)` leaves: segments are
      taken last-first, and the first end time that does not parse stops it. */
  function CutSegments<T>(audio: seq<T>, segs: seq<Segment>): Result<seq<T>>
    requires StartsParse(segs)
    decreases |segs|
  {
    if segs == [] then Ok(audio)
    else
      var seg := segs[|segs| - 1];
      var end :- TimeToMs(seg.endTime);
      CutSegments(CutOut(audio, Range(TimeToMs(seg.startTime).value, end)), segs[..|segs| - 1])
  }

  /** The loop fails exactly when some end time does not parse, and otherwise
      applies the millisecond cuts last-first. */
  lemma {:induction false} CutSegmentsMeaning<T>(audio: seq<T>, segs: seq<Segment>)
    requires StartsParse(segs)
    ensures CutSegments(audio, segs).Err? <==> !EndsParse(segs)
    ensures EndsParse(segs) ==> CutSegments(audio, segs) == Ok(CutAll(audio, MsRanges(segs)))
    decreases |segs|
  {
    if segs != [] {
      var n := |segs| - 1;
      var seg := segs[n];
      var init := segs[..n];
      assert StartsParse(init);
      var e := TimeToMs(seg.endTime);
      if e.Err? {
        assert CutSegments(audio, segs) == Err(e.msg);
      } else {
        var cut := CutOut(audio, Range(TimeToMs(seg.startTime).value, e.value));
        assert CutSegments(audio, segs) == CutSegments(cut, init);
        CutSegmentsMeaning(cut, init);
        EndsParseSnoc(segs);
        if EndsParse(segs) {
          var rs := MsRanges(segs);
          assert rs[..n] == MsRanges(init);
          assert rs[n] == Range(TimeToMs(seg.startTime).value, e.value);
          assert CutAll(audio, rs) == CutAll(cut, rs[..n]);
        }
      }
    }
  }

  lemma EndsParseSnoc(segs: seq<Segment>)
    requires |segs| > 0
    ensures EndsParse(segs) <==>
              EndsParse(segs[..|segs| - 1]) && TimeToMs(segs[|segs| - 1].endTime).Ok?
  {
    var init := segs[..|segs| - 1];
    if EndsParse(init) && TimeToMs(segs[|segs| - 1].endTime).Ok? {
      forall j | 0 <= j < |segs| ensures TimeToMs(segs[j].endTime).Ok? {
        if j < |init| {
          assert segs[j] == init[j];
        }
      }
    }
  }

  /** The reversed cutting loop over segments whose start times parse. */
  method CutReversed<T>(audio: seq<T>, unwanted: array<Segment>) returns (r: Result<seq<T>>)
    requires StartsParse(unwanted[..])
    ensures r == CutSegments(audio, unwanted[..])
  {
    ghost var segs := unwanted[..];
    var edited := audio;
    var i := unwanted.Length;
    assert segs[..i] == segs;
    while i > 0
      invariant 0 <= i <= unwanted.Length
      invariant StartsParse(segs[..i])
      invariant CutSegments(edited, segs[..i]) == CutSegments(audio, segs)
    {
      var segment := unwanted[i - 1];
      CutSegmentsStep(edited, segs, i);
      var startTime := TimeToMs(segment.startTime);
      var endTime := TimeToMs(segment.endTime);
      if endTime.Err? {
        return Err(endTime.msg);
      }
      edited := Slice(edited, 0, startTime.value) + Slice(edited, endTime.value, |edited|);
      i := i - 1;
    }
    assert segs[..i] == [];
    r := Ok(edited);
  }

  /** One pass of the reversed loop: the i-th segment from the front is cut
      first, or its end time's failure is the result. */
  lemma CutSegmentsStep<T>(audio: seq<T>, segs: seq<Segment>, i: nat)
    requires 0 < i <= |segs| && StartsParse(segs[..i])
    ensures StartsParse(segs[..i - 1])
    ensures CutSegments(audio, segs[..i]) ==
              if TimeToMs(segs[i - 1].endTime).Err? then Err(TimeToMs(segs[i - 1].endTime).msg)
              else CutSegments(CutOut(audio, Range(TimeToMs(segs[i - 1].startTime).value,
                                                   TimeToMs(segs[i - 1].endTime).value)), segs[..i - 1])
  {
    assert segs[..i][..i - 1] == segs[..i - 1];
    assert segs[..i][i - 1] == segs[i - 1];
  }

  /** With no segments the audio is unchanged. */
  lemma CutNothing<T>(audio: seq<T>)
    ensures CutAll(audio, []) == audio
  {
  }

  /** A segment that ends before it starts duplicates [end, start) instead of
      removing anything. */
  lemma BackwardsCutDuplicates<T>(audio: seq<T>, r: Range)
    requires 0 <= r.end < r.start <= |audio|
    ensures CutOut(audio, r) == audio[..r.start] + audio[r.end..]
    ensures |CutOut(audio, r)| == |audio| + (r.start - r.end)
  {
  }

  /** For sorted, disjoint, in-bounds ranges the cuts leave exactly the
      frames outside every range, in order. */
  lemma {:induction false} CutAllKeeps<T>(audio: seq<T>, rs: seq<Range>)
    requires InBounds(rs, |audio|) && Disjoint(rs)
    ensures CutAll(audio, rs) == Keep(audio, rs)
    decreases |rs|
  {
    if rs == [] {
      forall i | 0 <= i < |audio| ensures !Covered(rs, i) {
      }
      KeepTake(audio, rs, 0, |audio|);
    } else {
      var init := rs[..|rs| - 1];
      var s, e := rs[|rs| - 1].start, rs[|rs| - 1].end;
      var x, y := audio[..s], audio[e..];
      var cut := CutOut(audio, rs[|rs| - 1]);
      assert cut == x + y;
      forall k | 0 <= k < |init| ensures 0 <= init[k].start <= init[k].end <= s {
        assert init[k] == rs[k];
      }
      CutAllKeeps(cut, init);
      KeepBelow(x, y, init);
      KeepLast(audio, rs);
    }
  }

  /** Ranges that all end inside `x` keep every frame of `y`. */
  lemma KeepBelow<T>(x: seq<T>, y: seq<T>, rs: seq<Range>)
    requires InBounds(rs, |x|)
    ensures Keep(x + y, rs) == Keep(x, rs) + y
  {
    KeepConcat(x, y, rs, rs, 0);
    forall i | |x| <= i < |x + y| ensures !Covered(rs, i) {
    }
    KeepTake(x + y, rs, |x|, |x + y|);
    assert (x + y)[|x|..|x + y|] == y;
  }

  /** Keeping frames outside sorted, disjoint ranges: below the last range
      only the others matter, the last range is dropped, and the frames past
      it are all kept. */
  lemma KeepLast<T>(audio: seq<T>, rs: seq<Range>)
    requires InBounds(rs, |audio|) && Disjoint(rs) && rs != []
    ensures Keep(audio, rs)
            == Keep(audio[..rs[|rs| - 1].start], rs[..|rs| - 1]) + audio[rs[|rs| - 1].end..]
  {
    var init := rs[..|rs| - 1];
    var s, e := rs[|rs| - 1].start, rs[|rs| - 1].end;
    var x := audio[..s];
    assert audio == x + audio[s..];
    CoveredBelowLast(rs);
    KeepConcat(x, audio[s..], init, rs, 0);
    CoveredByLast(rs);
    KeepSkip(audio, rs, s, e);
    CoveredPastLast(rs);
    KeepTake(audio, rs, e, |audio|);
    assert KeepFrom(audio, rs, |audio|) == [];
  }

  /** Below the last range's start only the other ranges cover frames. */
  lemma CoveredBelowLast(rs: seq<Range>)
    requires rs != []
    ensures forall i :: 0 <= i < rs[|rs| - 1].start ==> (Covered(rs, i) <==> Covered(rs[..|rs| - 1], i))
  {
    var init := rs[..|rs| - 1];
    forall i | 0 <= i < rs[|rs| - 1].start ensures Covered(rs, i) <==> Covered(init, i) {
      if Covered(rs, i) {
        var k :| 0 <= k < |rs| && rs[k].start <= i < rs[k].end;
        assert init[k] == rs[k];
      }
      if Covered(init, i) {
        var k :| 0 <= k < |init| && init[k].start <= i < init[k].end;
        assert rs[k] == init[k];
      }
    }
  }

  lemma CoveredByLast(rs: seq<Range>)
    requires rs != []
    ensures forall i :: rs[|rs| - 1].start <= i < rs[|rs| - 1].end ==> Covered(rs, i)
  {
    forall i | rs[|rs| - 1].start <= i < rs[|rs| - 1].end ensures Covered(rs, i) {
      assert rs[|rs| - 1].start <= i < rs[|rs| - 1].end;
    }
  }

  /** Past the last of sorted, disjoint ranges no frame is covered. */
  lemma CoveredPastLast(rs: seq<Range>)
    requires rs != [] && Disjoint(rs)
    requires forall k :: 0 <= k < |rs| ==> rs[k].start <= rs[k].end
    ensures forall i :: rs[|rs| - 1].end <= i ==> !Covered(rs, i)
  {
    forall i | rs[|rs| - 1].end <= i ensures !Covered(rs, i) {
      forall k | 0 <= k < |rs| ensures !(rs[k].start <= i < rs[k].end) {
        if k < |rs| - 1 {
          assert rs[k].end <= rs[|rs| - 1].start;
        }
      }
    }
  }

  /** For sorted, disjoint, in-bounds ranges the backend's last-first cuts
      and the root editor's forward sweep export the same audio. */
  lemma CutAllIsSweep<T>(audio: seq<T>, rs: seq<Range>)
    requires InBounds(rs, |audio|) && Disjoint(rs)
    ensures CutAll(audio, rs) == SweepEditor.Sweep(audio, rs, 0)
  {
    CutAllKeeps(audio, rs);
    SweepEditor.SweepKeepsWhenDisjoint(audio, rs);
  }

  /** For sorted, disjoint, in-bounds ranges the output loses exactly the
      frames the ranges span. */
  lemma CutAllLength<T>(audio: seq<T>, rs: seq<Range>)
    requires InBounds(rs, |audio|) && Disjoint(rs)
    ensures |CutAll(audio, rs)| == |audio| - Total(rs)
  {
    CutAllIsSweep(audio, rs);
    SweepEditor.SweepLength(audio, rs, 0);
  }
}
