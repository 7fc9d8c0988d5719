/** Model of `getStageStatus` in the frontend's `ProcessingStatus.tsx`: each
    of the eight pipeline stages shown for a job is 'completed',
    'in_progress' or 'pending' according to where it sits relative to the
    job's `current_stage` in the fixed stage list. The rendering is not
    modelled. */
module StageStatus {

  /** `STAGES`, in pipeline order. */
  const Stages: seq<string> := [
    "INITIALIZATION", "FETCH_EPISODES", "DOWNLOAD", "TRANSCRIPTION",
    "CONTENT_DETECTION", "AUDIO_EDITING", "RSS_MODIFICATION", "COMPLETION"]

  datatype Status = Completed | InProgress | Pending

  /** `STAGES.indexOf(stage)`: the first position holding `stage`, or -1. */
  function IndexOf(xs: seq<string>, x: string): (r: int)
    ensures -1 <= r < |xs|
    ensures r == -1 <==> x !in xs
    ensures r >= 0 ==> xs[r] == x && forall j :: 0 <= j < r ==> xs[j] != x
  {
    if xs == [] then -1
    else if xs[0] == x then 0
    else
      var r := IndexOf(xs[1..], x);
      assert forall j :: 1 <= j < |xs| ==> xs[j] == xs[1..][j - 1];
      if r == -1 then -1 else r + 1
  }

  /** `getStageStatus(stage)` while the job is at `current`. */
  function GetStageStatus(current: string, stage: string): (r: Status)
    ensures r == InProgress <==> stage in Stages && stage == current
    ensures r == Completed <==> exists i, j :: 0 <= i < j < |Stages| && Stages[i] == stage && Stages[j] == current
  {
    StagesDistinct();
    var currentIndex := IndexOf(Stages, current);
    var stageIndex := IndexOf(Stages, stage);
    if currentIndex == -1 || stageIndex == -1 then Pending
    else if stageIndex < currentIndex then Completed
    else if stageIndex == currentIndex then InProgress
    else Pending
  }

  /** The statuses shown, one per stage in order. */
  function Shown(current: string): (r: seq<Status>)
    ensures |r| == |Stages|
    ensures forall i :: 0 <= i < |Stages| ==> r[i] == GetStageStatus(current, Stages[i])
  {
    seq(|Stages|, i requires 0 <= i < |Stages| => GetStageStatus(current, Stages[i]))
  }

  /** The stage names are distinct, so a stage's position is its index. */
  lemma StagesDistinct()
    ensures forall i, j :: 0 <= i < j < |Stages| ==> Stages[i] != Stages[j]
  {
  }

  lemma IndexOfStage(i: nat)
    requires i < |Stages|
    ensures IndexOf(Stages, Stages[i]) == i
  {
    StagesDistinct();
  }

  /** A current stage outside the list (the backend's CLEANUP, ERROR or
      FAILED among them) shows every stage as pending. */
  lemma UnknownStageAllPending(current: string)
    requires current !in Stages
    ensures forall i :: 0 <= i < |Stages| ==> Shown(current)[i] == Pending
  {
  }

  /** With the job at the k-th stage, earlier stages are completed, the
      k-th is in progress and later ones are pending. */
  lemma Classification(k: nat, i: nat)
    requires k < |Stages| && i < |Stages|
    ensures GetStageStatus(Stages[k], Stages[i]) == if i < k then Completed else if i == k then InProgress else Pending
  {
    IndexOfStage(k);
    IndexOfStage(i);
  }

  /** With the job at a known stage, exactly one stage is in progress, and
      the completed stages are exactly the first `IndexOf(current)`. */
  lemma KnownStageShape(current: string)
    requires current in Stages
    ensures var k := IndexOf(Stages, current);
            && (forall i :: 0 <= i < |Stages| ==> (Shown(current)[i] == InProgress <==> i == k))
            && (forall i :: 0 <= i < |Stages| ==> (Shown(current)[i] == Completed <==> i < k))
  {
    var k := IndexOf(Stages, current);
    forall i | 0 <= i < |Stages|
      ensures GetStageStatus(current, Stages[i]) == if i < k then Completed else if i == k then InProgress else Pending
    {
      Classification(k, i);
    }
  }

  /** A stage name outside the list is never anything but pending. */
  lemma UnknownStageIsPending(current: string, stage: string)
    requires stage !in Stages
    ensures GetStageStatus(current, stage) == Pending
  {
  }
}
