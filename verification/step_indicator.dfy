/** The progress bar above every screen: four steps in a fixed order, each active,
    completed or pending relative to the current step (`Frontend/src/components/StepIndicator.jsx`). */
module StepIndicator {
  import opened AppState

  /** The step ids in display order. */
  const StepIds: seq<string> := ["select", "upload", "configure", "results"]

  /** `steps.findIndex(s => s.id === step)`: the first position holding `step`, or -1. */
  function FindIndex(ids: seq<string>, step: string): (k: int)
    ensures -1 <= k < |ids|
    ensures k == -1 <==> step !in ids
    ensures k >= 0 ==> ids[k] == step && step !in ids[..k]
  {
    if ids == [] then -1
    else if ids[0] == step then 0
    else
      var k := FindIndex(ids[1..], step);
      if k == -1 then -1
      else
        assert ids[..k + 1] == [ids[0]] + ids[1..][..k];
        k + 1
  }

  /** The index of the current step. */
  function CurrentIndex(step: string): int
  {
    FindIndex(StepIds, step)
  }

  /** The step at `index` is drawn blue: its id is the current step. */
  predicate IsActive(step: string, index: nat)
    requires index < |StepIds|
  {
    step == StepIds[index]
  }

  /** The step at `index` is drawn green: it lies before the current step. */
  predicate IsCompleted(step: string, index: nat)
  {
    index < CurrentIndex(step)
  }

  /** The connector after the step at `index` (every step but the last has one) is green
      iff that step is completed. */
  predicate ConnectorGreen(step: string, index: nat)
    requires index < |StepIds| - 1
  {
    IsCompleted(step, index)
  }

  /** `getUploadStepName`: the second step's label for the chosen content type. */
  function UploadStepName(contentType: ContentType): (name: string)
    ensures contentType == Pdf ==> name == "Upload PDF"
    ensures contentType == YouTube ==> name == "Enter URL"
    ensures contentType != Pdf && contentType != YouTube ==> name == "Input"
  {
    match contentType
    case Pdf => "Upload PDF"
    case YouTube => "Enter URL"
    case _ => "Input"
  }

  /** The labels of the four steps. */
  function StepNames(contentType: ContentType): (names: seq<string>)
    ensures |names| == |StepIds|
    ensures names[1] == UploadStepName(contentType)
  {
    ["Select Type", UploadStepName(contentType), "Configure", "Results"]
  }

  /** The display position of a wizard step. */
  function Position(st: Step): (k: nat)
    ensures k < |StepIds| && StepIds[k] == st.Id()
  {
    match st
    case Select => 0
    case Upload => 1
    case Configure => 2
    case Results => 3
  }

  /** The four ids are distinct, so the display order is the order of the wizard. */
  lemma StepIdsDistinct()
    ensures forall i, j :: 0 <= i < j < |StepIds| ==> StepIds[i] != StepIds[j]
  {
  }

  /** For every wizard step exactly one step is active, the one at its position, and the
      steps before it, and only those, are completed. */
  lemma ExactlyOneActive(st: Step)
    ensures CurrentIndex(st.Id()) == Position(st)
    ensures forall i: nat :: i < |StepIds| ==> (IsActive(st.Id(), i) <==> i == Position(st))
    ensures forall i: nat :: i < |StepIds| ==> (IsCompleted(st.Id(), i) <==> i < Position(st))
    ensures forall i: nat :: i < |StepIds| ==> !(IsActive(st.Id(), i) && IsCompleted(st.Id(), i))
  {
    StepIdsDistinct();
  }

  /** A step value outside the four ids gives index -1: no step is active or completed and
      every connector is grey. */
  lemma UnknownStepShowsNothing(step: string)
    requires step !in StepIds
    ensures CurrentIndex(step) == -1
    ensures forall i: nat :: i < |StepIds| ==> !IsActive(step, i) && !IsCompleted(step, i)
  {
  }

  /** The connector after a step turns green once the wizard has moved past that step. */
  lemma ConnectorsGreenBehind(st: Step, i: nat)
    requires i < |StepIds| - 1
    ensures ConnectorGreen(st.Id(), i) <==> i < Position(st)
  {
    ExactlyOneActive(st);
  }
}
