/** The workflow bar of src/components/WorkflowView.tsx: the fixed list of
    five steps, the index of the current script's step in it, and which
    steps show as active or completed.  Nothing is shown without a current
    script. */
module WorkflowView {
  import opened Wrappers
  import opened Types
  import opened ScriptContext

  /** The steps in display order; `clues` and `refinement` are not among
      them. */
  const Steps: seq<WorkflowStep> := [Outline, Characters, Relationships, Scenes, Draft]

  const Labels: seq<string> := ["大纲", "人物设定", "角色关系", "分幕", "初稿"]

  /** `findIndex`: the first position holding `step`, or -1. */
  function IndexIn(steps: seq<WorkflowStep>, step: WorkflowStep): (r: int)
    ensures -1 <= r < |steps|
    ensures r >= 0 ==> steps[r] == step && forall j :: 0 <= j < r ==> steps[j] != step
    ensures r == -1 <==> step !in steps
  {
    if steps == [] then -1
    else if steps[0] == step then 0
    else
      var rest := IndexIn(steps[1..], step);
      assert step in steps[1..] ==> step in steps;
      assert step in steps ==> step in steps[1..];
      if rest == -1 then -1 else rest + 1
  }

  /** `currentStepIndex`. */
  function StepIndex(current: WorkflowStep): int {
    IndexIn(Steps, current)
  }

  predicate IsActive(current: WorkflowStep, k: int) {
    StepIndex(current) == k
  }

  predicate IsCompleted(current: WorkflowStep, k: int) {
    StepIndex(current) > k
  }

  /** `steps[currentStepIndex].label`, which throws for a step outside the
      list. */
  function CurrentLabel(current: WorkflowStep): (r: Option<string>)
    ensures r.Some? <==> current in Steps
    ensures r.Some? ==> exists k :: 0 <= k < |Steps| && Steps[k] == current && r.value == Labels[k]
  {
    var i := StepIndex(current);
    if i >= 0 then Some(Labels[i]) else None
  }

  /** The step shown at position `k` is active exactly when it is the
      current step: no two positions hold the same step. */
  lemma ActiveIff(current: WorkflowStep, k: int)
    requires 0 <= k < |Steps|
    ensures IsActive(current, k) <==> Steps[k] == current
  {
    var i := StepIndex(current);
    if Steps[k] == current {
      assert current in Steps;
      assert Steps[i] == current;
    }
  }

  /** Completed steps are exactly the ones before the current one, so they
      form a prefix of the bar and the active step is not among them. */
  lemma CompletedPrefix(current: WorkflowStep, j: int, k: int)
    requires 0 <= j <= k < |Steps|
    ensures IsCompleted(current, k) ==> IsCompleted(current, j)
    ensures IsCompleted(current, k) <==> current in Steps && k < StepIndex(current)
    ensures !(IsCompleted(current, k) && IsActive(current, k))
  {
  }

  /** A current step outside the bar (`clues`, `refinement`) makes nothing
      active or completed and leaves no label to show. */
  lemma OffBarIdle(current: WorkflowStep)
    requires current == Clues || current == Refinement
    ensures forall k :: 0 <= k < |Steps| ==> !IsActive(current, k) && !IsCompleted(current, k)
    ensures CurrentLabel(current) == None
  {
    assert current !in Steps;
  }

  /** Clicking the button of position `k` makes that step current, whatever
      the step was before; afterwards exactly that position is active. */
  method ClickStep(store: ScriptStore, k: nat, now: int)
    requires k < |Steps|
    modifies store
    ensures store.currentId == old(store.currentId)
    ensures old(store.Current()).None? ==> store.scripts == old(store.scripts)
    ensures old(store.Current()).Some? ==>
              store.scripts == ReplaceScript(old(store.scripts), old(store.Current()).value.(currentStep := Steps[k]), now)
    ensures old(store.Current()).Some? ==>
              store.Current() == Some(old(store.Current()).value.(currentStep := Steps[k], updatedAt := now))
    ensures old(store.Current()).Some? ==>
              forall j :: 0 <= j < |Steps| ==> (IsActive(store.Current().value.currentStep, j) <==> j == k)
  {
    store.SetWorkflowStep(Steps[k], now);
    forall j | 0 <= j < |Steps| ensures IsActive(Steps[k], j) <==> j == k {
      ActiveIff(Steps[k], j);
    }
  }
}
