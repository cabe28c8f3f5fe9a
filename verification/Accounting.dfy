/** What the results of a run account for: their order, the steps without one, and the overall status. */
module Accounting {
  import opened Contracts
  import opened Gateway
  import opened Master
  import opened Resumption
  import opened Verification
  import opened Confirmation

  /** `at` places every result at its own plan step, in plan order. */
  ghost predicate Placed(steps: seq<PlanStep>, results: seq<StepResult>, at: seq<nat>) {
    && |at| == |results|
    && (forall i | 0 <= i < |at| ::
        at[i] < |steps| && results[i].stepId == steps[at[i]].stepId && results[i].tool == steps[at[i]].tool)
    && (forall i, j | 0 <= i < j < |at| :: at[i] < at[j])
  }

  lemma AppendStep<W>(env: Env<W>, ctx: Context, steps: seq<PlanStep>, p: Progress<W>, k: nat)
    requires k < |steps|
    ensures var before := Run(env, ctx, steps[..k], p);
            Run(env, ctx, steps[..k + 1], p) == if before.stopped then before else RunStep(env, ctx, steps[k], before)
  {
    assert steps[..k + 1] == steps[..k] + [steps[k]];
    RunSplit(env, ctx, steps[..k], [steps[k]], p);
  }

  /** Running a step adds at most one result, its own. */
  lemma AddsOwnResult<W>(env: Env<W>, ctx: Context, step: PlanStep, p: Progress<W>)
    ensures var next := RunStep(env, ctx, step, p).results;
            next == p.results || (next == p.results + [next[|p.results|]] && next[|p.results|].stepId == step.stepId
                && next[|p.results|].tool == step.tool)
  {
  }

  lemma PlacedOn(steps: seq<PlanStep>, results: seq<StepResult>, at: seq<nat>, k: nat, result: StepResult)
    requires Placed(steps, results, at) && k < |steps| && forall i | 0 <= i < |at| :: at[i] < k
    requires result.stepId == steps[k].stepId && result.tool == steps[k].tool
    ensures Placed(steps, results + [result], at + [k])
  {
  }

  /** Results come in plan order, at most one for each step. */
  lemma {:induction false} ResultsInPlanOrder<W>(env: Env<W>, ctx: Context, steps: seq<PlanStep>, p: Progress<W>,
      k: nat) returns (at: seq<nat>)
    requires k <= |steps| && p.results == []
    ensures Placed(steps, Run(env, ctx, steps[..k], p).results, at)
    ensures forall i | 0 <= i < |at| :: at[i] < k
    decreases k
  {
    if k == 0 {
      at := [];
    } else {
      at := ResultsInPlanOrder(env, ctx, steps, p, k - 1);
      AppendStep(env, ctx, steps, p, k - 1);
      var before := Run(env, ctx, steps[..k - 1], p);
      AddsOwnResult(env, ctx, steps[k - 1], before);
      var after := Run(env, ctx, steps[..k], p).results;
      if |after| > |before.results| {
        PlacedOn(steps, before.results, at, k - 1, after[|before.results|]);
        at := at + [k - 1];
      }
    }
  }

  ghost predicate FailedResult(results: seq<StepResult>, stepId: string) {
    exists i | 0 <= i < |results| :: results[i].stepId == stepId && !results[i].Ok()
  }

  /** A chain of earlier dependencies leads from the step to one that failed. */
  ghost predicate Broken(steps: seq<PlanStep>, results: seq<StepResult>, k: nat)
    requires k < |steps|
    decreases k, 0
  {
    exists j | 0 <= j < k && steps[j].stepId in steps[k].dependsOn :: Lost(steps, results, j)
  }

  ghost predicate Lost(steps: seq<PlanStep>, results: seq<StepResult>, j: nat)
    requires j < |steps|
    decreases j, 1
  {
    FailedResult(results, steps[j].stepId) || (!HasResult(results, steps[j].stepId) && Broken(steps, results, j))
  }

  ghost predicate AskedBefore(steps: seq<PlanStep>, results: seq<StepResult>, k: nat)
    requires k < |steps|
  {
    exists i, j | 0 <= i < |results| && 0 <= j < k ::
        results[i].stepId == steps[j].stepId && results[i].status.ApprovalRequired?
  }

  lemma OneResultEach(steps: seq<PlanStep>, results: seq<StepResult>, at: seq<nat>, i: nat, j: nat)
    requires UniqueSteps(steps) && Placed(steps, results, at)
    requires i < |results| && j < |results| && results[i].stepId == results[j].stepId
    ensures i == j
  {
    assert steps[at[i]].stepId == steps[at[j]].stepId;
    assert at[i] == at[j];
  }

  /** Of the first `n` steps, the failed set holds exactly the lost ones. */
  ghost predicate LostSoFar(steps: seq<PlanStep>, failed: set<string>, results: seq<StepResult>, n: nat)
    requires n <= |steps|
  {
    forall j | 0 <= j < n :: steps[j].stepId in failed <==> Lost(steps, results, j)
  }

  /** While the run has not stopped, the failed set holds exactly the lost steps. */
  lemma {:induction false} FailedAreLost<W>(env: Env<W>, ctx: Context, steps: seq<PlanStep>, p: Progress<W>, k: nat)
    requires k <= |steps| && UniqueSteps(steps) && p.results == [] && p.failed == {}
    requires !Run(env, ctx, steps[..k], p).stopped
    ensures LostSoFar(steps, Run(env, ctx, steps[..k], p).failed, Run(env, ctx, steps, p).results, k)
    decreases k
  {
    if k > 0 {
      var before, results := Run(env, ctx, steps[..k - 1], p), Run(env, ctx, steps, p).results;
      AppendStep(env, ctx, steps, p, k - 1);
      FailedAreLost(env, ctx, steps, p, k - 1);
      BlockedAreBroken(env, ctx, steps, p, k - 1);
      LastStepLost(env, ctx, steps, p, k - 1);
      OtherStepsStay(env, ctx, steps, before, results, k - 1);
    }
  }

  lemma StillLostSoFar(steps: seq<PlanStep>, failed: set<string>, more: set<string>, results: seq<StepResult>, k: nat)
    requires k < |steps| && UniqueSteps(steps) && LostSoFar(steps, failed, results, k)
    requires failed <= more <= failed + {steps[k].stepId} && (steps[k].stepId in more <==> Lost(steps, results, k))
    ensures LostSoFar(steps, more, results, k + 1)
  {
  }

  /** Running a step decides about no other step. */
  lemma OtherStepsStay<W>(env: Env<W>, ctx: Context, steps: seq<PlanStep>, before: Progress<W>,
      results: seq<StepResult>, k: nat)
    requires k < |steps| && UniqueSteps(steps)
    requires LostSoFar(steps, before.failed, results, k)
    requires steps[k].stepId in RunStep(env, ctx, steps[k], before).failed <==> Lost(steps, results, k)
    ensures LostSoFar(steps, RunStep(env, ctx, steps[k], before).failed, results, k + 1)
  {
    StepGrows(env, ctx, steps[k], before);
    StillLostSoFar(steps, before.failed, RunStep(env, ctx, steps[k], before).failed, results, k);
  }

  lemma BlockedAreBroken<W>(env: Env<W>, ctx: Context, steps: seq<PlanStep>, p: Progress<W>, k: nat)
    requires k < |steps| && p.failed == {}
    requires LostSoFar(steps, Run(env, ctx, steps[..k], p).failed, Run(env, ctx, steps, p).results, k)
    ensures Blocked(steps[k], Run(env, ctx, steps[..k], p).failed) <==>
            Broken(steps, Run(env, ctx, steps, p).results, k)
  {
    ResultsGrow(env, ctx, steps[..k], p);
    BlockedIsBroken(steps, Run(env, ctx, steps[..k], p).failed, Run(env, ctx, steps, p).results, k);
  }

  lemma BlockedIsBroken(steps: seq<PlanStep>, failed: set<string>, results: seq<StepResult>, k: nat)
    requires k < |steps| && failed <= IdSet(steps[..k]) && LostSoFar(steps, failed, results, k)
    ensures Blocked(steps[k], failed) <==> Broken(steps, results, k)
  {
    forall d | d in steps[k].dependsOn && d in failed ensures Broken(steps, results, k) {
      var j :| 0 <= j < k && steps[..k][j].stepId == d;
      assert steps[j].stepId in steps[k].dependsOn && Lost(steps, results, j);
    }
  }

  lemma LastStepLost<W>(env: Env<W>, ctx: Context, steps: seq<PlanStep>, p: Progress<W>, k: nat)
    requires k < |steps| && UniqueSteps(steps) && p.results == [] && p.failed == {}
    requires var before := Run(env, ctx, steps[..k], p);
             && !before.stopped && !RunStep(env, ctx, steps[k], before).stopped
             && (Blocked(steps[k], before.failed) <==> Broken(steps, Run(env, ctx, steps, p).results, k))
    ensures var after := RunStep(env, ctx, steps[k], Run(env, ctx, steps[..k], p));
            steps[k].stepId in after.failed <==> Lost(steps, Run(env, ctx, steps, p).results, k)
  {
    var before, all := Run(env, ctx, steps[..k], p), Run(env, ctx, steps, p);
    SplitAt(env, ctx, steps, k, p);
    EarlierIds(env, ctx, steps, p, k);
    if Blocked(steps[k], before.failed) {
      BlockedHasNoResult(env, ctx, steps[k..], before, 0);
      assert [steps[k]] + steps[k + 1..] == steps[k..];
      SecondStarts(env, ctx, steps[k], steps[k + 1..], before);
    } else {
      var n := |before.results|;
      ResultOfReached(env, ctx, steps, before, k, all);
      var at := ResultsInPlanOrder(env, ctx, steps, p, |steps|);
      assert steps[..|steps|] == steps;
      TheOnlyResult(steps, all.results, at, n, k);
    }
  }

  /** A step that is reached leaves its own result, failed exactly when the step is. */
  lemma ResultOfReached<W>(env: Env<W>, ctx: Context, steps: seq<PlanStep>, before: Progress<W>, k: nat,
      all: Progress<W>)
    requires k < |steps| && !before.stopped && !Blocked(steps[k], before.failed) && steps[k].stepId !in before.failed
    requires var after := RunStep(env, ctx, steps[k], before);
            !after.stopped && all == Run(env, ctx, steps[k + 1..], after)
    ensures var n := |before.results|;
            && n < |all.results| && all.results[n].stepId == steps[k].stepId
            && (steps[k].stepId in RunStep(env, ctx, steps[k], before).failed <==> !all.results[n].Ok())
  {
    var after := RunStep(env, ctx, steps[k], before);
    ResultsGrow(env, ctx, steps[k + 1..], after);
    var n := |before.results|;
    assert all.results[n] == after.results[n];
  }

  lemma TheOnlyResult(steps: seq<PlanStep>, results: seq<StepResult>, at: seq<nat>, n: nat, k: nat)
    requires UniqueSteps(steps) && Placed(steps, results, at) && k < |steps|
    requires n < |results| && results[n].stepId == steps[k].stepId
    ensures HasResult(results, steps[k].stepId) && (FailedResult(results, steps[k].stepId) <==> !results[n].Ok())
  {
    forall i | 0 <= i < |results| && results[i].stepId == steps[k].stepId ensures i == n {
      OneResultEach(steps, results, at, i, n);
    }
  }

  lemma EarlierIds<W>(env: Env<W>, ctx: Context, steps: seq<PlanStep>, p: Progress<W>, k: nat)
    requires k < |steps| && UniqueSteps(steps) && p.results == [] && p.failed == {}
    ensures var before := Run(env, ctx, steps[..k], p);
            !HasResult(before.results, steps[k].stepId) && steps[k].stepId !in before.failed && UniqueSteps(steps[k..])
  {
    ResultsGrow(env, ctx, steps[..k], p);
    IdsSplit(steps, k);
    assert steps[k..][0] == steps[k];
  }

  /** A step has no result exactly when a chain of earlier dependencies leads to a failed step,
      or the run stopped for a confirmation before it. */
  lemma NoResultExactlyWhen<W>(env: Env<W>, ctx: Context, steps: seq<PlanStep>, p: Progress<W>, k: nat)
    requires k < |steps| && UniqueSteps(steps) && p.results == [] && p.failed == {} && !p.stopped
    ensures var results := Run(env, ctx, steps, p).results;
            !HasResult(results, steps[k].stepId) <==> Broken(steps, results, k) || AskedBefore(steps, results, k)
  {
    var all := Run(env, ctx, steps, p);
    var before := Run(env, ctx, steps[..k], p);
    EarlierIds(env, ctx, steps, p, k);
    if before.stopped {
      StoppedBefore(env, ctx, steps, p, k);
    } else {
      FailedAreLost(env, ctx, steps, p, k);
      BlockedAreBroken(env, ctx, steps, p, k);
      SplitAt(env, ctx, steps, k, p);
      SecondStarts(env, ctx, steps[k], steps[k + 1..], before);
      assert [steps[k]] + steps[k + 1..] == steps[k..];
      if Blocked(steps[k], before.failed) {
        BlockedHasNoResult(env, ctx, steps[k..], before, 0);
      } else {
        ReachedHasResult(env, ctx, steps[k..], before);
        NotAskedBefore(env, ctx, steps, p, k);
      }
    }
  }

  lemma StoppedBefore<W>(env: Env<W>, ctx: Context, steps: seq<PlanStep>, p: Progress<W>, k: nat)
    requires k < |steps| && UniqueSteps(steps) && p.results == [] && p.failed == {} && !p.stopped
    requires Run(env, ctx, steps[..k], p).stopped
    ensures var results := Run(env, ctx, steps, p).results;
            !HasResult(results, steps[k].stepId) && AskedBefore(steps, results, k)
  {
    assert steps == steps[..k] + steps[k..];
    RunSplit(env, ctx, steps[..k], steps[k..], p);
    EarlierIds(env, ctx, steps, p, k);
    var results := Run(env, ctx, steps, p).results;
    var s := StopsAtAChange(env, ctx, steps[..k], p);
    var asking := results[|results| - 1];
    assert asking.stepId == steps[..k][s].stepId == steps[s].stepId && asking.status.ApprovalRequired?;
  }

  lemma {:induction false} NotAskedBefore<W>(env: Env<W>, ctx: Context, steps: seq<PlanStep>, p: Progress<W>, k: nat)
    requires k < |steps| && UniqueSteps(steps) && p.results == [] && p.failed == {} && !p.stopped
    requires !Run(env, ctx, steps[..k], p).stopped
    ensures !AskedBefore(steps, Run(env, ctx, steps, p).results, k)
  {
    var before := Run(env, ctx, steps[..k], p);
    var all := Run(env, ctx, steps, p);
    RunningNeverAsked(env, ctx, steps[..k], p);
    assert steps == steps[..k] + steps[k..];
    RunSplit(env, ctx, steps[..k], steps[k..], p);
    ResultsGrow(env, ctx, steps[k..], before);
    IdsSplit(steps, k);
    forall i, j | 0 <= i < |all.results| && 0 <= j < k && all.results[i].stepId == steps[j].stepId
      ensures !all.results[i].status.ApprovalRequired?
    {
      assert steps[..k][j] == steps[j];
      assert i < |before.results| && all.results[i] == before.results[i];
    }
  }

  /** A non-empty plan is complete exactly when every step has a successful result. */
  lemma CompleteExactlyWhen<W>(env: Env<W>, ctx: Context, steps: seq<PlanStep>, p: Progress<W>)
    requires steps != [] && UniqueSteps(steps) && p.results == [] && p.failed == {} && !p.stopped
    ensures var results := Run(env, ctx, steps, p).results;
            OverallStatus(steps, results).Complete? <==>
            forall k | 0 <= k < |steps| ::
                HasResult(results, steps[k].stepId) && !FailedResult(results, steps[k].stepId)
  {
    var results := Run(env, ctx, steps, p).results;
    var at := ResultsInPlanOrder(env, ctx, steps, p, |steps|);
    assert steps[..|steps|] == steps;
    if OverallStatus(steps, results).Complete? {
      CompleteCounts(steps, results, at);
    }
    if forall k | 0 <= k < |steps| :: HasResult(results, steps[k].stepId) && !FailedResult(results, steps[k].stepId) {
      CountsComplete(steps, results, at);
    }
  }

  lemma CompleteCounts(steps: seq<PlanStep>, results: seq<StepResult>, at: seq<nat>)
    requires Placed(steps, results, at) && |results| == |steps| && forall r | r in results :: r.Ok()
    ensures forall k | 0 <= k < |steps| ::
            HasResult(results, steps[k].stepId) && !FailedResult(results, steps[k].stepId)
  {
    forall k | 0 <= k < |steps| ensures HasResult(results, steps[k].stepId) && !FailedResult(results, steps[k].stepId) {
      FullPlacement(at, |steps|, k);
      assert results[k].stepId == steps[k].stepId;
      assert forall i | 0 <= i < |results| :: results[i] in results;
    }
  }

  lemma CountsComplete(steps: seq<PlanStep>, results: seq<StepResult>, at: seq<nat>)
    requires steps != [] && UniqueSteps(steps) && Placed(steps, results, at)
    requires forall k | 0 <= k < |steps| ::
            HasResult(results, steps[k].stepId) && !FailedResult(results, steps[k].stepId)
    ensures OverallStatus(steps, results).Complete?
  {
    EveryStepCounted(steps, results, at);
    forall r | r in results ensures r.Ok() && !r.status.ApprovalRequired? {
      var i :| 0 <= i < |results| && results[i] == r;
      assert results[i].stepId == steps[at[i]].stepId;
    }
  }

  lemma {:induction false} FullPlacement(at: seq<nat>, n: nat, k: nat)
    requires |at| == n && k < n
    requires forall i | 0 <= i < n :: at[i] < n
    requires forall i, j | 0 <= i < j < n :: at[i] < at[j]
    ensures at[k] == k
  {
    AtLeast(at, k);
    AtMost(at, n, k);
  }

  lemma {:induction false} AtLeast(at: seq<nat>, k: nat)
    requires k < |at| && forall i, j | 0 <= i < j < |at| :: at[i] < at[j]
    ensures at[k] >= k
  {
    if k > 0 {
      AtLeast(at, k - 1);
    }
  }

  lemma {:induction false} AtMost(at: seq<nat>, n: nat, k: nat)
    requires |at| == n && k < n && at[n - 1] < n && forall i, j | 0 <= i < j < |at| :: at[i] < at[j]
    ensures at[k] <= k
    decreases n - k
  {
    if k < n - 1 {
      AtMost(at, n, k + 1);
    }
  }

  /** With a result for each step there are as many results as steps. */
  lemma EveryStepCounted(steps: seq<PlanStep>, results: seq<StepResult>, at: seq<nat>)
    requires UniqueSteps(steps) && Placed(steps, results, at)
    requires forall k | 0 <= k < |steps| :: HasResult(results, steps[k].stepId)
    ensures |results| == |steps|
  {
    if |at| > 0 {
      AtLeast(at, |at| - 1);
    }
    if |steps| > 0 {
      var i := PlaceOf(steps, results, at, |steps| - 1);
    }
  }

  lemma {:induction false} PlaceOf(steps: seq<PlanStep>, results: seq<StepResult>, at: seq<nat>, k: nat)
      returns (i: nat)
    requires UniqueSteps(steps) && Placed(steps, results, at) && k < |steps|
    requires forall k | 0 <= k < |steps| :: HasResult(results, steps[k].stepId)
    ensures k <= i < |at| && at[i] == k
  {
    i :| 0 <= i < |results| && results[i].stepId == steps[k].stepId;
    assert at[i] == k;
    if k > 0 {
      var j := PlaceOf(steps, results, at, k - 1);
      assert j < i;
    }
  }
}
