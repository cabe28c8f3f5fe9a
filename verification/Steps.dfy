/** What one step of a plan leaves behind, what of it is kept with a confirmation, and what a confirmed plan starts with
    (apps/api/app/agents/master.py, `execute`, `_persist_resume` and `_resume_plan`). */
module Steps {
  import opened Values
  import opened Contracts
  import opened Bindings
  import opened Gateway
  import opened Master

  // ------------------------------------------------------------------- one step

  /** The step's result carries what its call came to; a call without a summary is told by its reason. */
  ghost predicate Reports(step: PlanStep, invocation: Invocation, result: StepResult) {
    && result.stepId == step.stepId && result.tool == step.tool
    && result.status == invocation.status && result.data == invocation.data
    && result.reason == invocation.reason && result.approval == invocation.approval
    && (invocation.summary != "" ==> result.summary == invocation.summary)
    && (invocation.summary == "" ==> result.summary == invocation.reason)
  }

  /** Nothing but the list of failed steps tells of a step that waited for one of them. */
  lemma BlockedStepIsSkipped<W>(env: Env<W>, ctx: Context, step: PlanStep, p: Progress<W>)
    requires exists d :: d in step.dependsOn && d in p.failed
    ensures RunStep(env, ctx, step, p) == p.(failed := p.failed + {step.stepId})
  {
  }

  ghost predicate OneMoreResult<W>(p: Progress<W>, q: Progress<W>) {
    |q.results| == |p.results| + 1 && q.results[..|p.results|] == p.results
  }

  /** A step that cannot be resolved fails without a call. */
  lemma UnresolvedStepFails<W>(env: Env<W>, ctx: Context, step: PlanStep, p: Progress<W>)
    requires !(exists d :: d in step.dependsOn && d in p.failed)
    requires ResolveAll(step.arguments, step.bindings, p.completed).Err?
    ensures var q := RunStep(env, ctx, step, p);
            && OneMoreResult(p, q) && q.st == p.st && q.completed == p.completed && q.stopped == p.stopped
            && q.failed == p.failed + {step.stepId}
            && var result := q.results[|p.results|];
              result.stepId == step.stepId && result.tool == step.tool && result.status == Failed
                  && result.approval.None?
  {
  }

  /** Any other step is called once, and its result tells the call. Later steps can read what it gave exactly when it
      succeeded, and must not wait for it unless it succeeded or asked; only asking stops the run. */
  lemma StepTellsTheCall<W>(env: Env<W>, ctx: Context, step: PlanStep, p: Progress<W>)
    requires !(exists d :: d in step.dependsOn && d in p.failed)
    requires ResolveAll(step.arguments, step.bindings, p.completed).Ok?
    ensures var q := RunStep(env, ctx, step, p);
            var (st, invocation) := Invoke(env, ctx, p.st, step.tool,
                ResolveAll(step.arguments, step.bindings, p.completed).value);
            && OneMoreResult(p, q) && Reports(step, invocation, q.results[|p.results|]) && q.st == st
            && (q.stopped <==> invocation.status == ApprovalRequired)
            && (if invocation.status == Success then
                  q.completed.Keys == p.completed.Keys + {step.stepId}
                  && OutputTells(q.completed[step.stepId], q.results[|p.results|])
                else q.completed == p.completed)
            && q.failed == if invocation.status in {Success, ApprovalRequired} then p.failed
                           else p.failed + {step.stepId}
  {
  }

  /** A later step reads the data of a result and its summary. */
  ghost predicate OutputTells(output: Value, result: StepResult) {
    output.Obj? && Get(output.fields, "data") == result.data && Get(output.fields, "summary") == Str(result.summary)
  }

  // ------------------------------------------------------------------- what is kept

  ghost predicate Gives(results: seq<StepResult>, stepId: string) {
    exists i | 0 <= i < |results| :: results[i].stepId == stepId && results[i].Ok()
  }

  /** Kept are exactly the successful steps that a later step reads from or waits for. */
  lemma {:induction false} KeptExactlyWhen(results: seq<StepResult>, rest: seq<PlanStep>, stepId: string)
    ensures stepId in Outputs(results, rest) <==> Gives(results, stepId) && Needed(rest, stepId)
    decreases |results|
  {
    if results != [] {
      var n := |results| - 1;
      KeptExactlyWhen(results[..n], rest, stepId);
      assert Gives(results, stepId) <==>
               Gives(results[..n], stepId) || (results[n].stepId == stepId && results[n].Ok()) by {
        if Gives(results, stepId) {
          var i :| 0 <= i < |results| && results[i].stepId == stepId && results[i].Ok();
          assert i < n ==> results[..n][i] == results[i];
        }
      }
    }
  }

  /** A plan is kept with the row it is meant for exactly when the row is pending and of the same principal; nothing
      else changes. */
  lemma PlanIsKeptExactlyWhen<W>(st: State<W>, principal: string, id: nat, kept: Kept)
    ensures var after := SetResume(st, principal, id, kept);
            && after.(approvals := st.approvals) == st && after.approvals.Keys == st.approvals.Keys
            && forall i | i in st.approvals ::
                 var row := st.approvals[i];
                 var mayKeep := i == id && row.principal == principal && row.status == Pending;
                 after.approvals[i] == row.(resume := if mayKeep then Some(kept) else row.resume)
  {
  }

  // ------------------------------------------------------------------- what a confirmed plan starts with

  ghost predicate StoppedAt(kept: Kept, tool: string, k: nat) {
    k < |kept.steps| && kept.steps[k].stepId == kept.stoppedAt && kept.steps[k].tool == tool
  }

  ghost predicate FirstStop(kept: Kept, tool: string, k: nat) {
    StoppedAt(kept, tool, k) && forall j: nat | j < k :: !StoppedAt(kept, tool, j)
  }

  /** The confirmed call comes first, as confirmed. It is alone exactly when no kept step has both its name and its
      tool; otherwise the later steps follow, each as it was except that it waits only for steps that are still
      there. */
  lemma ResumesFrom(row: Approval)
    ensures var (steps, earlier) := Resume(row);
            && steps != [] && steps[0].tool == row.tool && steps[0].arguments == row.arguments
            && steps[0].bindings == [] && steps[0].dependsOn == []
            && if row.resume.Some? && exists k: nat :: StoppedAt(row.resume.value, row.tool, k) then
                 && earlier == row.resume.value.completed
                 && exists k: nat :: FirstStop(row.resume.value, row.tool, k)
                                     && Follows(row.resume.value.steps[k..], steps)
               else |steps| == 1 && earlier == map[]
  {
    if row.resume.Some? {
      var kept := row.resume.value;
      var k := StopIndex(kept.steps, kept.stoppedAt, row.tool);
      if k < |kept.steps| {
        assert StoppedAt(kept, row.tool, k) && FirstStop(kept, row.tool, k);
        FollowsTheStop(kept.steps, k, row.arguments);
      }
    }
  }

  ghost predicate WaitsFor(step: PlanStep, d: string) {
    d in step.dependsOn
  }

  /** A step as it was, but waiting only for steps that are there. */
  ghost predicate Remains(before: PlanStep, after: PlanStep, present: set<string>) {
    && after.(dependsOn := before.dependsOn) == before
    && forall d :: WaitsFor(after, d) <==> WaitsFor(before, d) && d in present
  }

  /** The steps of the new plan are those of the old one, and all but the first remain. */
  ghost predicate Follows(before: seq<PlanStep>, after: seq<PlanStep>) {
    && |after| == |before| && after != [] && after[0].stepId == before[0].stepId
    && forall i | 0 < i < |after| :: Remains(before[i], after[i], IdSet(before))
  }

  lemma {:induction false} PresentKeeps(deps: seq<string>, present: set<string>, d: string)
    ensures d in Present(deps, present) <==> d in deps && d in present
  {
    if deps != [] {
      PresentKeeps(deps[1..], present, d);
      assert d in deps <==> d == deps[0] || d in deps[1..];
    }
  }

  lemma TrimmedRemains(step: PlanStep, present: set<string>)
    ensures Remains(step, Trimmed(step, present), present)
  {
    forall d ensures WaitsFor(Trimmed(step, present), d) <==> WaitsFor(step, d) && d in present {
      PresentKeeps(step.dependsOn, present, d);
    }
  }

  lemma FollowsTheStop(steps: seq<PlanStep>, k: nat, arguments: Args)
    requires k < |steps|
    ensures var remaining := [ConfirmedStep(steps[k], arguments)] + steps[k + 1..];
            Follows(steps[k..], TrimAll(remaining, IdSet(remaining)))
  {
    var before, remaining := steps[k..], [ConfirmedStep(steps[k], arguments)] + steps[k + 1..];
    assert forall i | 0 <= i < |remaining| :: remaining[i].stepId == before[i].stepId;
    SameNames(remaining, before);
    forall i | 0 < i < |remaining| ensures Remains(before[i], Trimmed(remaining[i], IdSet(before)), IdSet(before)) {
      TrimmedRemains(remaining[i], IdSet(before));
    }
  }

  lemma SameNames(steps: seq<PlanStep>, others: seq<PlanStep>)
    requires |steps| == |others| && forall i | 0 <= i < |steps| :: steps[i].stepId == others[i].stepId
    ensures IdSet(steps) == IdSet(others)
  {
    forall s ensures s in IdSet(steps) <==> s in IdSet(others) {
      if s in IdSet(others) {
        var i :| 0 <= i < |others| && others[i].stepId == s;
        assert steps[i].stepId == s;
      }
    }
  }
}
