/** Stopping for a confirmation and resuming later changes nothing that the plan does. */
module Resumption {
  import opened Values
  import opened Contracts
  import opened Spec
  import opened Bindings
  import opened Gateway
  import opened Master

  // ----------------------------------------------------------------- running

  lemma {:induction false} RunSplit<W>(env: Env<W>, ctx: Context, one: seq<PlanStep>, two: seq<PlanStep>,
      p: Progress<W>)
    ensures Run(env, ctx, one + two, p) == Run(env, ctx, two, Run(env, ctx, one, p))
    decreases |one|
  {
    if one == [] {
      assert one + two == two;
    } else if !p.stopped {
      assert (one + two)[1..] == one[1..] + two;
      RunSplit(env, ctx, one[1..], two, RunStep(env, ctx, one[0], p));
    }
  }

  /** Every result belongs to one of the steps. */
  ghost predicate AllFrom(results: seq<StepResult>, steps: seq<PlanStep>) {
    forall j | 0 <= j < |results| :: results[j].stepId in IdSet(steps)
  }

  /** Running steps only appends results, and a step that is reached and not blocked gets one. */
  lemma {:induction false} ResultsGrow<W>(env: Env<W>, ctx: Context, steps: seq<PlanStep>, p: Progress<W>)
    ensures var q := Run(env, ctx, steps, p);
            && p.results <= q.results && p.failed <= q.failed
            && (forall i | |p.results| <= i < |q.results| :: q.results[i].stepId in IdSet(steps))
            && q.failed <= p.failed + IdSet(steps)
    decreases |steps|
  {
    if steps != [] && !p.stopped {
      var next := RunStep(env, ctx, steps[0], p);
      StepGrows(env, ctx, steps[0], p);
      ResultsGrow(env, ctx, steps[1..], next);
      FirstAndRest(steps);
      GrownTwice(p.results, next.results, Run(env, ctx, steps, p).results, steps[0].stepId, IdSet(steps[1..]));
    }
  }

  lemma StepGrows<W>(env: Env<W>, ctx: Context, step: PlanStep, p: Progress<W>)
    ensures var next := RunStep(env, ctx, step, p);
            && p.results <= next.results && p.failed <= next.failed <= p.failed + {step.stepId}
            && (forall i | |p.results| <= i < |next.results| :: next.results[i].stepId == step.stepId)
  {
  }

  lemma FirstAndRest(steps: seq<PlanStep>)
    requires steps != []
    ensures IdSet(steps) == {steps[0].stepId} + IdSet(steps[1..])
  {
    assert forall i | 0 <= i < |steps[1..]| :: steps[1..][i] == steps[i + 1];
    assert forall i | 1 <= i < |steps| :: steps[i] == steps[1..][i - 1];
  }

  lemma GrownTwice(a: seq<StepResult>, b: seq<StepResult>, c: seq<StepResult>, id: string, ids: set<string>)
    requires a <= b <= c
    requires forall i | |a| <= i < |b| :: b[i].stepId == id
    requires forall i | |b| <= i < |c| :: c[i].stepId in ids
    ensures a <= c && forall i | |a| <= i < |c| :: c[i].stepId in {id} + ids
  {
    assert forall i | 0 <= i < |b| :: c[i] == b[i];
  }

  /** A step blocked by a failure before it never gets a result. */
  lemma {:induction false} BlockedHasNoResult<W>(env: Env<W>, ctx: Context, steps: seq<PlanStep>, p: Progress<W>,
      i: nat)
    requires i < |steps| && UniqueSteps(steps)
    requires Blocked(steps[i], p.failed) && !HasResult(p.results, steps[i].stepId)
    ensures !HasResult(Run(env, ctx, steps, p).results, steps[i].stepId)
    decreases |steps|
  {
    if !p.stopped {
      var next := RunStep(env, ctx, steps[0], p);
      var rest := steps[1..];
      if i == 0 {
        ResultsGrow(env, ctx, rest, next);
        var q := Run(env, ctx, rest, next);
        assert next.results == p.results;
        forall j | 0 <= j < |q.results| ensures q.results[j].stepId != steps[0].stepId {
          if j >= |p.results| {
            var m :| 0 <= m < |rest| && rest[m].stepId == q.results[j].stepId;
            assert steps[m + 1].stepId == rest[m].stepId;
          } else {
            assert q.results[j] == p.results[j];
          }
        }
      } else {
        assert rest[i - 1] == steps[i] && steps[0].stepId != steps[i].stepId;
        assert UniqueSteps(rest);
        assert Blocked(rest[i - 1], next.failed);
        assert !HasResult(next.results, steps[i].stepId);
        BlockedHasNoResult(env, ctx, rest, next, i - 1);
      }
    }
  }

  /** A run that stops does so at a record change, and nothing after it is touched. */
  lemma {:induction false} StopsAtAChange<W>(env: Env<W>, ctx: Context, steps: seq<PlanStep>, p: Progress<W>)
      returns (k: nat)
    requires !p.stopped && Run(env, ctx, steps, p).stopped
    ensures k < |steps| && IsChange(env, steps[k]) && steps[k].tool in env.tools
    ensures var before := Run(env, ctx, steps[..k], p);
            !before.stopped && Run(env, ctx, steps, p) == RunStep(env, ctx, steps[k], before)
    decreases |steps|
  {
    var next := RunStep(env, ctx, steps[0], p);
    assert steps[..1] == [steps[0]];
    if next.stopped {
      k := 0;
      StepNeverAsks(env, ctx, steps[0], p);
    } else {
      var j := StopsAtAChange(env, ctx, steps[1..], next);
      k := j + 1;
      PrefixStarts(env, ctx, steps, p, j);
    }
  }

  lemma PrefixStarts<W>(env: Env<W>, ctx: Context, steps: seq<PlanStep>, p: Progress<W>, j: nat)
    requires j < |steps| && !p.stopped
    ensures Run(env, ctx, steps[..j + 1], p) == Run(env, ctx, steps[1..][..j], RunStep(env, ctx, steps[0], p))
  {
    assert steps[..j + 1][1..] == steps[1..][..j];
  }

  /** Only a registered record change can stop a run. */
  lemma StepNeverAsks<W>(env: Env<W>, ctx: Context, step: PlanStep, p: Progress<W>)
    requires !p.stopped
    ensures RunStep(env, ctx, step, p).stopped ==> IsChange(env, step) && step.tool in env.tools
  {
    if !Blocked(step, p.failed) {
      var resolved := ResolveAll(step.arguments, step.bindings, p.completed);
      if resolved.Ok? && (step.tool in env.tools ==> env.tools[step.tool].risk != HighRisk) {
        OtherCall(env, ctx, p.st, ctx, p.st, step.tool, resolved.value);
      }
    }
  }

  // ------------------------------------------------------- counting the changes

  lemma {:induction false} ChangesSplit<W>(env: Env<W>, one: seq<PlanStep>, two: seq<PlanStep>)
    ensures RecordChanges(env, one + two) == RecordChanges(env, one) + RecordChanges(env, two)
  {
    if one == [] {
      assert one + two == two;
    } else {
      assert (one + two)[1..] == one[1..] + two;
      ChangesSplit(env, one[1..], two);
    }
  }

  ghost predicate NoChange<W>(env: Env<W>, steps: seq<PlanStep>) {
    forall i | 0 <= i < |steps| :: !IsChange(env, steps[i])
  }

  lemma {:induction false} NoneCounted<W>(env: Env<W>, steps: seq<PlanStep>)
    requires RecordChanges(env, steps) == 0
    ensures NoChange(env, steps)
  {
    if steps != [] {
      NoneCounted(env, steps[1..]);
      assert forall i | 1 <= i < |steps| :: steps[i] == steps[1..][i - 1];
    }
  }

  lemma TheOnlyChange<W>(env: Env<W>, steps: seq<PlanStep>, k: nat)
    requires k < |steps| && IsChange(env, steps[k]) && RecordChanges(env, steps) <= 1
    ensures NoChange(env, steps[..k]) && NoChange(env, steps[k + 1..])
  {
    assert steps == steps[..k] + ([steps[k]] + steps[k + 1..]);
    ChangesSplit(env, steps[..k], [steps[k]] + steps[k + 1..]);
    assert ([steps[k]] + steps[k + 1..])[1..] == steps[k + 1..];
    NoneCounted(env, steps[..k]);
    NoneCounted(env, steps[k + 1..]);
  }

  // ----------------------------------------------- the steps before the stop

  /** Steps that change no record run alike whatever confirmation is carried. */
  lemma {:induction false} SameBefore<W>(env: Env<W>, ctx: Context, ctx': Context, steps: seq<PlanStep>,
      p: Progress<W>, p': Progress<W>)
    requires ctx.principal == ctx'.principal && NoChange(env, steps)
    requires !p.stopped && !p'.stopped && p.st.world == p'.st.world && p.st.calls == p'.st.calls
    requires p.results == p'.results && p.completed == p'.completed && p.failed == p'.failed
    ensures var q, q' := Run(env, ctx, steps, p), Run(env, ctx', steps, p');
            && !q.stopped && !q'.stopped && q.st.world == q'.st.world && q.st.calls == q'.st.calls
            && q.results == q'.results && q.completed == q'.completed && q.failed == q'.failed
            && q'.st.approvals == p'.st.approvals
    decreases |steps|
  {
    if steps != [] {
      var step := steps[0];
      assert !IsChange(env, step);
      var resolved := ResolveAll(step.arguments, step.bindings, p.completed);
      if resolved.Ok? {
        OtherCall(env, ctx, p.st, ctx', p'.st, step.tool, resolved.value);
      }
      assert forall i | 0 <= i < |steps[1..]| :: steps[1..][i] == steps[i + 1];
      SameBefore(env, ctx, ctx', steps[1..], RunStep(env, ctx, step, p), RunStep(env, ctx', step, p'));
    }
  }

  ghost predicate NoneAsking(results: seq<StepResult>) {
    forall i | 0 <= i < |results| :: !results[i].status.ApprovalRequired?
  }

  lemma {:induction false} PlainStepsNeverAsk<W>(env: Env<W>, ctx: Context, steps: seq<PlanStep>, p: Progress<W>)
    requires !p.stopped && NoChange(env, steps) && NoneAsking(p.results)
    ensures var q := Run(env, ctx, steps, p); !q.stopped && NoneAsking(q.results)
    decreases |steps|
  {
    if steps != [] {
      var step := steps[0];
      assert !IsChange(env, step);
      var resolved := ResolveAll(step.arguments, step.bindings, p.completed);
      if resolved.Ok? {
        OtherCall(env, ctx, p.st, ctx, p.st, step.tool, resolved.value);
      }
      assert forall i | 0 <= i < |steps[1..]| :: steps[1..][i] == steps[i + 1];
      PlainStepsNeverAsk(env, ctx, steps[1..], RunStep(env, ctx, step, p));
    }
  }

  lemma {:induction false} RunningAfter<W>(env: Env<W>, ctx: Context, steps: seq<PlanStep>, p: Progress<W>)
    requires !p.stopped && NoChange(env, steps)
    ensures !Run(env, ctx, steps, p).stopped
    decreases |steps|
  {
    if steps != [] {
      assert !IsChange(env, steps[0]);
      StepNeverAsks(env, ctx, steps[0], p);
      assert forall i | 0 <= i < |steps[1..]| :: steps[1..][i] == steps[i + 1];
      RunningAfter(env, ctx, steps[1..], RunStep(env, ctx, steps[0], p));
    }
  }

  lemma TrimmedChanges<W>(env: Env<W>, steps: seq<PlanStep>, present: set<string>)
    requires NoChange(env, steps)
    ensures NoChange(env, TrimAll(steps, present))
  {
  }

  // ------------------------------------------------------------ kept outputs

  /** The outputs of all successful steps among the results. */
  ghost function AllOutputs(results: seq<StepResult>): map<string, Value> {
    if results == [] then map[]
    else
      var earlier := AllOutputs(results[..|results| - 1]);
      var last := results[|results| - 1];
      if last.Ok() then earlier[last.stepId := OutputOf(last)] else earlier
  }

  lemma {:induction false} CompletedAreOutputs<W>(env: Env<W>, ctx: Context, steps: seq<PlanStep>, p: Progress<W>)
    requires p.completed == AllOutputs(p.results)
    ensures var q := Run(env, ctx, steps, p); q.completed == AllOutputs(q.results)
    decreases |steps|
  {
    if steps != [] && !p.stopped {
      var next := RunStep(env, ctx, steps[0], p);
      if |next.results| > |p.results| {
        assert next.results[..|next.results| - 1] == p.results;
      }
      CompletedAreOutputs(env, ctx, steps[1..], next);
    }
  }

  /** What is kept agrees with what was there, on every step that is still needed. */
  lemma {:induction false} KeptAgrees(results: seq<StepResult>, rest: seq<PlanStep>, stepId: string)
    requires Needed(rest, stepId)
    ensures var kept, all := Outputs(results, rest), AllOutputs(results);
            (stepId in kept <==> stepId in all) && (stepId in kept ==> kept[stepId] == all[stepId])
  {
    if results != [] {
      KeptAgrees(results[..|results| - 1], rest, stepId);
    }
  }

  lemma AskingAddsNoOutput(results: seq<StepResult>, asking: StepResult, rest: seq<PlanStep>)
    requires asking.status.ApprovalRequired?
    ensures Outputs(results + [asking], rest) == Outputs(results, rest)
  {
    assert (results + [asking])[..|results|] == results;
  }

  // ------------------------------------------------ the steps after the stop

  lemma {:induction false} PresentMembers(deps: seq<string>, present: set<string>, d: string)
    ensures d in Present(deps, present) <==> d in deps && d in present
  {
    if deps != [] {
      PresentMembers(deps[1..], present, d);
      assert deps == [deps[0]] + deps[1..];
    }
  }

  ghost predicate AllAgree(rest: seq<PlanStep>, one: map<string, Value>, two: map<string, Value>) {
    forall i | 0 <= i < |rest| :: AgreeOn(rest[i].Inputs(), one, two)
  }

  lemma StillAgree(rest: seq<PlanStep>, one: map<string, Value>, two: map<string, Value>, stepId: string, output: Value)
    requires AllAgree(rest, one, two)
    ensures AllAgree(rest, one[stepId := output], two[stepId := output])
  {
    forall i | 0 <= i < |rest| ensures AgreeOn(rest[i].Inputs(), one[stepId := output], two[stepId := output]) {
      assert AgreeOn(rest[i].Inputs(), one, two);
    }
  }

  /** How an uninterrupted run `u` and a resumed run `r` stand to each other before `rest`. */
  ghost predicate InStep<W>(rest: seq<PlanStep>, present: set<string>, lost: set<string>, prefix: seq<StepResult>,
      u: Progress<W>, r: Progress<W>) {
    && !u.stopped && !r.stopped
    && u.results == prefix + r.results
    && u.st.world == r.st.world && u.st.calls == r.st.calls
    && (forall i | 0 <= i < |rest| :: rest[i].stepId in present)
    && AllAgree(rest, u.completed, r.completed)
    && lost !! present && r.failed <= present
    && u.failed == lost + r.failed
  }

  lemma BlockedAlike<W>(step: PlanStep, rest: seq<PlanStep>, present: set<string>, lost: set<string>,
      prefix: seq<StepResult>, u: Progress<W>, r: Progress<W>)
    requires InStep(rest, present, lost, prefix, u, r)
    ensures Blocked(step, u.failed) <==> Blocked(step, lost) || Blocked(Trimmed(step, present), r.failed)
  {
    forall d ensures d in Present(step.dependsOn, present) <==> d in step.dependsOn && d in present {
      PresentMembers(step.dependsOn, present, d);
    }
  }

  lemma OneMoreStep<W>(env: Env<W>, ctx: Context, ctx': Context, rest: seq<PlanStep>, present: set<string>,
      lost: set<string>, prefix: seq<StepResult>, u: Progress<W>, r: Progress<W>)
    requires rest != [] && !IsChange(env, rest[0]) && ctx.principal == ctx'.principal
    requires InStep(rest, present, lost, prefix, u, r)
    requires Blocked(rest[0], lost) ==> Blocked(Trimmed(rest[0], present), r.failed)
    ensures InStep(rest[1..], present, lost, prefix, RunStep(env, ctx, rest[0], u),
            RunStep(env, ctx', Trimmed(rest[0], present), r))
  {
    var step, trimmed := rest[0], Trimmed(rest[0], present);
    BlockedAlike(step, rest, present, lost, prefix, u, r);
    assert forall i | 0 <= i < |rest[1..]| :: rest[1..][i] == rest[i + 1];
    assert AllAgree(rest[1..], u.completed, r.completed);
    if !Blocked(step, u.failed) {
      assert AgreeOn(rest[0].Inputs(), u.completed, r.completed);
      ReadsOnlyReferenced(step.Inputs(), u.completed, r.completed);
      var resolved := ResolveAll(step.arguments, step.bindings, u.completed);
      if resolved.Ok? {
        OtherCall(env, ctx, u.st, ctx', r.st, step.tool, resolved.value);
        var invocation := Invoke(env, ctx, u.st, step.tool, resolved.value).1;
        var result := ResultOf(step, invocation);
        assert result == ResultOf(trimmed, invocation);
        assert u.results + [result] == prefix + (r.results + [result]);
        StillAgree(rest[1..], u.completed, r.completed, step.stepId, OutputOf(result));
      } else {
        assert UnresolvedResult(step, resolved.error) == UnresolvedResult(trimmed, resolved.error);
        assert u.results + [UnresolvedResult(step, resolved.error)] == prefix
            + (r.results + [UnresolvedResult(step, resolved.error)]);
      }
    }
  }

  lemma ReachedHasResult<W>(env: Env<W>, ctx: Context, steps: seq<PlanStep>, p: Progress<W>)
    requires steps != [] && !p.stopped && !Blocked(steps[0], p.failed)
    ensures HasResult(Run(env, ctx, steps, p).results, steps[0].stepId)
  {
    var next := RunStep(env, ctx, steps[0], p);
    ResultsGrow(env, ctx, steps[1..], next);
    var q := Run(env, ctx, steps, p);
    assert q.results[|p.results|] == next.results[|p.results|];
    assert next.results[|p.results|].stepId == steps[0].stepId;
  }

  /** From the confirmed step on, the two runs stay in step. */
  lemma {:induction false} StayInStep<W>(env: Env<W>, ctx: Context, ctx': Context, rest: seq<PlanStep>,
      present: set<string>, lost: set<string>, prefix: seq<StepResult>, u: Progress<W>, r: Progress<W>)
    requires NoChange(env, rest) && ctx.principal == ctx'.principal
    requires InStep(rest, present, lost, prefix, u, r)
    requires var second := Run(env, ctx', TrimAll(rest, present), r);
             forall i | 0 <= i < |rest| :: Blocked(rest[i], lost) ==> !HasResult(second.results, rest[i].stepId)
    ensures InStep([], present, lost, prefix, Run(env, ctx, rest, u), Run(env, ctx', TrimAll(rest, present), r))
    decreases |rest|
  {
    if rest != [] {
      var trimmed := TrimAll(rest, present);
      var u1, r1 := RunStep(env, ctx, rest[0], u), RunStep(env, ctx', trimmed[0], r);
      assert trimmed[1..] == TrimAll(rest[1..], present);
      if !Blocked(trimmed[0], r.failed) {
        ReachedHasResult(env, ctx', trimmed, r);
      }
      OneMoreStep(env, ctx, ctx', rest, present, lost, prefix, u, r);
      assert forall i | 0 <= i < |rest[1..]| :: rest[1..][i] == rest[i + 1];
      StayInStep(env, ctx, ctx', rest[1..], present, lost, prefix, u1, r1);
    }
  }

  // ------------------------------------------------------------ the theorem

  /** The confirmation a stopped run asks for. */
  function AskedFor(results: seq<StepResult>): Option<Asked> {
    var k := FirstAsking(results);
    if k == |results| then None else results[k].approval
  }

  /** The step a run stopped at, and those after it. */
  function Remaining(steps: seq<PlanStep>, results: seq<StepResult>): (remaining: seq<PlanStep>)
    requires Keep(steps, results).Some?
    ensures remaining != []
  {
    steps[IndexOf(steps, Keep(steps, results).value.1.stoppedAt)..]
  }

  ghost predicate UniqueIds(steps: seq<PlanStep>, k: nat)
    requires k < |steps|
  {
    IdSet(steps[..k]) !! IdSet(steps[k..])
  }

  lemma IdsSplit(steps: seq<PlanStep>, k: nat)
    requires UniqueSteps(steps) && k < |steps|
    ensures UniqueIds(steps, k) && IndexOf(steps, steps[k].stepId) == k
  {
  }

  /** A stopped run has the results of the steps before the change, then one that asks. */
  lemma StopShape<W>(env: Env<W>, ctx: Context, steps: seq<PlanStep>, st: State<W>) returns (k: nat)
    requires UniqueSteps(steps) && RecordChanges(env, steps) <= 1 && Registered(env)
    requires Run(env, ctx, steps, Start(st, map[])).stopped
    ensures k < |steps| && steps[k].tool in env.tools && env.tools[steps[k].tool].risk == HighRisk
    ensures NoChange(env, steps[..k]) && NoChange(env, steps[k + 1..])
    ensures var first := Run(env, ctx, steps, Start(st, map[]));
            var before := Run(env, ctx, steps[..k], Start(st, map[]));
            var step := steps[k];
            && !before.stopped && NoneAsking(before.results) && before.completed == AllOutputs(before.results)
            && before.failed <= IdSet(steps[..k])
            && !Blocked(step, before.failed)
            && first.failed == before.failed && first.st.world == before.st.world && first.st.calls == before.st.calls
            && |first.results| == |before.results| + 1 && first.results[..|before.results|] == before.results
            && FirstAsking(first.results) == |before.results|
            && AskedFor(first.results).Some?
            && var asked := AskedFor(first.results).value;
              var resolved := ResolveAll(step.arguments, step.bindings, before.completed);
              && asked.tool == step.tool && resolved.Ok?
              && Check(env, ctx.principal, env.tools[step.tool], resolved.value) == Ok(asked.arguments)
              && Keep(steps, first.results) == Some((asked.approvalId,
                  Kept(steps, step.stepId, Outputs(before.results, steps[k + 1..]))))
  {
    k := StopsAtAChange(env, ctx, steps, Start(st, map[]));
    TheOnlyChange(env, steps, k);
    var start := Start(st, map[]);
    var before := Run(env, ctx, steps[..k], start);
    PlainStepsNeverAsk(env, ctx, steps[..k], start);
    CompletedAreOutputs(env, ctx, steps[..k], start);
    ResultsGrow(env, ctx, steps[..k], start);
    var first := RunStep(env, ctx, steps[k], before);
    var resolved := ResolveAll(steps[k].arguments, steps[k].bindings, before.completed);
    assert resolved.Ok?;
    StopInvocation(env, ctx, before.st, steps[k].tool, resolved.value);
    var asking := first.results[|before.results|];
    assert first.results == before.results + [asking];
    AskedAndKept(steps, k, before.results, asking);
  }

  lemma {:induction false} AskedAndKept(steps: seq<PlanStep>, k: nat, before: seq<StepResult>, asking: StepResult)
    requires UniqueSteps(steps) && k < |steps| && NoneAsking(before)
    requires asking.status.ApprovalRequired? && asking.approval.Some? && asking.stepId == steps[k].stepId
    ensures var results := before + [asking];
            && FirstAsking(results) == |before| && AskedFor(results) == asking.approval
            && Keep(steps, results) == Some((asking.approval.value.approvalId,
                Kept(steps, steps[k].stepId, Outputs(before, steps[k + 1..]))))
  {
    AsksLast(before, asking);
    IdsSplit(steps, k);
    AskingAddsNoOutput(before, asking, steps[k + 1..]);
  }

  lemma AsksLast(before: seq<StepResult>, asking: StepResult)
    requires NoneAsking(before) && asking.status.ApprovalRequired? && asking.approval.Some?
    ensures FirstAsking(before + [asking]) == |before|
  {
    assert (before + [asking])[|before|] == asking;
  }

  lemma StopInvocation<W>(env: Env<W>, ctx: Context, st: State<W>, tool: string, arguments: Args)
    requires Registered(env) && tool in env.tools
    requires Invoke(env, ctx, st, tool, arguments).1.status.ApprovalRequired?
    ensures var (after, invocation) := Invoke(env, ctx, st, tool, arguments);
            && env.tools[tool].risk == HighRisk
            && invocation.approval.Some? && invocation.approval.value.tool == tool
            && Check(env, ctx.principal, env.tools[tool], arguments) == Ok(invocation.approval.value.arguments)
            && after.world == st.world && after.calls == st.calls
  {
    CheckNeverAsks(env, ctx.principal, env.tools[tool], arguments);
    if env.tools[tool].risk != HighRisk {
      OtherCall(env, ctx, st, ctx, st, tool, arguments);
    }
  }

  /** The resumed plan is the confirmed step followed by the rest, without the dependencies already met. */
  lemma ResumedPlan(row: Approval, steps: seq<PlanStep>, k: nat, completed: map<string, Value>)
    requires UniqueSteps(steps) && k < |steps|
    requires row.resume == Some(Kept(steps, steps[k].stepId, completed)) && row.tool == steps[k].tool
    ensures Resume(row) == ([ConfirmedStep(steps[k], row.arguments)] + TrimAll(steps[k + 1..], IdSet(steps[k..])),
            completed)
  {
    StopFound(steps, k);
    var remaining := [ConfirmedStep(steps[k], row.arguments)] + steps[k + 1..];
    RemainingIds(steps, k, remaining);
    TrimmedRemaining(ConfirmedStep(steps[k], row.arguments), steps[k + 1..], IdSet(steps[k..]));
  }

  lemma StopFound(steps: seq<PlanStep>, k: nat)
    requires UniqueSteps(steps) && k < |steps|
    ensures StopIndex(steps, steps[k].stepId, steps[k].tool) == k
  {
    var j := StopIndex(steps, steps[k].stepId, steps[k].tool);
    assert j <= k && steps[j].stepId == steps[k].stepId;
  }

  lemma RemainingIds(steps: seq<PlanStep>, k: nat, remaining: seq<PlanStep>)
    requires k < |steps| && |remaining| == |steps| - k && remaining[0].stepId == steps[k].stepId
            && remaining[1..] == steps[k + 1..]
    ensures IdSet(remaining) == IdSet(steps[k..])
  {
    assert forall i | 1 <= i < |remaining| :: remaining[i] == remaining[1..][i - 1];
    assert forall i | 0 <= i < |remaining| :: remaining[i].stepId == steps[k..][i].stepId;
  }

  lemma TrimmedRemaining(first: PlanStep, rest: seq<PlanStep>, present: set<string>)
    requires first.dependsOn == []
    ensures TrimAll([first] + rest, present) == [first] + TrimAll(rest, present)
  {
    assert Trimmed(first, present) == first;
  }

  /** A confirmed record change does the same to the same records, whichever confirmation it runs under. */
  lemma ConfirmedAlike<W>(env: Env<W>, ctx: Context, st: State<W>, arguments: Args, ctx': Context, st': State<W>,
      arguments': Args, tool: string, checked: Args)
    requires Registered(env) && tool in env.tools && env.tools[tool].risk == HighRisk && ctx.principal == ctx'.principal
    requires Check(env, ctx.principal, env.tools[tool], arguments) == Ok(checked) ==
            Check(env, ctx.principal, env.tools[tool], arguments')
    requires Confirmed(ctx, st, tool, checked) && Confirmed(ctx', st', tool, checked)
    requires st.world == st'.world && st.calls == st'.calls
    ensures var (after, invocation) := Invoke(env, ctx, st, tool, arguments);
            var (after', invocation') := Invoke(env, ctx', st', tool, arguments');
            && invocation == invocation' && !invocation.status.ApprovalRequired?
            && after.world == after'.world && after.calls == after'.calls
  {
    RecordChange(env, ctx, st, tool, arguments);
    RecordChange(env, ctx', st', tool, arguments');
  }

  /** A command whose plan has one record change, told three ways: `first` is the run that stops for the
      confirmation, `whole` the run with that confirmation already granted, and `second` the re-sent
      command resuming what was kept, over the records as the stop left them. */
  datatype Story<!W> = Story(
    env: Env<W>,
    steps: seq<PlanStep>,
    ctx: Context, st: State<W>,
    granted: Context, stGranted: State<W>,
    resent: Context, stResent: State<W>)
  {
    ghost function First(): Progress<W> {
      Run(env, ctx, steps, Start(st, map[]))
    }

    ghost function Whole(): Progress<W> {
      Run(env, granted, steps, Start(stGranted, map[]))
    }

    ghost function Second(): Progress<W>
      requires resent.approvalId.Some? && resent.approvalId.value in stResent.approvals
    {
      var (remaining, earlier) := Resume(stResent.approvals[resent.approvalId.value]);
      Run(env, resent, remaining, Start(stResent, earlier))
    }

    /** The plan passed its checks and the one-change rule, and stopped. */
    ghost predicate Asked() {
      && Registered(env) && ValidPlan(steps) && RecordChanges(env, steps) <= 1
      && First().stopped
      && AskedFor(First().results).Some? && Keep(steps, First().results).Some?
    }

    /** Validation accepts the confirmed arguments unchanged, and both confirmations are of exactly them. */
    ghost predicate Granted()
      requires Asked()
    {
      var c := AskedFor(First().results).value;
      && ctx.principal == granted.principal == resent.principal
      && c.tool in env.tools
      && Check(env, ctx.principal, env.tools[c.tool], c.arguments) == Ok(c.arguments)
      && stGranted.world == st.world && stGranted.calls == st.calls
      && Confirmed(granted, stGranted, c.tool, c.arguments)
      && stResent.world == First().st.world && stResent.calls == First().st.calls
      && Confirmed(resent, stResent, c.tool, c.arguments)
      && stResent.approvals[resent.approvalId.value].resume == Some(Keep(steps, First().results).value.1)
    }
  }

  /** The stop and the resumption together are one uninterrupted run: same results, same handler
      calls with the same arguments, same records. */
  ghost predicate SameAsUninterrupted<W>(first: Progress<W>, second: Progress<W>, whole: Progress<W>) {
    && |first.results| > 0
    && whole.results == first.results[..|first.results| - 1] + second.results
    && whole.st.calls == second.st.calls
    && whole.st.world == second.st.world
  }

  /** No later step that waited for a step failed before the stop got a result in the resumed run. */
  ghost predicate NoLostDependency<W>(steps: seq<PlanStep>, first: Progress<W>, second: Progress<W>) {
    forall i | 0 <= i < |steps| && Blocked(steps[i], first.failed) :: !HasResult(second.results, steps[i].stepId)
  }

  lemma SplitAt<W>(env: Env<W>, ctx: Context, steps: seq<PlanStep>, k: nat, p: Progress<W>)
    requires k < |steps| && !Run(env, ctx, steps[..k], p).stopped
    ensures Run(env, ctx, steps, p) == Run(env, ctx, steps[k + 1..], RunStep(env, ctx, steps[k],
            Run(env, ctx, steps[..k], p)))
  {
    var tail := [steps[k]] + steps[k + 1..];
    assert steps == steps[..k] + tail;
    RunSplit(env, ctx, steps[..k], tail, p);
    assert tail[1..] == steps[k + 1..];
  }

  /** The confirmed step, run after the same steps or first in a resumed plan, leaves the runs in step. */
  lemma ChangeInStep<W>(env: Env<W>, granted: Context, u: Progress<W>, resent: Context, stResent: State<W>,
      step: PlanStep, confirmed: Args, kept: map<string, Value>, after: seq<PlanStep>, present: set<string>)
    requires Registered(env) && step.tool in env.tools && env.tools[step.tool].risk == HighRisk
            && granted.principal == resent.principal
    requires !u.stopped && !Blocked(step, u.failed) && u.failed !! present && step.stepId in present
    requires forall i | 0 <= i < |after| :: after[i].stepId in present
    requires ResolveAll(step.arguments, step.bindings, u.completed).Ok?
    requires Check(env, granted.principal, env.tools[step.tool], ResolveAll(step.arguments, step.bindings,
            u.completed).value) == Ok(confirmed)
    requires Check(env, granted.principal, env.tools[step.tool], confirmed) == Ok(confirmed)
    requires Confirmed(granted, u.st, step.tool, confirmed) && Confirmed(resent, stResent, step.tool, confirmed)
    requires u.st.world == stResent.world && u.st.calls == stResent.calls
    requires AllAgree(after, u.completed, kept)
    ensures var r := RunStep(env, resent, ConfirmedStep(step, confirmed), Start(stResent, kept));
            && InStep(after, present, u.failed, u.results, RunStep(env, granted, step, u), r)
            && |r.results| == 1 && r.results[0].stepId == step.stepId
  {
    var resolved := ResolveAll(step.arguments, step.bindings, u.completed).value;
    ConfirmedAlike(env, granted, u.st, resolved, resent, stResent, confirmed, step.tool, confirmed);
    var result := ResultOf(step, Invoke(env, granted, u.st, step.tool, resolved).1);
    assert result == ResultOf(ConfirmedStep(step, confirmed), Invoke(env, resent, stResent, step.tool, confirmed).1);
    SameResultInStep(after, present, u, RunStep(env, granted, step, u),
        RunStep(env, resent, ConfirmedStep(step, confirmed), Start(stResent, kept)), kept, result);
  }

  /** Two runs that end a step with the same result are in step after it. */
  lemma SameResultInStep<W>(after: seq<PlanStep>, present: set<string>, u: Progress<W>, next: Progress<W>,
      r: Progress<W>, kept: map<string, Value>, result: StepResult)
    requires !next.stopped && !r.stopped && next.results == u.results + [result] && r.results == [result]
    requires next.st.world == r.st.world && next.st.calls == r.st.calls
    requires if result.Ok() then next.completed == u.completed[result.stepId := OutputOf(result)]
            && r.completed == kept[result.stepId := OutputOf(result)]
             else next.completed == u.completed && r.completed == kept
    requires r.failed == (if result.Ok() then {} else {result.stepId}) && next.failed == u.failed + r.failed
    requires u.failed !! present && result.stepId in present && AllAgree(after, u.completed, kept)
    requires forall i | 0 <= i < |after| :: after[i].stepId in present
    ensures InStep(after, present, u.failed, u.results, next, r)
  {
    StillAgree(after, u.completed, kept, result.stepId, OutputOf(result));
  }

  /** After the confirmed step, the uninterrupted and the resumed run are in step. */
  lemma AtTheChange<W>(s: Story<W>, first: Progress<W>, whole: Progress<W>, second: Progress<W>)
      returns (k: nat, u: Progress<W>, r: Progress<W>)
    requires s.Asked() && s.Granted() && first == s.First() && whole == s.Whole() && second == s.Second()
    ensures k < |s.steps| && NoChange(s.env, s.steps[k + 1..]) && |first.results| > 0
    ensures Remaining(s.steps, first.results) == s.steps[k..]
    ensures var before := first.results[..|first.results| - 1];
            && !Blocked(s.steps[k], first.failed) && first.failed <= IdSet(s.steps[..k])
            && InStep(s.steps[k + 1..], IdSet(s.steps[k..]), first.failed, before, u, r)
            && AllFrom(before, s.steps[..k])
            && |r.results| == 1 && r.results[0].stepId == s.steps[k].stepId
    ensures var row := s.stResent.approvals[s.resent.approvalId.value];
            && row.tool == s.steps[k].tool
            && r == RunStep(s.env, s.resent, ConfirmedStep(s.steps[k], row.arguments), Start(s.stResent, Resume(row).1))
    ensures whole == Run(s.env, s.granted, s.steps[k + 1..], u)
    ensures second == Run(s.env, s.resent, TrimAll(s.steps[k + 1..], IdSet(s.steps[k..])), r)
  {
    var env, steps, ctx, granted, resent := s.env, s.steps, s.ctx, s.granted, s.resent;
    k := StopShape(env, ctx, steps, s.st);
    var step, after, present := steps[k], steps[k + 1..], IdSet(steps[k..]);
    var start, start' := Start(s.st, map[]), Start(s.stGranted, map[]);
    var before := Run(env, ctx, steps[..k], start);
    var before' := Run(env, granted, steps[..k], start');
    SameBefore(env, ctx, granted, steps[..k], start, start');
    ResultsGrow(env, ctx, steps[..k], start);
    var row := s.stResent.approvals[resent.approvalId.value];
    var kept := Outputs(before.results, after);
    var confirmed := ConfirmedStep(step, row.arguments);
    u := RunStep(env, granted, step, before');
    r := RunStep(env, resent, confirmed, Start(s.stResent, kept));
    KeptAreNeeded(before.results, after);
    IdsSplit(steps, k);
    TailIds(steps, k, after);
    ChangeInStep(env, granted, before', resent, s.stResent, step, row.arguments, kept, after, present);
    SplitAt(env, granted, steps, k, start');
    ResumedPlan(row, steps, k, kept);
    SecondStarts(env, resent, confirmed, TrimAll(after, present), Start(s.stResent, kept));
  }

  lemma SecondStarts<W>(env: Env<W>, ctx: Context, step: PlanStep, rest: seq<PlanStep>, p: Progress<W>)
    requires !p.stopped
    ensures Run(env, ctx, [step] + rest, p) == Run(env, ctx, rest, RunStep(env, ctx, step, p))
  {
    assert ([step] + rest)[1..] == rest;
  }

  lemma TailIds(steps: seq<PlanStep>, k: nat, after: seq<PlanStep>)
    requires k < |steps| && after == steps[k + 1..]
    ensures steps[k].stepId in IdSet(steps[k..])
    ensures forall i | 0 <= i < |after| :: after[i].stepId in IdSet(steps[k..])
  {
    var tail := steps[k..];
    assert tail[0] == steps[k];
    assert forall i | 0 <= i < |after| :: after[i] == tail[i + 1];
  }

  lemma KeptAreNeeded(results: seq<StepResult>, after: seq<PlanStep>)
    ensures AllAgree(after, AllOutputs(results), Outputs(results, after))
  {
    forall i | 0 <= i < |after| ensures AgreeOn(after[i].Inputs(), AllOutputs(results), Outputs(results, after)) {
      forall s | References(after[i].Inputs(), s)
        ensures (s in AllOutputs(results) <==> s in Outputs(results, after))
                && (s in AllOutputs(results) ==> AllOutputs(results)[s] == Outputs(results, after)[s])
      {
        assert Needed(after, s);
        KeptAgrees(results, after, s);
      }
    }
  }

  lemma StayedInStep<W>(env: Env<W>, granted: Context, resent: Context, steps: seq<PlanStep>, k: nat,
      first: Progress<W>, u: Progress<W>, r: Progress<W>, whole: Progress<W>, second: Progress<W>)
    requires k < |steps| && |first.results| > 0
    requires NoChange(env, steps[k + 1..]) && granted.principal == resent.principal
    requires InStep(steps[k + 1..], IdSet(steps[k..]), first.failed, first.results[..|first.results| - 1], u, r)
    requires whole == Run(env, granted, steps[k + 1..], u)
    requires second == Run(env, resent, TrimAll(steps[k + 1..], IdSet(steps[k..])), r)
    requires NoLostDependency(steps, first, second)
    ensures SameAsUninterrupted(first, second, whole)
  {
    var after := steps[k + 1..];
    forall i | 0 <= i < |after| && Blocked(after[i], first.failed) ensures !HasResult(second.results, after[i].stepId) {
      assert after[i] == steps[k + 1 + i];
    }
    StayInStep(env, granted, resent, after, IdSet(steps[k..]), first.failed, first.results[..|first.results| - 1], u,
        r);
  }

  /** A step before the stop is not run again. */
  lemma EarlierNotResumed<W>(env: Env<W>, resent: Context, steps: seq<PlanStep>, k: nat, r: Progress<W>, i: nat)
    requires i < k < |steps| && UniqueSteps(steps)
    requires |r.results| == 1 && r.results[0].stepId == steps[k].stepId
    ensures !HasResult(Run(env, resent, TrimAll(steps[k + 1..], IdSet(steps[k..])), r).results, steps[i].stepId)
  {
    var trimmed := TrimAll(steps[k + 1..], IdSet(steps[k..]));
    IdsSplit(steps, k);
    ResultsGrow(env, resent, trimmed, r);
    SecondIds(steps, k, i, Run(env, resent, trimmed, r).results, r.results);
  }

  lemma NotResumed<W>(env: Env<W>, granted: Context, resent: Context, steps: seq<PlanStep>, k: nat, first: Progress<W>,
      u: Progress<W>, r: Progress<W>, whole: Progress<W>, second: Progress<W>, i: nat)
    requires k < |steps| && UniqueSteps(steps) && |first.results| > 0 && i < |steps|
    requires !Blocked(steps[k], first.failed) && Blocked(steps[i], first.failed)
    requires InStep(steps[k + 1..], IdSet(steps[k..]), first.failed, first.results[..|first.results| - 1], u, r)
    requires AllFrom(first.results[..|first.results| - 1], steps[..k])
    requires |r.results| == 1 && r.results[0].stepId == steps[k].stepId
    requires whole == Run(env, granted, steps[k + 1..], u)
    requires second == Run(env, resent, TrimAll(steps[k + 1..], IdSet(steps[k..])), r)
    requires SameAsUninterrupted(first, second, whole)
    ensures !HasResult(second.results, steps[i].stepId)
  {
    var after, present := steps[k + 1..], IdSet(steps[k..]);
    var before := first.results[..|first.results| - 1];
    IdsSplit(steps, k);
    if i < k {
      EarlierNotResumed(env, resent, steps, k, r, i);
    } else {
      assert i > k && after[i - k - 1] == steps[i];
      assert Blocked(steps[i], u.failed);
      UniqueAfter(steps, k, i, before, r.results);
      BlockedHasNoResult(env, granted, after, u, i - k - 1);
      assert forall j | 0 <= j < |second.results| :: whole.results[|before| + j] == second.results[j];
    }
  }

  lemma NoneResumed<W>(env: Env<W>, granted: Context, resent: Context, steps: seq<PlanStep>, k: nat,
      first: Progress<W>, u: Progress<W>, r: Progress<W>, whole: Progress<W>, second: Progress<W>)
    requires k < |steps| && UniqueSteps(steps) && |first.results| > 0
    requires !Blocked(steps[k], first.failed)
    requires InStep(steps[k + 1..], IdSet(steps[k..]), first.failed, first.results[..|first.results| - 1], u, r)
    requires AllFrom(first.results[..|first.results| - 1], steps[..k])
    requires |r.results| == 1 && r.results[0].stepId == steps[k].stepId
    requires whole == Run(env, granted, steps[k + 1..], u)
    requires second == Run(env, resent, TrimAll(steps[k + 1..], IdSet(steps[k..])), r)
    requires SameAsUninterrupted(first, second, whole)
    ensures NoLostDependency(steps, first, second)
  {
    forall i | 0 <= i < |steps| && Blocked(steps[i], first.failed) ensures !HasResult(second.results, steps[i].stepId) {
      NotResumed(env, granted, resent, steps, k, first, u, r, whole, second, i);
    }
  }

  /** Resuming preserves the meaning of the plan exactly when no step that lost a failed dependency ran. */
  lemma ResumeMeansTheSame<W>(s: Story<W>, first: Progress<W>, whole: Progress<W>, second: Progress<W>)
    requires s.Asked() && s.Granted() && first == s.First() && whole == s.Whole() && second == s.Second()
    ensures SameAsUninterrupted(first, second, whole) <==> NoLostDependency(s.steps, first, second)
  {
    var k, u, r := AtTheChange(s, first, whole, second);
    if NoLostDependency(s.steps, first, second) {
      StayedInStep(s.env, s.granted, s.resent, s.steps, k, first, u, r, whole, second);
    }
    if SameAsUninterrupted(first, second, whole) {
      NoneResumed(s.env, s.granted, s.resent, s.steps, k, first, u, r, whole, second);
    }
  }

  ghost predicate NoneBlocked(steps: seq<PlanStep>, failed: set<string>) {
    forall i | 0 <= i < |steps| :: !Blocked(steps[i], failed)
  }

  /** The condition as it can be checked when the confirmation is asked for: no later step waits for a failed one. */
  lemma ResumeKeepsMeaning<W>(s: Story<W>, first: Progress<W>, whole: Progress<W>, second: Progress<W>)
    requires s.Asked() && s.Granted() && first == s.First() && whole == s.Whole() && second == s.Second()
    requires NoneBlocked(Remaining(s.steps, first.results)[1..], first.failed)
    ensures SameAsUninterrupted(first, second, whole)
  {
    var k, u, r := AtTheChange(s, first, whole, second);
    forall i | 0 <= i < |s.steps| && Blocked(s.steps[i], first.failed)
        ensures !HasResult(second.results, s.steps[i].stepId) {
      if i < k {
        EarlierNotResumed(s.env, s.resent, s.steps, k, r, i);
      } else {
        NotBlockedFrom(s.steps, k, first.failed, i);
      }
    }
    ResumeMeansTheSame(s, first, whole, second);
  }

  lemma NotBlockedFrom(steps: seq<PlanStep>, k: nat, failed: set<string>, i: nat)
    requires k <= i < |steps| && !Blocked(steps[k], failed) && NoneBlocked(steps[k..][1..], failed)
    ensures !Blocked(steps[i], failed)
  {
    if i > k {
      assert steps[k..][1..][i - k - 1] == steps[i];
    }
  }

  /** When the later steps that wait for a failed step wait for nothing still to run, the condition is exact: the
      resumption changes the meaning of the plan as soon as there is one of them. */
  lemma ResumeMeansTheSameExactlyWhen<W>(s: Story<W>, first: Progress<W>, whole: Progress<W>, second: Progress<W>)
    requires s.Asked() && s.Granted() && first == s.First() && whole == s.Whole() && second == s.Second()
    requires var remaining := Remaining(s.steps, first.results);
             forall i | 1 <= i < |remaining| && Blocked(remaining[i], first.failed) ::
                 !Blocked(remaining[i], IdSet(remaining))
    ensures SameAsUninterrupted(first, second, whole) <==>
            NoneBlocked(Remaining(s.steps, first.results)[1..], first.failed)
  {
    if NoneBlocked(Remaining(s.steps, first.results)[1..], first.failed) {
      ResumeKeepsMeaning(s, first, whole, second);
    } else {
      DependencyWasLost(s, first, whole, second);
      ResumeMeansTheSame(s, first, whole, second);
    }
  }

  lemma DependencyWasLost<W>(s: Story<W>, first: Progress<W>, whole: Progress<W>, second: Progress<W>)
    requires s.Asked() && s.Granted() && first == s.First() && whole == s.Whole() && second == s.Second()
    requires var remaining := Remaining(s.steps, first.results);
             && !NoneBlocked(remaining[1..], first.failed)
             && forall i | 1 <= i < |remaining| && Blocked(remaining[i], first.failed) ::
                 !Blocked(remaining[i], IdSet(remaining))
    ensures !NoLostDependency(s.steps, first, second)
  {
    var k, u, r := AtTheChange(s, first, whole, second);
    var i := BlockedLater(s.steps, k, first.failed);
    DependencyIsLost(s.env, s.resent, s.steps, k, r, first, second, i);
  }

  lemma BlockedLater(steps: seq<PlanStep>, k: nat, failed: set<string>) returns (i: nat)
    requires k < |steps| && !NoneBlocked(steps[k..][1..], failed)
    requires forall i | 1 <= i < |steps[k..]| && Blocked(steps[k..][i], failed) ::
            !Blocked(steps[k..][i], IdSet(steps[k..]))
    ensures k + 1 + i < |steps| && Blocked(steps[k + 1 + i], failed) && !Blocked(steps[k + 1 + i], IdSet(steps[k..]))
  {
    var remaining := steps[k..];
    i :| 0 <= i < |remaining[1..]| && Blocked(remaining[1..][i], failed);
    assert remaining[i + 1] == steps[k + 1 + i];
  }

  lemma DependencyIsLost<W>(env: Env<W>, resent: Context, steps: seq<PlanStep>, k: nat, r: Progress<W>,
      first: Progress<W>, second: Progress<W>, i: nat)
    requires k + 1 + i < |steps| && NoChange(env, steps[k + 1..]) && !r.stopped
    requires second == Run(env, resent, TrimAll(steps[k + 1..], IdSet(steps[k..])), r)
    requires Blocked(steps[k + 1 + i], first.failed) && !Blocked(steps[k + 1 + i], IdSet(steps[k..]))
    ensures !NoLostDependency(steps, first, second)
  {
    assert steps[k + 1..][i] == steps[k + 1 + i];
    ResumedAnyway(env, resent, steps[k + 1..], IdSet(steps[k..]), r, i);
  }

  /** A step that waits for nothing still to run is reached in the resumed run. */
  lemma ResumedAnyway<W>(env: Env<W>, ctx: Context, after: seq<PlanStep>, present: set<string>, r: Progress<W>, i: nat)
    requires NoChange(env, after) && !r.stopped && i < |after| && !Blocked(after[i], present)
    ensures HasResult(Run(env, ctx, TrimAll(after, present), r).results, after[i].stepId)
  {
    var trimmed := TrimAll(after, present);
    forall d ensures d !in trimmed[i].dependsOn {
      PresentMembers(after[i].dependsOn, present, d);
    }
    TrimmedChanges(env, after, present);
    RunningAfter(env, ctx, trimmed[..i], r);
    assert trimmed == trimmed[..i] + trimmed[i..];
    RunSplit(env, ctx, trimmed[..i], trimmed[i..], r);
    ReachedHasResult(env, ctx, trimmed[i..], Run(env, ctx, trimmed[..i], r));
  }

  lemma SecondIds(steps: seq<PlanStep>, k: nat, i: nat, results: seq<StepResult>, start: seq<StepResult>)
    requires i < k < |steps| && UniqueIds(steps, k)
    requires start <= results && |start| == 1 && start[0].stepId == steps[k].stepId
    requires forall j | 1 <= j < |results| :: results[j].stepId in IdSet(TrimAll(steps[k + 1..], IdSet(steps[k..])))
    ensures !HasResult(results, steps[i].stepId)
  {
    assert steps[i].stepId in IdSet(steps[..k]) by { assert steps[..k][i] == steps[i]; }
    forall j | 0 <= j < |results| ensures results[j].stepId in IdSet(steps[k..]) {
      if j == 0 {
        assert results[0] == start[0] && steps[k..][0] == steps[k];
      } else {
        var trimmed := TrimAll(steps[k + 1..], IdSet(steps[k..]));
        assert results[j].stepId in IdSet(trimmed);
        var m :| 0 <= m < |trimmed| && trimmed[m].stepId == results[j].stepId;
        assert steps[k..][m + 1] == steps[k + 1..][m];
      }
    }
  }

  lemma UniqueAfter(steps: seq<PlanStep>, k: nat, i: nat, before: seq<StepResult>, one: seq<StepResult>)
    requires k < i < |steps| && UniqueSteps(steps)
    requires AllFrom(before, steps[..k])
    requires |one| == 1 && one[0].stepId == steps[k].stepId
    ensures !HasResult(before + one, steps[i].stepId) && UniqueSteps(steps[k + 1..])
  {
    IdsSplit(steps, k);
    assert steps[i].stepId in IdSet(steps[k..]) by { assert steps[k..][i - k] == steps[i]; }
  }
}
