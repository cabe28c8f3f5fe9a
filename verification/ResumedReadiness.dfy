/** When the rest of a plan, resumed with the outputs that were kept, may read from a step that has left none
    (apps/api/app/agents/master.py, `_resume`, `_keep_for_resume` and `execute`). */
module ResumedReadiness {
  import opened Values
  import opened Contracts
  import opened Spec
  import opened Bindings
  import opened Gateway
  import opened Master
  import opened Resumption
  import opened ScriptedTools
  import opened PlanReadiness

  // ------------------------------------------------------------------- what is resumed

  /** The re-sent command names a row of the call that was asked for, with the plan that was kept; whether the row can
      still be used does not matter. */
  ghost predicate Carried<W>(s: Story<W>)
    requires s.Asked()
  {
    && s.resent.approvalId.Some? && s.resent.approvalId.value in s.stResent.approvals
    && var row := s.stResent.approvals[s.resent.approvalId.value];
      && row.tool == AskedFor(s.First().results).value.tool
      && row.resume == Some(Keep(s.steps, s.First().results).value.1)
  }

  /** The plan that the re-sent command runs, and the outputs it starts from. */
  ghost function Resumed<W>(s: Story<W>): (seq<PlanStep>, map<string, Value>)
    requires s.Asked() && Carried(s)
  {
    Resume(s.stResent.approvals[s.resent.approvalId.value])
  }

  /** The rest of `steps` from step `k` on, as it is resumed. */
  function Rest(steps: seq<PlanStep>, k: nat, arguments: Args): (rest: seq<PlanStep>)
    requires k < |steps|
    ensures |rest| == |steps| - k
  {
    [ConfirmedStep(steps[k], arguments)] + TrimAll(steps[k + 1..], IdSet(steps[k..]))
  }

  lemma RestAt(steps: seq<PlanStep>, k: nat, arguments: Args, m: nat)
    requires k < |steps| && m < |steps| - k
    ensures var rest, step := Rest(steps, k, arguments), steps[k + m];
            && rest[m].stepId == step.stepId
            && (m == 0 ==> rest[m] == ConfirmedStep(step, arguments))
            && (m > 0 ==> rest[m] == Trimmed(step, IdSet(steps[k..])))
  {
  }

  lemma RestWaits(steps: seq<PlanStep>, k: nat, arguments: Args, m: nat, i: nat)
    requires k + m < |steps| && i < m && steps[k + i].stepId in steps[k + m].dependsOn
    ensures var rest := Rest(steps, k, arguments); rest[i].stepId in rest[m].dependsOn
  {
    RestAt(steps, k, arguments, m);
    RestAt(steps, k, arguments, i);
    assert steps[k..][i] == steps[k + i];
    PresentMembers(steps[k + m].dependsOn, IdSet(steps[k..]), steps[k + i].stepId);
  }

  lemma RestIds(steps: seq<PlanStep>, k: nat, arguments: Args)
    requires k < |steps|
    ensures IdSet(Rest(steps, k, arguments)) == IdSet(steps[k..])
  {
    var rest := Rest(steps, k, arguments);
    forall m | 0 <= m < |rest| ensures rest[m].stepId == steps[k..][m].stepId {
      RestAt(steps, k, arguments, m);
    }
  }

  lemma RestIsUnique(steps: seq<PlanStep>, k: nat, arguments: Args)
    requires UniqueSteps(steps) && k < |steps|
    ensures UniqueSteps(Rest(steps, k, arguments))
  {
    var rest := Rest(steps, k, arguments);
    forall i, j | 0 <= i < j < |rest| ensures rest[i].stepId != rest[j].stepId {
      RestAt(steps, k, arguments, i);
      RestAt(steps, k, arguments, j);
    }
  }

  ghost predicate CastWaits(steps: seq<PlanStep>, k: nat, cast: set<nat>)
    requires k <= |steps|
  {
    forall j: nat | j in cast :: j < k && WaitsForCast(steps, cast, j)
  }

  /** Of the steps before step `k`, just those of `cast` have succeeded; what later steps need of them is kept. */
  ghost predicate StoppedAt(steps: seq<PlanStep>, k: nat, failed: set<string>, cast: set<nat>,
      kept: map<string, Value>)
  {
    && UniqueSteps(steps) && k < |steps| && Unfailed(steps, k, cast, failed)
    && CastWaits(steps, k, cast) && kept.Keys <= Named(steps, cast, k)
    && forall j: nat | j < k && j in cast && Needed(steps[k + 1..], steps[j].stepId) :: steps[j].stepId in kept
  }

  lemma {:induction false} KeptIsOutput(results: seq<StepResult>, rest: seq<PlanStep>)
    ensures Outputs(results, rest).Keys <= AllOutputs(results).Keys
  {
    if results != [] {
      KeptIsOutput(results[..|results| - 1], rest);
    }
  }

  /** What is kept of a run that has got as far as step `k`. */
  lemma KeptOfCast<W>(env: Env<W>, principal: string, steps: seq<PlanStep>, k: nat, cast: set<nat>, p: Progress<W>)
    requires UniqueSteps(steps) && k < |steps| && HasCast(env, principal, steps, map[], k, cast, p)
    requires (forall j | j in cast :: j < k) && p.completed == AllOutputs(p.results)
    ensures StoppedAt(steps, k, p.failed, cast, Outputs(p.results, steps[k + 1..]))
  {
    var later := steps[k + 1..];
    KeptIsOutput(p.results, later);
    assert p.completed == Only(p.completed, Named(steps, cast, k));
    forall j: nat | j in cast
      ensures WaitsForCast(steps, cast, j)
      ensures Needed(later, steps[j].stepId) ==> steps[j].stepId in Outputs(p.results, later)
    {
      OutputIsKept(env, principal, steps, k, cast, p.results, j);
    }
  }

  lemma OutputIsKept<W>(env: Env<W>, principal: string, steps: seq<PlanStep>, k: nat, cast: set<nat>,
      results: seq<StepResult>, j: nat)
    requires j < k < |steps| && CanSucceed(env, principal, steps, map[], cast, AllOutputs(results), j)
    ensures WaitsForCast(steps, cast, j)
    ensures Needed(steps[k + 1..], steps[j].stepId) ==> steps[j].stepId in Outputs(results, steps[k + 1..])
  {
    if Needed(steps[k + 1..], steps[j].stepId) {
      KeptAgrees(results, steps[k + 1..], steps[j].stepId);
    }
  }

  /** The run that stopped, and the plan that is resumed. */
  lemma AtTheStop<W>(s: Story<W>) returns (k: nat, cast: set<nat>, arguments: Args)
    requires s.Asked() && Carried(s)
    ensures StoppedAt(s.steps, k, s.First().failed, cast, Resumed(s).1)
    ensures !Blocked(s.steps[k], s.First().failed) && NoChange(s.env, s.steps[k + 1..])
    ensures s.steps[k].tool in s.env.tools && s.env.tools[s.steps[k].tool].risk == HighRisk
    ensures var row := s.stResent.approvals[s.resent.approvalId.value];
            row.tool == s.steps[k].tool && row.arguments == arguments
    ensures Resumed(s).0 == Rest(s.steps, k, arguments) && Remaining(s.steps, s.First().results) == s.steps[k..]
  {
    k := StopShape(s.env, s.ctx, s.steps, s.st);
    var row := s.stResent.approvals[s.resent.approvalId.value];
    arguments := row.arguments;
    var before := Before(s.env, s.ctx, s.steps, k, s.st, map[]);
    cast := RunHasCast(s.env, s.ctx, s.steps, k, s.st, map[]);
    KeptOfCast(s.env, s.ctx.principal, s.steps, k, cast, before);
    ResumedPlan(row, s.steps, k, Outputs(before.results, s.steps[k + 1..]));
    IdsSplit(s.steps, k);
  }

  lemma KeptIsEarlier(steps: seq<PlanStep>, k: nat, failed: set<string>, cast: set<nat>, kept: map<string, Value>,
      arguments: Args)
    requires StoppedAt(steps, k, failed, cast, kept)
    ensures IdSet(Rest(steps, k, arguments)) !! kept.Keys && UniqueSteps(Rest(steps, k, arguments))
  {
    RestIds(steps, k, arguments);
    RestIsUnique(steps, k, arguments);
    IdsSplit(steps, k);
    NamedAreEarlier(steps, cast, k);
  }

  // ------------------------------------------------------------------- the steps that ran

  lemma {:induction false} UnfailedHasResult<W>(env: Env<W>, ctx: Context, steps: seq<PlanStep>, p: Progress<W>, i: nat)
    requires i < |steps| && !Run(env, ctx, steps, p).stopped && steps[i].stepId !in Run(env, ctx, steps, p).failed
    ensures HasResult(Run(env, ctx, steps, p).results, steps[i].stepId)
    decreases |steps|
  {
    var next := RunStep(env, ctx, steps[0], p);
    ResultsGrow(env, ctx, steps[1..], next);
    if i > 0 {
      UnfailedHasResult(env, ctx, steps[1..], next, i - 1);
    } else {
      ReachedHasResult(env, ctx, steps, p);
    }
  }

  lemma ResultStays<W>(env: Env<W>, ctx: Context, steps: seq<PlanStep>, m: nat, p: Progress<W>, id: string)
    requires m <= |steps| && HasResult(Run(env, ctx, steps[..m], p).results, id)
    ensures HasResult(Run(env, ctx, steps, p).results, id)
  {
    var front := Run(env, ctx, steps[..m], p);
    assert steps == steps[..m] + steps[m..];
    RunSplit(env, ctx, steps[..m], steps[m..], p);
    ResultsGrow(env, ctx, steps[m..], front);
    var i :| 0 <= i < |front.results| && front.results[i].stepId == id;
    assert Run(env, ctx, steps, p).results[i] == front.results[i];
  }

  /** The steps of the first run that succeeded, and those of the resumed one. */
  ghost function Joined(cast: set<nat>, k: nat, later: set<nat>): set<nat> {
    cast + set m | m in later :: k + m
  }

  ghost predicate WaitsForBoth(steps: seq<PlanStep>, k: nat, cast: set<nat>, later: set<nat>, i: nat) {
    k + i < |steps| && WaitsForCast(steps, Joined(cast, k, later), k + i)
  }

  /** Step `m` of the rest, and those of it before that succeeded, wait for steps that succeeded. */
  ghost predicate AllWaitForBoth(steps: seq<PlanStep>, k: nat, cast: set<nat>, later: set<nat>, m: nat) {
    forall i: nat | i <= m && (i == m || i in later) :: WaitsForBoth(steps, k, cast, later, i)
  }

  /** A resumed step that lost no failed dependency waits, as in the whole plan, for steps that succeeded. */
  lemma StillWaits(steps: seq<PlanStep>, k: nat, failed: set<string>, cast: set<nat>, kept: map<string, Value>,
      arguments: Args, later: set<nat>, m: nat)
    requires StoppedAt(steps, k, failed, cast, kept) && m < |steps| - k
    requires WaitsForCast(Rest(steps, k, arguments), later, m) && !Blocked(steps[k + m], failed)
    ensures WaitsForBoth(steps, k, cast, later, m)
  {
    forall j: nat | j < k + m && steps[j].stepId in steps[k + m].dependsOn ensures j in Joined(cast, k, later) {
      if j >= k {
        RestWaits(steps, k, arguments, m, j - k);
        assert j == k + (j - k);
      }
    }
  }

  // ------------------------------------------------------------------- the theorem

  lemma CoveredReads(steps: seq<PlanStep>, i: nat, b: nat) returns (j: nat)
    requires Covered(steps, {}) && i < |steps| && b < |steps[i].bindings|
    ensures j < i && Awaits(steps, i, j) && RefersToStep(steps[i].bindings[b].1, steps[j].stepId)
  {
    assert CoveredBinding(steps, {}, i, steps[i].bindings[b].1);
    j :| j < i && Awaits(steps, i, j) && RefersToStep(steps[i].bindings[b].1, steps[j].stepId);
  }

  lemma BothWaitForBoth(steps: seq<PlanStep>, k: nat, cast: set<nat>, later: set<nat>, m: nat)
    requires k + m < |steps| && CastWaits(steps, k, cast)
    requires AllWaitForBoth(steps, k, cast, later, m)
    ensures forall j: nat | j < k + m && j in Joined(cast, k, later) :: WaitsForCast(steps, Joined(cast, k, later), j)
  {
    forall j: nat | j < k + m && j in Joined(cast, k, later) ensures WaitsForCast(steps, Joined(cast, k, later), j) {
      if j < k {
        assert j in cast && WaitsForCast(steps, cast, j);
      } else {
        assert j - k in later && WaitsForBoth(steps, k, cast, later, j - k);
      }
    }
  }

  lemma AwaitedSucceeded(steps: seq<PlanStep>, k: nat, cast: set<nat>, later: set<nat>, m: nat, j: nat)
    requires k + m < |steps| && CastWaits(steps, k, cast) && AllWaitForBoth(steps, k, cast, later, m)
    requires Awaits(steps, k + m, j)
    ensures j in Joined(cast, k, later)
  {
    BothWaitForBoth(steps, k, cast, later, m);
    assert WaitsForBoth(steps, k, cast, later, m);
    AwaitedAreCast(steps, Joined(cast, k, later), k + m, j);
  }

  /** The step that a covered binding of step `m` of the rest refers to has succeeded, before the stop or after it. */
  lemma ReadsOfSucceeded(steps: seq<PlanStep>, k: nat, cast: set<nat>, m: nat, later: set<nat>, b: nat) returns (j: nat)
    requires k + m < |steps| && CastWaits(steps, k, cast) && AllWaitForBoth(steps, k, cast, later, m)
    requires Covered(steps, {}) && b < |steps[k + m].bindings|
    ensures j < k + m && j in Joined(cast, k, later) && RefersToStep(steps[k + m].bindings[b].1, steps[j].stepId)
  {
    j := CoveredReads(steps, k + m, b);
    AwaitedSucceeded(steps, k, cast, later, m, j);
  }

  /** The outputs with which step `m` of the rest runs: the kept ones, and those of the resumed steps that succeeded. */
  ghost predicate Available(rest: seq<PlanStep>, m: nat, later: set<nat>, kept: map<string, Value>,
      completed: map<string, Value>)
    requires m <= |rest|
  {
    kept.Keys <= completed.Keys && forall j: nat | j < m && j in later :: rest[j].stepId in completed
  }

  lemma NeededWhenRead(steps: seq<PlanStep>, k: nat, m: nat, b: nat, id: string)
    requires 0 < m && k + m < |steps| && b < |steps[k + m].bindings| && RefersToStep(steps[k + m].bindings[b].1, id)
    ensures Needed(steps[k + 1..], id)
  {
    assert steps[k + 1..][m - 1] == steps[k + m];
    assert Mentions(steps[k + 1..][m - 1].Inputs().bindings[b].1, id);
  }

  lemma SucceededIsAvailable(steps: seq<PlanStep>, k: nat, failed: set<string>, cast: set<nat>,
      kept: map<string, Value>, arguments: Args, m: nat, later: set<nat>, completed: map<string, Value>, j: nat)
    requires StoppedAt(steps, k, failed, cast, kept) && k + m < |steps|
    requires Available(Rest(steps, k, arguments), m, later, kept, completed)
    requires j < k + m && j in Joined(cast, k, later) && (j < k ==> Needed(steps[k + 1..], steps[j].stepId))
    ensures steps[j].stepId in completed
  {
    if j < k {
      assert steps[j].stepId in kept;
    } else {
      RestAt(steps, k, arguments, j - k);
    }
  }

  /** Whatever a covered step reads has an output when the step runs. */
  lemma ReadsWhatIsThere(steps: seq<PlanStep>, k: nat, failed: set<string>, cast: set<nat>, kept: map<string, Value>,
      arguments: Args, m: nat, later: set<nat>, completed: map<string, Value>, b: nat)
    requires StoppedAt(steps, k, failed, cast, kept) && Covered(steps, {})
    requires 0 < m && k + m < |steps| && b < |steps[k + m].bindings|
    requires Available(Rest(steps, k, arguments), m, later, kept, completed)
    requires AllWaitForBoth(steps, k, cast, later, m)
    ensures var parsed := ParseReference(steps[k + m].bindings[b].1); parsed.Some? && parsed.value.step in completed
  {
    var j := ReadsOfSucceeded(steps, k, cast, m, later, b);
    NeededWhenRead(steps, k, m, b, steps[j].stepId);
    SucceededIsAvailable(steps, k, failed, cast, kept, arguments, m, later, completed, j);
  }

  /** What the run of the first `m` steps of the rest has shown when step `m` is about to run. */
  lemma CastIsAvailable<W>(env: Env<W>, principal: string, rest: seq<PlanStep>, kept: map<string, Value>, m: nat,
      later: set<nat>, p: Progress<W>)
    requires m <= |rest| && HasCast(env, principal, rest, kept, m, later, p)
    ensures Available(rest, m, later, kept, p.completed)
    ensures forall j: nat | j < m && j in later :: WaitsForCast(rest, later, j)
  {
    forall j: nat | j < m && j in later ensures WaitsForCast(rest, later, j) && rest[j].stepId in p.completed {
      assert CanSucceed(env, principal, rest, kept, later, p.completed, j);
    }
  }

  /** A step that succeeded before step `m`, or is step `m` reached, has a result in the end. */
  lemma SucceededHasResult<W>(env: Env<W>, ctx: Context, rest: seq<PlanStep>, m: nat, st: State<W>,
      kept: map<string, Value>, later: set<nat>, i: nat)
    requires m < |rest| && i <= m && (i == m || i in later)
    requires var p := Before(env, ctx, rest, m, st, kept);
             !p.stopped && Unfailed(rest, m, later, p.failed) && !Blocked(rest[m], p.failed)
    ensures HasResult(Run(env, ctx, rest, Start(st, kept)).results, rest[i].stepId)
  {
    var p := Before(env, ctx, rest, m, st, kept);
    if i < m {
      assert rest[..m][i] == rest[i];
      UnfailedHasResult(env, ctx, rest[..m], Start(st, kept), i);
      ResultStays(env, ctx, rest, m, Start(st, kept), rest[i].stepId);
    } else {
      assert rest == rest[..m] + rest[m..];
      RunSplit(env, ctx, rest[..m], rest[m..], Start(st, kept));
      ReachedHasResult(env, ctx, rest[m..], p);
    }
  }

  /** The steps of the rest that have a result waited for no failed step. */
  ghost predicate KeepsItsDependencies(steps: seq<PlanStep>, k: nat, failed: set<string>, results: seq<StepResult>)
    requires k <= |steps|
  {
    forall i: nat | k <= i < |steps| && HasResult(results, steps[i].stepId) :: !Blocked(steps[i], failed)
  }

  /** When step `m` of the rest is reached, all that succeeded so far waited for steps that succeeded. */
  lemma ReachedWaits<W>(env: Env<W>, ctx: Context, steps: seq<PlanStep>, k: nat, failed: set<string>, cast: set<nat>,
      kept: map<string, Value>, arguments: Args, st: State<W>, m: nat, later: set<nat>)
    requires StoppedAt(steps, k, failed, cast, kept) && m < |steps| - k
    requires var rest := Rest(steps, k, arguments);
             var p := Before(env, ctx, rest, m, st, kept);
             && KeepsItsDependencies(steps, k, failed, Run(env, ctx, rest, Start(st, kept)).results)
             && !p.stopped && !Blocked(rest[m], p.failed) && Unfailed(rest, m, later, p.failed)
             && forall j: nat | j < m && j in later :: WaitsForCast(rest, later, j)
    ensures AllWaitForBoth(steps, k, cast, later, m)
  {
    var rest := Rest(steps, k, arguments);
    UnblockedWaits(rest, m, later, Before(env, ctx, rest, m, st, kept).failed);
    forall i: nat | i <= m && (i == m || i in later)
      ensures WaitsForBoth(steps, k, cast, later, i)
    {
      SucceededHasResult(env, ctx, rest, m, st, kept, later, i);
      RestAt(steps, k, arguments, i);
      StillWaits(steps, k, failed, cast, kept, arguments, later, i);
    }
  }

  lemma AllThereNotUnknown(steps: seq<PlanStep>, k: nat, failed: set<string>, cast: set<nat>, kept: map<string, Value>,
      arguments: Args, m: nat, later: set<nat>, completed: map<string, Value>)
    requires StoppedAt(steps, k, failed, cast, kept) && Covered(steps, {}) && 0 < m < |steps| - k
    requires Available(Rest(steps, k, arguments), m, later, kept, completed)
    requires AllWaitForBoth(steps, k, cast, later, m)
    ensures !Unknown(Resolved(Rest(steps, k, arguments)[m], completed))
  {
    var step := Rest(steps, k, arguments)[m];
    RestAt(steps, k, arguments, m);
    forall b | 0 <= b < |step.bindings|
      ensures ParseReference(step.bindings[b].1).Some? && ParseReference(step.bindings[b].1).value.step in completed
    {
      ReadsWhatIsThere(steps, k, failed, cast, kept, arguments, m, later, completed, b);
    }
    UnknownStepIsMissing(step.arguments, step.bindings, completed);
  }

  /** A step of the rest that is reached meets no unknown step. */
  lemma RestNeverHits<W>(env: Env<W>, ctx: Context, steps: seq<PlanStep>, k: nat, failed: set<string>, cast: set<nat>,
      kept: map<string, Value>, arguments: Args, st: State<W>, m: nat)
    requires StoppedAt(steps, k, failed, cast, kept) && Covered(steps, {}) && m < |steps| - k
    requires KeepsItsDependencies(steps, k, failed, Run(env, ctx, Rest(steps, k, arguments), Start(st, kept)).results)
    ensures !HitAt(env, ctx, Rest(steps, k, arguments), m, st, kept)
  {
    var rest := Rest(steps, k, arguments);
    RestAt(steps, k, arguments, m);
    if m > 0 && HitAt(env, ctx, rest, m, st, kept) {
      KeptIsEarlier(steps, k, failed, cast, kept, arguments);
      var later := RunHasCast(env, ctx, rest, m, st, kept);
      var p := Before(env, ctx, rest, m, st, kept);
      CastIsAvailable(env, ctx.principal, rest, kept, m, later, p);
      ReachedWaits(env, ctx, steps, k, failed, cast, kept, arguments, st, m, later);
      AllThereNotUnknown(steps, k, failed, cast, kept, arguments, m, later, p.completed);
    }
  }

  /** The resumed run of a covered plan meets no unknown step, unless a step that lost a failed dependency runs. */
  lemma ResumedPlansNeverHitUnknown<W>(s: Story<W>)
    requires s.Asked() && Carried(s) && Covered(s.steps, {}) && NoLostDependency(s.steps, s.First(), s.Second())
    ensures NeverUnknown(s.env, s.resent, Resumed(s).0, Start(s.stResent, Resumed(s).1))
  {
    var k, cast, arguments := AtTheStop(s);
    var rest, kept := Resumed(s).0, Resumed(s).1;
    forall m: nat | m < |rest| ensures !HitAt(s.env, s.resent, rest, m, s.stResent, kept) {
      RestNeverHits(s.env, s.resent, s.steps, k, s.First().failed, cast, kept, arguments, s.stResent, m);
    }
    NeverUnknownMeans(s.env, s.resent, rest, s.stResent, kept);
  }

  // ------------------------------------------------------------------- what the stop tells

  /** The reference is to one of the steps `ids`. */
  predicate Names(reference: string, ids: set<string>) {
    ParseReference(reference).Some? && ParseReference(reference).value.step in ids
  }

  /** No step reads from one of the steps `ids`. */
  ghost predicate NoneReads(later: seq<PlanStep>, ids: set<string>) {
    forall i: nat, b: nat | i < |later| && b < |later[i].bindings| :: !Names(later[i].bindings[b].1, ids)
  }

  /** What a step of the rest waits for among the rest, it still waits for when the plan is resumed. */
  lemma {:induction false} AwaitsInRest(steps: seq<PlanStep>, k: nat, arguments: Args, m: nat, j: nat)
    requires k + m < |steps| && k <= j && Awaits(steps, k + m, j)
    ensures j < k + m && Awaits(Rest(steps, k, arguments), m, j - k)
    decreases m
  {
    var i: nat :| i < k + m && steps[i].stepId in steps[k + m].dependsOn && (i == j || Awaits(steps, i, j));
    if i != j {
      AwaitsEarlier(steps, i, j);
      AwaitsInRest(steps, k, arguments, i - k, j);
    }
    RestWaits(steps, k, arguments, m, i - k);
  }

  lemma AwaitedIsCovered(steps: seq<PlanStep>, k: nat, arguments: Args, ran: set<string>, m: nat, j: nat,
      reference: string)
    requires k <= j < k + m < |steps| && Awaits(steps, k + m, j) && RefersToStep(reference, steps[j].stepId)
    ensures CoveredBinding(Rest(steps, k, arguments), ran, m, reference)
  {
    AwaitsInRest(steps, k, arguments, m, j);
    RestAt(steps, k, arguments, j - k);
  }

  lemma KeptOrFailed(steps: seq<PlanStep>, k: nat, failed: set<string>, cast: set<nat>, kept: map<string, Value>,
      j: nat)
    requires StoppedAt(steps, k, failed, cast, kept) && j < k && Needed(steps[k + 1..], steps[j].stepId)
    ensures steps[j].stepId in kept || steps[j].stepId in failed
  {
  }

  /** A binding of a step of the rest refers to a kept output, to a step that it still waits for, or to a failed one. */
  lemma KeptAwaitedOrFailed(steps: seq<PlanStep>, k: nat, failed: set<string>, cast: set<nat>, kept: map<string, Value>,
      arguments: Args, m: nat, b: nat)
    requires StoppedAt(steps, k, failed, cast, kept) && Covered(steps, {})
    requires 0 < m && k + m < |steps| && b < |steps[k + m].bindings|
    ensures var reference := steps[k + m].bindings[b].1;
            CoveredBinding(Rest(steps, k, arguments), kept.Keys, m, reference) || Names(reference, failed)
  {
    var reference := steps[k + m].bindings[b].1;
    var j := CoveredReads(steps, k + m, b);
    if k <= j {
      AwaitedIsCovered(steps, k, arguments, kept.Keys, m, j, reference);
    } else {
      NeededWhenRead(steps, k, m, b, steps[j].stepId);
      KeptOrFailed(steps, k, failed, cast, kept, j);
    }
  }

  /** A failed step has no kept output and is not resumed. */
  lemma FailedIsGone(steps: seq<PlanStep>, k: nat, failed: set<string>, cast: set<nat>, kept: map<string, Value>,
      arguments: Args)
    requires StoppedAt(steps, k, failed, cast, kept)
    ensures failed !! kept.Keys && failed !! IdSet(Rest(steps, k, arguments))
  {
    RestIds(steps, k, arguments);
    IdsSplit(steps, k);
  }

  lemma NotCoveredWhenFailed(rest: seq<PlanStep>, failed: set<string>, kept: map<string, Value>, m: nat,
      reference: string)
    requires m < |rest| && failed !! kept.Keys && failed !! IdSet(rest) && Names(reference, failed)
    ensures !CoveredBinding(rest, kept.Keys, m, reference)
  {
    forall j: nat | j < m ensures rest[j].stepId in IdSet(rest) {
    }
  }

  lemma BindingCoveredExactlyWhen(steps: seq<PlanStep>, k: nat, failed: set<string>, cast: set<nat>,
      kept: map<string, Value>, arguments: Args, m: nat, b: nat)
    requires StoppedAt(steps, k, failed, cast, kept) && Covered(steps, {})
    requires 0 < m && k + m < |steps| && b < |steps[k + m].bindings|
    ensures var reference := steps[k + m].bindings[b].1;
            CoveredBinding(Rest(steps, k, arguments), kept.Keys, m, reference) <==> !Names(reference, failed)
  {
    KeptAwaitedOrFailed(steps, k, failed, cast, kept, arguments, m, b);
    FailedIsGone(steps, k, failed, cast, kept, arguments);
    if Names(steps[k + m].bindings[b].1, failed) {
      NotCoveredWhenFailed(Rest(steps, k, arguments), failed, kept, m, steps[k + m].bindings[b].1);
    }
  }

  lemma RestCoveredIfNoneReads(steps: seq<PlanStep>, k: nat, failed: set<string>, cast: set<nat>,
      kept: map<string, Value>, arguments: Args)
    requires StoppedAt(steps, k, failed, cast, kept) && Covered(steps, {}) && NoneReads(steps[k + 1..], failed)
    ensures Covered(Rest(steps, k, arguments), kept.Keys)
  {
    var rest := Rest(steps, k, arguments);
    forall m: nat, b: nat | m < |rest| && b < |rest[m].bindings|
      ensures CoveredBinding(rest, kept.Keys, m, rest[m].bindings[b].1)
    {
      RestAt(steps, k, arguments, m);
      assert steps[k + 1..][m - 1].bindings == rest[m].bindings;
      BindingCoveredExactlyWhen(steps, k, failed, cast, kept, arguments, m, b);
    }
  }

  lemma NoneReadsIfRestCovered(steps: seq<PlanStep>, k: nat, failed: set<string>, cast: set<nat>,
      kept: map<string, Value>, arguments: Args)
    requires StoppedAt(steps, k, failed, cast, kept) && Covered(steps, {})
    requires Covered(Rest(steps, k, arguments), kept.Keys)
    ensures NoneReads(steps[k + 1..], failed)
  {
    var rest, later := Rest(steps, k, arguments), steps[k + 1..];
    forall i: nat, b: nat | i < |later| && b < |later[i].bindings|
      ensures !Names(later[i].bindings[b].1, failed)
    {
      RestAt(steps, k, arguments, i + 1);
      assert CoveredBinding(rest, kept.Keys, i + 1, rest[i + 1].bindings[b].1);
      BindingCoveredExactlyWhen(steps, k, failed, cast, kept, arguments, i + 1, b);
    }
  }

  /** Of a covered plan, the rest is covered exactly when it does not read from a failed step. */
  lemma RestCoveredExactlyWhen(steps: seq<PlanStep>, k: nat, failed: set<string>, cast: set<nat>,
      kept: map<string, Value>, arguments: Args)
    requires StoppedAt(steps, k, failed, cast, kept) && Covered(steps, {})
    ensures Covered(Rest(steps, k, arguments), kept.Keys) <==> NoneReads(steps[k + 1..], failed)
  {
    if NoneReads(steps[k + 1..], failed) {
      RestCoveredIfNoneReads(steps, k, failed, cast, kept, arguments);
    }
    if Covered(Rest(steps, k, arguments), kept.Keys) {
      NoneReadsIfRestCovered(steps, k, failed, cast, kept, arguments);
    }
  }

  lemma SucceededNotFailed(steps: seq<PlanStep>, k: nat, failed: set<string>, cast: set<nat>, kept: map<string, Value>,
      later: set<nat>, j: nat)
    requires StoppedAt(steps, k, failed, cast, kept) && j < |steps| && j in Joined(cast, k, later)
    ensures steps[j].stepId !in failed
  {
    IdsSplit(steps, k);
    if j >= k {
      assert steps[k..][j - k] == steps[j];
    }
  }

  /** Where no later step waits for a failed one, none reads from a failed one. */
  lemma UnblockedReadsNone(steps: seq<PlanStep>, k: nat, failed: set<string>, cast: set<nat>, kept: map<string, Value>)
    requires StoppedAt(steps, k, failed, cast, kept) && Covered(steps, {})
    requires !Blocked(steps[k], failed) && NoneBlocked(steps[k + 1..], failed)
    ensures NoneReads(steps[k + 1..], failed)
  {
    var later, all := steps[k + 1..], FirstNumbers(|steps| - k);
    forall i: nat, b: nat | i < |later| && b < |later[i].bindings|
      ensures !Names(later[i].bindings[b].1, failed)
    {
      AllWait(steps, k, failed, cast, kept, i + 1);
      var j := ReadsOfSucceeded(steps, k, cast, i + 1, all, b);
      SucceededNotFailed(steps, k, failed, cast, kept, all, j);
    }
  }

  ghost function FirstNumbers(n: nat): (numbers: set<nat>)
    ensures forall m: nat :: m in numbers <==> m < n
  {
    if n == 0 then {} else FirstNumbers(n - 1) + {n - 1}
  }

  lemma LaterWaits(steps: seq<PlanStep>, k: nat, failed: set<string>, cast: set<nat>, kept: map<string, Value>, i: nat)
    requires StoppedAt(steps, k, failed, cast, kept) && k + i < |steps| && !Blocked(steps[k + i], failed)
    ensures WaitsForBoth(steps, k, cast, FirstNumbers(|steps| - k), i)
  {
    forall j: nat | j < k + i && steps[j].stepId in steps[k + i].dependsOn
      ensures j in Joined(cast, k, FirstNumbers(|steps| - k))
    {
      if j >= k {
        assert j - k in FirstNumbers(|steps| - k) && j == k + (j - k);
      }
    }
  }

  lemma NotBlockedAfter(steps: seq<PlanStep>, k: nat, failed: set<string>, i: nat)
    requires k + i < |steps| && !Blocked(steps[k], failed) && NoneBlocked(steps[k + 1..], failed)
    ensures !Blocked(steps[k + i], failed)
  {
    if i > 0 {
      assert steps[k + 1..][i - 1] == steps[k + i];
    }
  }

  lemma AllWait(steps: seq<PlanStep>, k: nat, failed: set<string>, cast: set<nat>, kept: map<string, Value>, m: nat)
    requires StoppedAt(steps, k, failed, cast, kept) && k + m < |steps|
    requires !Blocked(steps[k], failed) && NoneBlocked(steps[k + 1..], failed)
    ensures AllWaitForBoth(steps, k, cast, FirstNumbers(|steps| - k), m)
  {
    var later := FirstNumbers(|steps| - k);
    forall i: nat | i <= m && (i == m || i in later)
      ensures WaitsForBoth(steps, k, cast, later, i)
    {
      NotBlockedAfter(steps, k, failed, i);
      LaterWaits(steps, k, failed, cast, kept, i);
    }
  }

  /** When, at the stop, no later step reads from a failed one, the resumed run meets no unknown step, whatever the
      tools do and have become. */
  lemma ReadyWhenNoneReadsFailed<W, V>(s: Story<W>, env: Env<V>, ctx: Context, st: State<V>)
    requires s.Asked() && Carried(s) && Covered(s.steps, {})
    requires NoneReads(Remaining(s.steps, s.First().results)[1..], s.First().failed)
    ensures NeverUnknown(env, ctx, Resumed(s).0, Start(st, Resumed(s).1))
  {
    var k, cast, arguments := AtTheStop(s);
    assert s.steps[k..][1..] == s.steps[k + 1..];
    RestCoveredExactlyWhen(s.steps, k, s.First().failed, cast, Resumed(s).1, arguments);
    KeptIsEarlier(s.steps, k, s.First().failed, cast, Resumed(s).1, arguments);
    CoveredPlansNeverHitUnknown(env, ctx, Resumed(s).0, st, Resumed(s).1);
  }

  /** So it is when no later step waits for a failed one. */
  lemma ReadyWhenNoneBlocked<W, V>(s: Story<W>, env: Env<V>, ctx: Context, st: State<V>)
    requires s.Asked() && Carried(s) && Covered(s.steps, {})
    requires NoneBlocked(Remaining(s.steps, s.First().results)[1..], s.First().failed)
    ensures NeverUnknown(env, ctx, Resumed(s).0, Start(st, Resumed(s).1))
  {
    var k, cast, arguments := AtTheStop(s);
    assert s.steps[k..][1..] == s.steps[k + 1..];
    UnblockedReadsNone(s.steps, k, s.First().failed, cast, Resumed(s).1);
    ReadyWhenNoneReadsFailed(s, env, ctx, st);
  }

  /** Where the rest has simple references and calls, the condition is exact. */
  lemma ResumedReadyExactlyWhen<W>(s: Story<W>, schemas: Schemas, py: Python)
    requires s.Asked() && Carried(s) && Covered(s.steps, {})
    requires Simple(schemas, py, Resumed(s).0, Resumed(s).1)
    ensures AlwaysReady(schemas, py, Resumed(s).0, Resumed(s).1) <==>
            NoneReads(Remaining(s.steps, s.First().results)[1..], s.First().failed)
  {
    var k, cast, arguments := AtTheStop(s);
    assert s.steps[k..][1..] == s.steps[k + 1..];
    RestCoveredExactlyWhen(s.steps, k, s.First().failed, cast, Resumed(s).1, arguments);
    KeptIsEarlier(s.steps, k, s.First().failed, cast, Resumed(s).1, arguments);
    SimplePlansReadyExactlyWhen(schemas, py, Resumed(s).0, Resumed(s).1);
  }

  // ------------------------------------------------------------------- what a resumed run meets

  ghost predicate ReadableBefore(bindings: seq<(string, string)>, b: nat, outputs: map<string, Value>) {
    b < |bindings| && forall c: nat | c < b :: Resolve(bindings[c].1, outputs).Ok?
  }

  /** The bindings before `b` can be read, and `b` refers to a step that has no output. */
  ghost predicate FirstToMiss(bindings: seq<(string, string)>, b: nat, outputs: map<string, Value>) {
    && ReadableBefore(bindings, b, outputs)
    && ParseReference(bindings[b].1).Some? && ParseReference(bindings[b].1).value.step !in outputs
  }

  /** The bindings are read in order, and the first that cannot be read decides. */
  lemma {:induction false} UnknownExactlyWhen(arguments: Args, bindings: seq<(string, string)>,
      outputs: map<string, Value>)
    ensures Unknown(ResolveAll(arguments, bindings, outputs)) <==> exists b: nat :: FirstToMiss(bindings, b, outputs)
    decreases |bindings|
  {
    if bindings != [] {
      var value, rest := Resolve(bindings[0].1, outputs), bindings[1..];
      if ParseReference(bindings[0].1).Some? && ParseReference(bindings[0].1).value.step in outputs {
        var parsed := ParseReference(bindings[0].1).value;
        WalkErrors(outputs[parsed.step], parsed.path);
      }
      if value.Ok? {
        UnknownExactlyWhen(arguments[bindings[0].0 := Cleaned(value.value)], rest, outputs);
        FirstOfTheRest(bindings, outputs);
      } else {
        assert FirstToMiss(bindings, 0, outputs) <==> value.error.UnknownStep?;
      }
    }
  }

  lemma FirstOfTheRest(bindings: seq<(string, string)>, outputs: map<string, Value>)
    requires bindings != [] && Resolve(bindings[0].1, outputs).Ok?
    ensures (exists b: nat :: FirstToMiss(bindings, b, outputs)) <==>
            exists b: nat :: FirstToMiss(bindings[1..], b, outputs)
  {
    var rest := bindings[1..];
    if b: nat :| FirstToMiss(rest, b, outputs) {
      forall c: nat | c < b + 1 ensures Resolve(bindings[c].1, outputs).Ok? {
        assert c > 0 ==> bindings[c] == rest[c - 1];
      }
      assert FirstToMiss(bindings, b + 1, outputs);
    }
    if b: nat :| FirstToMiss(bindings, b, outputs) {
      assert b > 0;
      forall c: nat | c < b - 1 ensures Resolve(rest[c].1, outputs).Ok? {
        assert rest[c] == bindings[c + 1];
      }
      assert FirstToMiss(rest, b - 1, outputs);
    }
  }

  /** Step `m` of the rest runs, and reads from one of the steps `ids` before any other binding fails. */
  ghost predicate ReadsFrom<W>(env: Env<W>, ctx: Context, rest: seq<PlanStep>, kept: map<string, Value>, st: State<W>,
      ids: set<string>, m: nat)
    requires m < |rest|
  {
    var p := Before(env, ctx, rest, m, st, kept);
    && !p.stopped && !Blocked(rest[m], p.failed)
    && exists b: nat :: ReadableBefore(rest[m].bindings, b, p.completed) && Names(rest[m].bindings[b].1, ids)
  }

  /** What a covered step of the rest misses is the output of a failed step. */
  lemma MissesOnlyFailed(steps: seq<PlanStep>, k: nat, failed: set<string>, cast: set<nat>, kept: map<string, Value>,
      arguments: Args, m: nat, later: set<nat>, completed: map<string, Value>, b: nat)
    requires StoppedAt(steps, k, failed, cast, kept) && Covered(steps, {}) && m < |steps| - k
    requires var rest := Rest(steps, k, arguments);
             && Available(rest, m, later, kept, completed) && WaitsForCast(rest, later, m)
             && (forall j: nat | j < m && j in later :: WaitsForCast(rest, later, j))
             && FirstToMiss(rest[m].bindings, b, completed)
    ensures Names(Rest(steps, k, arguments)[m].bindings[b].1, failed)
  {
    var rest := Rest(steps, k, arguments);
    RestAt(steps, k, arguments, m);
    var reference := rest[m].bindings[b].1;
    KeptAwaitedOrFailed(steps, k, failed, cast, kept, arguments, m, b);
    if j: nat :| j < m && Awaits(rest, m, j) && RefersToStep(reference, rest[j].stepId) {
      AwaitedAreCast(rest, later, m, j);
    }
  }

  /** Nothing else than the kept outputs and those of the rest can be read. */
  lemma OutputsOfTheRest<W>(env: Env<W>, principal: string, rest: seq<PlanStep>, kept: map<string, Value>, m: nat,
      later: set<nat>, p: Progress<W>)
    requires m <= |rest| && HasCast(env, principal, rest, kept, m, later, p)
    ensures p.completed.Keys <= kept.Keys + IdSet(rest)
  {
    NamedAreEarlier(rest, later, m);
    assert forall j | 0 <= j < m :: rest[..m][j] == rest[j];
  }

  lemma FailedAreMissed(bindings: seq<(string, string)>, failed: set<string>, outputs: map<string, Value>)
    requires failed !! outputs.Keys
    ensures forall b: nat | ReadableBefore(bindings, b, outputs) && Names(bindings[b].1, failed) ::
              FirstToMiss(bindings, b, outputs)
  {
  }

  lemma HitsExactlyWhenReadsFrom<W>(env: Env<W>, ctx: Context, steps: seq<PlanStep>, k: nat, failed: set<string>,
      cast: set<nat>, kept: map<string, Value>, arguments: Args, st: State<W>, m: nat)
    requires StoppedAt(steps, k, failed, cast, kept) && Covered(steps, {}) && m < |steps| - k
    ensures HitAt(env, ctx, Rest(steps, k, arguments), m, st, kept) <==>
            ReadsFrom(env, ctx, Rest(steps, k, arguments), kept, st, failed, m)
  {
    var rest := Rest(steps, k, arguments);
    var p := Before(env, ctx, rest, m, st, kept);
    UnknownExactlyWhen(rest[m].arguments, rest[m].bindings, p.completed);
    if !p.stopped && !Blocked(rest[m], p.failed) {
      KeptIsEarlier(steps, k, failed, cast, kept, arguments);
      var later := RunHasCast(env, ctx, rest, m, st, kept);
      CastIsAvailable(env, ctx.principal, rest, kept, m, later, p);
      FailedIsGone(steps, k, failed, cast, kept, arguments);
      OutputsOfTheRest(env, ctx.principal, rest, kept, m, later, p);
      FailedAreMissed(rest[m].bindings, failed, p.completed);
      UnblockedWaits(rest, m, later, p.failed);
      if b: nat :| FirstToMiss(rest[m].bindings, b, p.completed) {
        MissesOnlyFailed(steps, k, failed, cast, kept, arguments, m, later, p.completed, b);
      }
    }
  }

  /** No step of the run reads from one of the steps `ids`, unless another of its bindings fails first. */
  ghost predicate RunReadsNone<W>(env: Env<W>, ctx: Context, rest: seq<PlanStep>, kept: map<string, Value>,
      st: State<W>, ids: set<string>)
  {
    forall m: nat | m < |rest| :: !ReadsFrom(env, ctx, rest, kept, st, ids, m)
  }

  lemma RestMeetsUnknownExactlyWhen<W>(env: Env<W>, ctx: Context, steps: seq<PlanStep>, k: nat, failed: set<string>,
      cast: set<nat>, kept: map<string, Value>, arguments: Args, st: State<W>)
    requires StoppedAt(steps, k, failed, cast, kept) && Covered(steps, {})
    ensures var rest := Rest(steps, k, arguments);
            NeverUnknown(env, ctx, rest, Start(st, kept)) <==> RunReadsNone(env, ctx, rest, kept, st, failed)
  {
    var rest := Rest(steps, k, arguments);
    forall m: nat | m < |rest|
      ensures HitAt(env, ctx, rest, m, st, kept) <==> ReadsFrom(env, ctx, rest, kept, st, failed, m)
    {
      HitsExactlyWhenReadsFrom(env, ctx, steps, k, failed, cast, kept, arguments, st, m);
    }
    NeverUnknownMeans(env, ctx, rest, st, kept);
  }

  /** Whatever the tools have become, the resumed run of a covered plan meets an unknown step exactly when a step runs
      that reads from a step that failed before the stop, before any other of its bindings fails. */
  lemma ResumedMeetsUnknownExactlyWhen<W, V>(s: Story<W>, env: Env<V>, ctx: Context, st: State<V>)
    requires s.Asked() && Carried(s) && Covered(s.steps, {})
    ensures NeverUnknown(env, ctx, Resumed(s).0, Start(st, Resumed(s).1)) <==>
            RunReadsNone(env, ctx, Resumed(s).0, Resumed(s).1, st, s.First().failed)
  {
    var k, cast, arguments := AtTheStop(s);
    RestMeetsUnknownExactlyWhen(env, ctx, s.steps, k, s.First().failed, cast, Resumed(s).1, arguments, st);
  }
}
