/** A resumed command that asks for its confirmation once more, because the first came too late or is not of the checked
    arguments: the outputs of the steps before the stop are forgotten (apps/api/app/agents/master.py,
    `_keep_for_resume`). */
module AskingAgain {
  import opened Values
  import opened Contracts
  import opened Spec
  import opened Bindings
  import opened Gateway
  import opened Master
  import opened Resumption
  import opened ScriptedTools
  import opened PlanReadiness
  import opened ResumedReadiness
  import opened LostDependency

  // ------------------------------------------------------------------- stopping at the confirmed step

  lemma ConfirmedStepAsks<W>(env: Env<W>, ctx: Context, step: PlanStep, p: Progress<W>)
    requires Registered(env) && step.tool in env.tools && env.tools[step.tool].risk == HighRisk
    requires step.dependsOn == [] && step.bindings == [] && !p.stopped && p.results == []
    ensures var next, checked := RunStep(env, ctx, step, p),
            Check(env, ctx.principal, env.tools[step.tool], step.arguments);
            && (next.stopped <==> checked.Ok? && !Confirmed(ctx, p.st, step.tool, checked.value))
            && (next.stopped ==>
                  && |next.results| == 1 && next.results[0].stepId == step.stepId
                  && next.results[0].status.ApprovalRequired? && next.results[0].approval.Some?
                  && next.results[0].approval.value.tool == step.tool
                  && next.results[0].approval.value.arguments == checked.value)
  {
    var checked := Check(env, ctx.principal, env.tools[step.tool], step.arguments);
    assert ResolveAll(step.arguments, step.bindings, p.completed) == Ok(step.arguments);
    if checked.Ok? {
      RecordChange(env, ctx, p.st, step.tool, step.arguments);
    } else {
      CheckNeverAsks(env, ctx.principal, env.tools[step.tool], step.arguments);
    }
  }

  lemma KeepsNoOutputs(rest: seq<PlanStep>, asking: StepResult)
    requires rest != [] && asking.stepId == rest[0].stepId
    requires asking.status.ApprovalRequired? && asking.approval.Some?
    ensures AskedFor([asking]) == asking.approval
    ensures Keep(rest, [asking]) ==
            Some((asking.approval.value.approvalId, Kept(rest, rest[0].stepId, map[])))
  {
    assert FirstAsking([asking]) == 0 && IndexOf(rest, rest[0].stepId) == 0;
    AskingAddsNoOutput([], asking, rest[1..]);
    assert [] + [asking] == [asking];
  }

  /** The re-sent command asks again exactly when the arguments pass their checks and no usable confirmation is of them;
      then it keeps what is left of the plan, and none of the outputs it started from. */
  lemma AskingAgainForgets<W>(s: Story<W>)
    requires s.Asked() && Carried(s)
    ensures var row := s.stResent.approvals[s.resent.approvalId.value];
            && row.tool in s.env.tools
            && var checked := Check(s.env, s.resent.principal, s.env.tools[row.tool], row.arguments);
            && (s.Second().stopped <==> checked.Ok? && !Confirmed(s.resent, s.stResent, row.tool, checked.value))
            && (s.Second().stopped ==>
                  && AskedFor(s.Second().results).Some? && AskedFor(s.Second().results).value.tool == row.tool
                  && AskedFor(s.Second().results).value.arguments == checked.value
                  && Keep(Resumed(s).0, s.Second().results) == Some((AskedFor(s.Second().results).value.approvalId,
                      Kept(Resumed(s).0, Resumed(s).0[0].stepId, map[]))))
  {
    var k, cast, arguments := AtTheStop(s);
    var rest, start := Resumed(s).0, Start(s.stResent, Resumed(s).1);
    var after := TrimAll(s.steps[k + 1..], IdSet(s.steps[k..]));
    RestAt(s.steps, k, arguments, 0);
    ConfirmedStepAsks(s.env, s.resent, rest[0], start);
    SecondStarts(s.env, s.resent, rest[0], after, start);
    TrimmedChanges(s.env, s.steps[k + 1..], IdSet(s.steps[k..]));
    var next := RunStep(s.env, s.resent, rest[0], start);
    if next.stopped {
      KeepsNoOutputs(rest, next.results[0]);
      assert next.results == [next.results[0]];
    } else {
      RunningAfter(s.env, s.resent, after, next);
    }
  }

  // ------------------------------------------------------------------- resuming again

  /** A row of the call that was asked for again, with the plan that was kept then. */
  ghost predicate CarriedAgain<W>(s: Story<W>, row: Approval)
    requires s.Asked() && Carried(s)
  {
    && s.Second().stopped
    && AskedFor(s.Second().results).Some? && row.tool == AskedFor(s.Second().results).value.tool
    && Keep(Resumed(s).0, s.Second().results).Some?
    && row.resume == Some(Keep(Resumed(s).0, s.Second().results).value.1)
  }

  /** The steps before the stop. */
  ghost function BeforeTheStop<W>(s: Story<W>): set<string>
    requires s.Asked()
  {
    IdSet(s.steps[..|s.steps| - |Remaining(s.steps, s.First().results)|])
  }

  lemma {:induction false} PresentTwice(deps: seq<string>, present: set<string>)
    ensures Present(Present(deps, present), present) == Present(deps, present)
  {
    if deps != [] {
      var rest := Present(deps[1..], present);
      PresentTwice(deps[1..], present);
      if deps[0] in present {
        assert ([deps[0]] + rest)[1..] == rest;
      } else {
        assert [] + rest == rest;
      }
    }
  }

  lemma TrimmedTwice(steps: seq<PlanStep>, present: set<string>)
    ensures TrimAll(TrimAll(steps, present), present) == TrimAll(steps, present)
  {
    forall i | 0 <= i < |steps| ensures Trimmed(Trimmed(steps[i], present), present) == Trimmed(steps[i], present) {
      PresentTwice(steps[i].dependsOn, present);
    }
  }

  /** What is resumed again is the same rest of the plan, without outputs. */
  lemma ResumedAgain<W>(s: Story<W>, row: Approval) returns (k: nat)
    requires s.Asked() && Carried(s) && CarriedAgain(s, row)
    ensures k < |s.steps| && Remaining(s.steps, s.First().results) == s.steps[k..]
    ensures s.steps[k].tool in s.env.tools && s.env.tools[s.steps[k].tool].risk == HighRisk
    ensures Resume(row) == (Rest(s.steps, k, row.arguments), map[])
  {
    var cast, arguments;
    k, cast, arguments := AtTheStop(s);
    AskingAgainForgets(s);
    var rest, after, present := Resumed(s).0, s.steps[k + 1..], IdSet(s.steps[k..]);
    RestIsUnique(s.steps, k, arguments);
    RestIds(s.steps, k, arguments);
    RestAt(s.steps, k, arguments, 0);
    ResumedPlan(row, rest, 0, map[]);
    assert rest[0..] == rest && rest[0 + 1..] == TrimAll(after, present);
    TrimmedTwice(after, present);
  }

  /** Without their outputs, all steps before the stop are as good as failed. */
  lemma AllForgotten(steps: seq<PlanStep>, k: nat)
    requires UniqueSteps(steps) && k < |steps|
    ensures StoppedAt(steps, k, IdSet(steps[..k]), {}, map[])
  {
    forall j: nat | j < k ensures steps[j].stepId in IdSet(steps[..k]) {
      assert steps[..k][j] == steps[j];
    }
  }

  /** The run that is resumed again meets an unknown step exactly when a step runs that reads from one before the stop,
      before any other of its bindings fails: whether that step had succeeded makes no difference. */
  lemma AskedAgainMeetsUnknownExactlyWhen<W, V>(s: Story<W>, row: Approval, env: Env<V>, ctx: Context, st: State<V>)
    requires s.Asked() && Carried(s) && CarriedAgain(s, row) && Covered(s.steps, {})
    ensures NeverUnknown(env, ctx, Resume(row).0, Start(st, Resume(row).1)) <==>
            RunReadsNone(env, ctx, Resume(row).0, Resume(row).1, st, BeforeTheStop(s))
  {
    var k := ResumedAgain(s, row);
    AllForgotten(s.steps, k);
    RestMeetsUnknownExactlyWhen(env, ctx, s.steps, k, IdSet(s.steps[..k]), {}, map[], row.arguments, st);
  }

  /** When no later step reads from one before the stop, asking again does no harm; where the rest has simple references
      and calls, only then. */
  lemma AskedAgainReadyExactlyWhen<W>(s: Story<W>, row: Approval, schemas: Schemas, py: Python)
    requires s.Asked() && Carried(s) && CarriedAgain(s, row) && Covered(s.steps, {})
    ensures var harmless := NoneReads(Remaining(s.steps, s.First().results)[1..], BeforeTheStop(s));
            && (harmless ==> AlwaysReady(schemas, py, Resume(row).0, Resume(row).1))
            && (Simple(schemas, py, Resume(row).0, map[]) && AlwaysReady(schemas, py, Resume(row).0, Resume(row).1) ==>
                  harmless)
  {
    var k := ResumedAgain(s, row);
    var rest := Rest(s.steps, k, row.arguments);
    AllForgotten(s.steps, k);
    assert s.steps[k..][1..] == s.steps[k + 1..];
    RestCoveredExactlyWhen(s.steps, k, IdSet(s.steps[..k]), {}, map[], row.arguments);
    KeptIsEarlier(s.steps, k, IdSet(s.steps[..k]), {}, map[], row.arguments);
    if Covered(rest, {}) {
      CoveredAlwaysReady(schemas, py, rest);
    }
    if Simple(schemas, py, rest, map[]) {
      SimplePlansReadyExactlyWhen(schemas, py, rest, map[]);
    }
  }

  lemma CoveredAlwaysReady(schemas: Schemas, py: Python, steps: seq<PlanStep>)
    requires UniqueSteps(steps) && Covered(steps, {})
    ensures AlwaysReady(schemas, py, steps, map[])
  {
    forall env: Env<Counted<nat>>, ctx, st: State<Counted<nat>> | Fits(env, schemas, py)
      ensures NeverUnknown(env, ctx, steps, Start(st, map[]))
    {
      CoveredPlansNeverHitUnknown(env, ctx, steps, st, map[]);
    }
  }

  // ------------------------------------------------------------------- a confirmation that came too late

  const NOW := Context("ada", None, 0)
  const LATER := Context("ada", Some(7), 1000)

  function Only(row: Approval): State<int> {
    State(0, map[7 := row], 8, [], [])
  }

  /** The command stops at the change and is sent again after the confirmation has expired. */
  ghost function LateStory(n: Command): Story<int> {
    var st := State(0, map[], 0, [], []);
    var kept := Keep(Plan(n), Run(Tools(n), NOW, Plan(n), Start(st, map[])).results);
    Story(Tools(n), Plan(n), NOW, st, NOW, st, LATER, Only(Row(n, if kept.Some? then Some(kept.value.1) else None)))
  }

  /** The confirmation that the second run asks for, given and still usable. */
  ghost function SecondRow(n: Command): Approval
    requires LateStory(n).Asked() && Carried(LateStory(n))
  {
    var kept := Keep(Resumed(LateStory(n)).0, LateStory(n).Second().results);
    Row(n, if kept.Some? then Some(kept.value.1) else None).(expiresAt := 1900)
  }

  lemma LookUpSucceeds(n: Command, st: State<int>) returns (p: Progress<int>)
    requires Different(n) && n.found.Done?
    ensures Run(Tools(n), NOW, Plan(n), Start(st, map[])) == Run(Tools(n), NOW, AfterLookUp(n), p)
    ensures !p.stopped && p.failed == {}
  {
    assert Check(Tools(n), "ada", LookUp(n), map[]) == Ok(map[]);
    p := RunStep(Tools(n), NOW, Plan(n)[0], Start(st, map[]));
    FirstStep(Tools(n), NOW, Plan(n), Start(st, map[]));
    assert Plan(n)[1..] == AfterLookUp(n);
  }

  lemma LateStoryStops(n: Command)
    requires Different(n) && n.found.Done?
    ensures LateStory(n).First().stopped && LateStory(n).First().failed == {}
  {
    var p := LookUpSucceeds(n, LateStory(n).st);
    var next := ChangeRuns(n, NOW, AfterLookUp(n), p);
    assert LateStory(n).First() == next;
  }

  lemma LateStoryAsks(n: Command)
    requires Different(n) && n.found.Done?
    ensures LateStory(n).Asked() && Carried(LateStory(n)) && LateStory(n).First().failed == {}
  {
    LateStoryStops(n);
    OneChangeInPlan(n);
    LateStoryIsKept(n);
  }

  lemma LateStoryIsKept(n: Command)
    requires Different(n) && ValidPlan(Plan(n)) && RecordChanges(Tools(n), Plan(n)) <= 1
    requires LateStory(n).First().stopped
    ensures LateStory(n).Asked() && AskedFor(LateStory(n).First().results).value.tool == n.change
  {
    var s := LateStory(n);
    var k := StopShape(s.env, s.ctx, s.steps, s.st);
    TheChangeIsChange(n, s.steps[k].tool);
  }

  lemma TheChangeIsChange(n: Command, tool: string)
    requires Different(n) && tool in Tools(n).tools && Tools(n).tools[tool].risk == HighRisk
    ensures tool == n.change
  {
  }

  lemma LateStoryAsksAgain(n: Command)
    requires Different(n) && n.found.Done?
    ensures LateStory(n).Asked() && Carried(LateStory(n)) && LateStory(n).Second().stopped
    ensures CarriedAgain(LateStory(n), SecondRow(n))
  {
    LateStoryAsks(n);
    AskingAgainForgets(LateStory(n));
    InvokeChange(n, LATER, LateStory(n).stResent);
  }

  lemma NothingFailed(n: Command)
    requires Different(n) && n.found.Done? && ReadsLookUp(n)
    ensures LateStory(n).Asked() && Carried(LateStory(n))
    ensures forall env: Env<int>, ctx, st ::
              NeverUnknown(env, ctx, Resumed(LateStory(n)).0, Start(st, Resumed(LateStory(n)).1))
  {
    LateStoryAsks(n);
    PlanIsCovered(n);
    forall env: Env<int>, ctx, st
      ensures NeverUnknown(env, ctx, Resumed(LateStory(n)).0, Start(st, Resumed(LateStory(n)).1))
    {
      ReadyWhenNoneBlocked(LateStory(n), env, ctx, st);
    }
  }

  lemma ResumedAgainAfterLookUp(n: Command)
    requires Different(n) && n.found.Done? && ReadsLookUp(n)
    ensures LateStory(n).Asked() && Carried(LateStory(n))
    ensures Resume(SecondRow(n)) == ([Step("s2", n.change, []), Last(n, [])], map[])
  {
    LateStoryAsksAgain(n);
    var k := ResumedAgain(LateStory(n), SecondRow(n));
    RestAfterLookUp(n, k);
  }

  lemma RestAfterLookUp(n: Command, k: nat)
    requires Different(n) && k < 3 && Plan(n)[k].tool in Tools(n).tools
            && Tools(n).tools[Plan(n)[k].tool].risk == HighRisk
    ensures Rest(Plan(n), k, map[]) == [Step("s2", n.change, []), Last(n, [])]
  {
    assert k == 1;
    ResumedSteps(n);
    ResumedPlan(Row(n, Some(Kept(Plan(n), "s2", map[]))), Plan(n), 1, map[]);
  }

  /** The lookup succeeds, and every resumption of its plan would find what it left; but the command is sent again too
      late, asks again, is confirmed again, and then reads from a step without output. */
  lemma ForgottenOutputIsMissed(n: Command)
    requires Different(n) && n.found.Done? && ReadsLookUp(n)
    ensures var s := LateStory(n);
            && s.Asked() && Carried(s) && Covered(s.steps, {})
            && (forall env: Env<int>, ctx, st :: NeverUnknown(env, ctx, Resumed(s).0, Start(st, Resumed(s).1)))
            && var row := SecondRow(n);
              && CarriedAgain(s, row) && Confirmed(LATER, Only(row), n.change, map[])
              && !NeverUnknown(s.env, LATER, Resume(row).0, Start(Only(row), Resume(row).1))
  {
    LateStoryAsksAgain(n);
    NothingFailed(n);
    PlanIsCovered(n);
    ResumedAgainAfterLookUp(n);
    ChangeThenMissing(n, LATER, Only(SecondRow(n)));
  }
}
