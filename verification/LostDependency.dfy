/** A plan whose resumed run does more than the uninterrupted one: a step that waited for a failed
    step runs after the confirmation, because its dependency was dropped as "already ran", and may read from it. */
module LostDependency {
  import opened Values
  import opened Contracts
  import opened Spec
  import opened Bindings
  import opened Gateway
  import opened Master
  import opened Resumption
  import opened ScriptedTools
  import opened PlanReadiness

  function PlainTool(name: string, risk: Risk, result: HandlerResult): Tool<int> {
    Tool(name, [], risk, _ => true, None, (w, p, a) => (w, result))
  }

  /** The names of three different tools, what looking up comes to, and what the notification reads. */
  datatype Command = Command(lookUp: string, change: string, notify: string, found: HandlerResult,
                             bound: seq<(string, string)>)

  predicate Different(n: Command) {
    n.lookUp != n.change && n.lookUp != n.notify && n.change != n.notify
  }

  predicate Fails(n: Command) {
    Different(n) && n.found == HandlerError("not found")
  }

  function LookUp(n: Command): Tool<int> { PlainTool(n.lookUp, Read, n.found) }

  function Change(n: Command): Tool<int> { PlainTool(n.change, HighRisk, Done(Null, "changed")) }

  function Notify(n: Command): Tool<int> { PlainTool(n.notify, Write, Done(Null, "notified")) }

  function Tools(n: Command): Env<int> {
    Env(map[n.lookUp := LookUp(n), n.change := Change(n), n.notify := Notify(n)], 900, PlainPython())
  }

  function Step(stepId: string, tool: string, dependsOn: seq<string>): PlanStep {
    PlanStep(stepId, tool, map[], "", dependsOn, [], "data")
  }

  function Last(n: Command, dependsOn: seq<string>): PlanStep {
    Step("s3", n.notify, dependsOn).(bindings := n.bound)
  }

  /** Look somebody up, change a record, then notify the person who was looked up. */
  function Plan(n: Command): seq<PlanStep> {
    [Step("s1", n.lookUp, []), Step("s2", n.change, []), Last(n, ["s1"])]
  }

  function Row(n: Command, resume: Option<Kept>): Approval {
    Approval("ada", n.change, map[], Approved, 900, resume)
  }

  function Empty(calls: seq<Call>, row: Approval): State<int> {
    State(0, map[7 := row], 8, calls, [])
  }

  function Looked(n: Command): seq<Call> { [Call("ada", n.lookUp, map[])] }

  function TheStory(n: Command): Story<int> {
    Story(Tools(n), Plan(n),
          Context("ada", None, 0), State(0, map[], 0, [], []),
          Context("ada", Some(7), 0), Empty([], Row(n, None)),
          Context("ada", Some(7), 0), Empty(Looked(n), Row(n, Some(Kept(Plan(n), "s2", map[])))))
  }

  lemma InvokeLookUp(n: Command, ctx: Context, st: State<int>)
    requires Fails(n)
    ensures Invoke(Tools(n), ctx, st, n.lookUp, map[]) ==
            (State(st.world, st.approvals, st.nextId, st.calls + [Call(ctx.principal, n.lookUp, map[])],
                st.audit + [AuditEvent(ctx.principal, n.lookUp, AuditFailed)]),
             Stopped(Failed, "not found"))
  {
    assert Check(Tools(n), ctx.principal, LookUp(n), map[]) == Ok(map[]);
  }

  lemma InvokeNotify(n: Command, ctx: Context, st: State<int>)
    requires Different(n)
    ensures Invoke(Tools(n), ctx, st, n.notify, map[]).1 == Invocation(Success, "notified", Null, "", None)
  {
    assert Check(Tools(n), ctx.principal, Notify(n), map[]) == Ok(map[]);
  }

  lemma InvokeChange(n: Command, ctx: Context, st: State<int>)
    requires Different(n)
    ensures Check(Tools(n), ctx.principal, Change(n), map[]) == Ok(map[])
    ensures var (after, invocation) := Invoke(Tools(n), ctx, st, n.change, map[]);
            if Confirmed(ctx, st, n.change, map[]) then invocation == Invocation(Success, "changed", Null, "", None)
            else invocation.status.ApprovalRequired? && after.world == st.world && after.calls == st.calls
                 && invocation.approval.Some? && invocation.approval.value.tool == n.change
                     && invocation.approval.value.arguments == map[]
  {
    assert Check(Tools(n), ctx.principal, Change(n), map[]) == Ok(map[]);
    RecordChange(Tools(n), ctx, st, n.change, map[]);
  }

  lemma FirstStep<W>(env: Env<W>, ctx: Context, steps: seq<PlanStep>, p: Progress<W>)
    requires steps != [] && !p.stopped
    ensures Run(env, ctx, steps, p) == Run(env, ctx, steps[1..], RunStep(env, ctx, steps[0], p))
  {
  }

  function AfterLookUp(n: Command): seq<PlanStep> {
    [Step("s2", n.change, []), Last(n, ["s1"])]
  }

  /** The first step of the plan: the lookup fails. */
  lemma LookUpFails(n: Command, ctx: Context, st: State<int>) returns (p: Progress<int>)
    requires Fails(n)
    ensures Run(Tools(n), ctx, Plan(n), Start(st, map[])) == Run(Tools(n), ctx, AfterLookUp(n), p)
    ensures |p.results| == 1 && p.results[0].stepId == "s1" && !p.results[0].Ok()
            && !p.results[0].status.ApprovalRequired?
    ensures !p.stopped && p.failed == {"s1"} && p.completed == map[]
    ensures p.st.world == st.world && p.st.approvals == st.approvals && p.st.calls == st.calls
            + [Call(ctx.principal, n.lookUp, map[])]
  {
    InvokeLookUp(n, ctx, st);
    p := RunStep(Tools(n), ctx, Plan(n)[0], Start(st, map[]));
    FirstStep(Tools(n), ctx, Plan(n), Start(st, map[]));
    assert Plan(n)[1..] == AfterLookUp(n);
  }

  /** The change, run under its confirmation or asked about. */
  lemma ChangeRuns(n: Command, ctx: Context, steps: seq<PlanStep>, p: Progress<int>) returns (next: Progress<int>)
    requires Different(n) && steps != [] && steps[0] == Step("s2", n.change, []) && !p.stopped
    ensures next == RunStep(Tools(n), ctx, steps[0], p)
    ensures Run(Tools(n), ctx, steps, p) == Run(Tools(n), ctx, steps[1..], next) && next.failed == p.failed
    ensures next.completed.Keys <= p.completed.Keys + {"s2"}
    ensures |next.results| == |p.results| + 1 && next.results[..|p.results|] == p.results
            && next.results[|p.results|].stepId == "s2"
    ensures var r := next.results[|p.results|];
            if Confirmed(ctx, p.st, n.change, map[]) then !next.stopped
            else next.stopped && r.status.ApprovalRequired? && r.approval.Some? && r.approval.value.tool == n.change
                 && r.approval.value.arguments == map[] && next.st.world == p.st.world && next.st.calls == p.st.calls
  {
    InvokeChange(n, ctx, p.st);
    next := RunStep(Tools(n), ctx, steps[0], p);
    FirstStep(Tools(n), ctx, steps, p);
  }

  /** The first run: the lookup fails, and the change stops it. */
  lemma FirstRun(n: Command)
    requires Fails(n)
    ensures var s := TheStory(n); var first := s.First();
            && first.stopped && first.failed == {"s1"} && |first.results| == 2
            && !first.results[0].status.ApprovalRequired? && first.results[0].stepId == "s1" && !first.results[0].Ok()
            && first.results[1].status.ApprovalRequired? && first.results[1].stepId == "s2"
            && first.results[1].approval.Some? && first.results[1].approval.value.tool == n.change
            && first.results[1].approval.value.arguments == map[]
            && first.st.world == 0 && first.st.calls == Looked(n)
  {
    var s := TheStory(n);
    var p1 := LookUpFails(n, s.ctx, s.st);
    var p2 := ChangeRuns(n, s.ctx, AfterLookUp(n), p1);
    assert s.First() == p2;
    assert [] + Looked(n) == Looked(n);
  }

  lemma OneChangeInPlan(n: Command)
    requires Different(n)
    ensures RecordChanges(Tools(n), Plan(n)) == 1 && ValidPlan(Plan(n))
  {
    var plan := Plan(n);
    assert plan[1..] == AfterLookUp(n) && AfterLookUp(n)[1..] == [plan[2]] && [plan[2]][1..] == [];
    assert !IsChange(Tools(n), plan[0]) && IsChange(Tools(n), plan[1]) && !IsChange(Tools(n), plan[2]);
    assert RecordChanges(Tools(n), [plan[2]]) == 0;
    assert RecordChanges(Tools(n), AfterLookUp(n)) == 1;
    assert StepIds(plan)[0] == "s1";
  }

  lemma KeepsNothing(n: Command, r0: StepResult, r1: StepResult)
    requires Different(n)
    requires !r0.Ok() && !r0.status.ApprovalRequired?
    requires r1.status.ApprovalRequired? && r1.stepId == "s2" && r1.approval.Some?
    ensures FirstAsking([r0, r1]) == 1
    ensures Keep(Plan(n), [r0, r1]) == Some((r1.approval.value.approvalId, Kept(Plan(n), "s2", map[])))
  {
    var results, plan := [r0, r1], Plan(n);
    assert FirstAsking(results[1..]) == 0;
    assert IndexOf(plan[1..], "s2") == 0;
    assert results[..1] == [r0] && [r0][..0] == [];
    assert Outputs([], plan[2..]) == map[];
    assert Outputs([r0], plan[2..]) == map[];
  }

  /** What the stop asked for and kept. */
  lemma WhatWasKept(n: Command)
    requires Fails(n)
    ensures var results := TheStory(n).First().results;
            && AskedFor(results).Some? && AskedFor(results).value.tool == n.change
                && AskedFor(results).value.arguments == map[]
            && Keep(Plan(n), results).Some? && Keep(Plan(n), results).value.1 == Kept(Plan(n), "s2", map[])
  {
    FirstRun(n);
    var results := TheStory(n).First().results;
    KeepsNothing(n, results[0], results[1]);
    assert results == [results[0], results[1]];
  }

  lemma StoryAsks(n: Command)
    requires Fails(n)
    ensures TheStory(n).Asked()
  {
    FirstRun(n);
    WhatWasKept(n);
    OneChangeInPlan(n);
  }

  lemma StoryHolds(n: Command)
    requires Fails(n)
    ensures TheStory(n).Asked() && TheStory(n).Granted()
  {
    StoryAsks(n);
    WhatWasKept(n);
    StoryIsGranted(n, AskedFor(TheStory(n).First().results).value);
  }

  lemma StoryIsGranted(n: Command, c: Asked)
    requires Fails(n)
    requires c.tool == n.change && c.arguments == map[]
    requires TheStory(n).Asked() && AskedFor(TheStory(n).First().results).value == c
    requires Keep(Plan(n), TheStory(n).First().results).value.1 == Kept(Plan(n), "s2", map[])
    ensures TheStory(n).Granted()
  {
    ChangeIsConfirmed(n);
    FirstStops(n, TheStory(n).First());
  }

  lemma ChangeIsConfirmed(n: Command)
    requires Different(n)
    ensures var s := TheStory(n);
            && Check(s.env, "ada", s.env.tools[n.change], map[]) == Ok(map[])
            && Confirmed(s.granted, s.stGranted, n.change, map[])
            && Confirmed(s.resent, s.stResent, n.change, map[])
  {
    InvokeChange(n, TheStory(n).ctx, TheStory(n).st);
  }

  lemma FirstStops(n: Command, first: Progress<int>)
    requires Fails(n)
    requires first == TheStory(n).First()
    ensures first.st.world == 0 && first.st.calls == Looked(n)
  {
    FirstRun(n);
  }

  /** The uninterrupted run: the lookup fails, the change is made, and nobody is notified. */
  lemma WholeRun(n: Command)
    requires Fails(n)
    ensures !HasResult(TheStory(n).Whole().results, "s3")
  {
    var s := TheStory(n);
    var p1 := LookUpFails(n, s.granted, s.stGranted);
    var p2 := ChangeRuns(n, s.granted, AfterLookUp(n), p1);
    LostStepIsBlocked(n, s.granted, AfterLookUp(n)[1..], p2);
    OnlyThese(p2.results, p1.results);
  }

  lemma OnlyThese(results: seq<StepResult>, front: seq<StepResult>)
    requires |results| == 2 && |front| == 1 && results[..1] == front && front[0].stepId == "s1"
            && results[1].stepId == "s2"
    ensures !HasResult(results, "s3")
  {
    assert results[0] == front[0];
  }

  lemma LostStepIsBlocked(n: Command, ctx: Context, steps: seq<PlanStep>, p: Progress<int>)
    requires steps == [Last(n, ["s1"])] && "s1" in p.failed
    ensures Run(Tools(n), ctx, steps, p).results == p.results
  {
    assert steps[0].dependsOn[0] == "s1";
    assert steps[1..] == [];
  }

  /** What the re-sent command runs: the change, and then the notification, which waits for nothing any more. */
  lemma ResumedSteps(n: Command)
    requires Different(n)
    ensures var (steps, earlier) := Resume(Row(n, Some(Kept(Plan(n), "s2", map[]))));
            steps == [Step("s2", n.change, []), Last(n, [])] && earlier == map[]
  {
    var plan, row := Plan(n), Row(n, Some(Kept(Plan(n), "s2", map[])));
    assert StopIndex(plan, "s2", n.change) == 1;
    ResumedPlan(row, plan, 1, map[]);
    assert "s1" !in IdSet(plan[1..]) by {
      assert plan[1..][0] == plan[1] && plan[1..][1] == plan[2];
    }
    assert Present(["s1"], IdSet(plan[1..])) == Present([], IdSet(plan[1..]));
    assert TrimAll(plan[2..], IdSet(plan[1..])) == [Last(n, [])];
  }

  ghost predicate Notified(results: seq<StepResult>) {
    exists i :: 0 <= i < |results| && results[i].stepId == "s3" && results[i].Ok()
  }

  lemma NotifyRuns(n: Command, ctx: Context, steps: seq<PlanStep>, p: Progress<int>)
    requires Different(n) && n.bound == [] && steps == [Last(n, [])] && !p.stopped
    ensures Notified(Run(Tools(n), ctx, steps, p).results)
  {
    InvokeNotify(n, ctx, p.st);
    var next := RunStep(Tools(n), ctx, steps[0], p);
    FirstStep(Tools(n), ctx, steps, p);
    assert steps[1..] == [];
    assert next.results[|p.results|].stepId == "s3";
  }

  lemma SecondRun(n: Command)
    requires Different(n) && n.bound == []
    ensures Notified(TheStory(n).Second().results)
  {
    var s := TheStory(n);
    ResumedSteps(n);
    var steps := [Step("s2", n.change, []), Last(n, [])];
    var r1 := ChangeRuns(n, s.resent, steps, Start(s.stResent, map[]));
    NotifyRuns(n, s.resent, steps[1..], r1);
  }

  lemma MissingResult<W>(first: Progress<W>, second: Progress<W>, whole: Progress<W>, stepId: string)
    requires HasResult(second.results, stepId) && !HasResult(whole.results, stepId)
    ensures !SameAsUninterrupted(first, second, whole)
  {
    if SameAsUninterrupted(first, second, whole) {
      LaterHasResult(first.results[..|first.results| - 1], second.results, stepId);
    }
  }

  lemma LaterHasResult(before: seq<StepResult>, results: seq<StepResult>, stepId: string)
    requires HasResult(results, stepId)
    ensures HasResult(before + results, stepId)
  {
    var i :| 0 <= i < |results| && results[i].stepId == stepId;
    assert (before + results)[|before| + i] == results[i];
  }

  /** Whatever the three tools are called: the resumed run notifies although the lookup failed; the uninterrupted run
      does not. */
  lemma ResumedRunDoesMore(n: Command)
    requires Fails(n) && n.bound == []
    ensures var s := TheStory(n);
            && s.Asked() && s.Granted()
            && Notified(s.Second().results) && !HasResult(s.Whole().results, "s3")
            && !SameAsUninterrupted(s.First(), s.Second(), s.Whole())
  {
    StoryHolds(n);
    SecondRun(n);
    WholeRun(n);
    MissingResult(TheStory(n).First(), TheStory(n).Second(), TheStory(n).Whole(), "s3");
  }

  // ------------------------------------------------------------------- reading what failed

  /** The notification reads from the lookup. */
  predicate ReadsLookUp(n: Command) {
    |n.bound| == 1 && RefersToStep(n.bound[0].1, "s1")
  }

  /** Such a reference. */
  lemma ReferenceToLookUp()
    ensures RefersToStep("$s1.data", "s1")
  {
    assert "$" + "s1" + ".data" == "$s1.data";
    ReferenceNamesStep("s1", ".data");
    assert ".data"[1..] == "data" && Span("data", WordChar) == 4 && "data"[4..] == "";
  }

  lemma PlanIsCovered(n: Command)
    requires Different(n) && ReadsLookUp(n)
    ensures Covered(Plan(n), {})
  {
    var plan := Plan(n);
    assert plan[2].dependsOn[0] == plan[0].stepId;
    AwaitsDirectly(plan, 2, 0);
    forall i: nat, b: nat | i < |plan| && b < |plan[i].bindings|
      ensures CoveredBinding(plan, {}, i, plan[i].bindings[b].1)
    {
      assert i == 2 && b == 0;
    }
  }

  /** The last step waits for nothing and reads what nobody has left. */
  lemma LastReadsTooEarly(n: Command, ctx: Context, p: Progress<int>)
    requires ReadsLookUp(n) && !p.stopped && "s1" !in p.completed
    ensures !NeverUnknown(Tools(n), ctx, [Last(n, [])], p)
  {
    var step := [Last(n, [])][0];
    assert Unknown(Resolved(step, p.completed));
  }

  lemma FirstReadsWhatIsThere(n: Command, ctx: Context, st: State<int>)
    requires Different(n) && ReadsLookUp(n)
    ensures Covered(Plan(n), {}) && NeverUnknown(Tools(n), ctx, Plan(n), Start(st, map[]))
  {
    OneChangeInPlan(n);
    PlanIsCovered(n);
    CoveredPlansNeverHitUnknown(Tools(n), ctx, Plan(n), st, map[]);
  }

  /** The change is made, and the last step reads from the lookup, which is not among the outputs. */
  lemma ChangeThenMissing(n: Command, ctx: Context, st: State<int>)
    requires Different(n) && ReadsLookUp(n) && Confirmed(ctx, st, n.change, map[])
    ensures !NeverUnknown(Tools(n), ctx, [Step("s2", n.change, []), Last(n, [])], Start(st, map[]))
  {
    var steps := [Step("s2", n.change, []), Last(n, [])];
    var next := ChangeRuns(n, ctx, steps, Start(st, map[]));
    assert steps[1..] == [Last(n, [])];
    LastReadsTooEarly(n, ctx, next);
  }

  /** A plan that waits for what it reads, and whose first run meets no unknown step, reads from a step without output
      when it is resumed: what the failed lookup should have found. */
  lemma ResumedRunReadsWhatFailed(n: Command)
    requires Fails(n) && ReadsLookUp(n)
    ensures var s := TheStory(n);
            var (steps, earlier) := Resume(s.stResent.approvals[7]);
            && s.Asked() && s.Granted() && Covered(s.steps, {})
            && NeverUnknown(s.env, s.ctx, s.steps, Start(s.st, map[]))
            && !NeverUnknown(s.env, s.resent, steps, Start(s.stResent, earlier))
  {
    var s := TheStory(n);
    StoryHolds(n);
    FirstReadsWhatIsThere(n, s.ctx, s.st);
    ResumedSteps(n);
    ChangeThenMissing(n, s.resent, s.stResent);
  }
}
