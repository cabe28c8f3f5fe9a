/** A confirmed command is finished, not asked about again. */
module Confirmation {
  import opened Values
  import opened Contracts
  import opened Spec
  import opened Bindings
  import opened Gateway
  import opened Verification
  import opened Master
  import opened Resumption

  /** The overall status asks for a confirmation exactly when the run stopped for one. */
  lemma AsksExactlyWhenStopped<W>(env: Env<W>, ctx: Context, steps: seq<PlanStep>, p: Progress<W>)
    requires !p.stopped && p.results == []
    ensures var q := Run(env, ctx, steps, p); OverallStatus(steps, q.results).NeedsApproval? <==> q.stopped
  {
    var q := Run(env, ctx, steps, p);
    if q.stopped {
      LastAsks(env, ctx, steps, p);
      assert q.results[|q.results| - 1] in q.results;
    } else {
      RunningNeverAsked(env, ctx, steps, p);
    }
  }

  /** A run that has not stopped has asked for nothing. */
  lemma {:induction false} RunningNeverAsked<W>(env: Env<W>, ctx: Context, steps: seq<PlanStep>, p: Progress<W>)
    requires NoneAsking(p.results) && !Run(env, ctx, steps, p).stopped
    ensures NoneAsking(Run(env, ctx, steps, p).results)
    decreases |steps|
  {
    if steps != [] && !p.stopped {
      RunningNeverAsked(env, ctx, steps[1..], RunStep(env, ctx, steps[0], p));
    }
  }

  lemma LastAsks<W>(env: Env<W>, ctx: Context, steps: seq<PlanStep>, p: Progress<W>)
    requires !p.stopped && Run(env, ctx, steps, p).stopped
    ensures var results := Run(env, ctx, steps, p).results;
            |results| > 0 && results[|results| - 1].status.ApprovalRequired?
  {
    var k := StopsAtAChange(env, ctx, steps, p);
  }

  /** A resumed plan begins with the confirmed call, waiting for nothing and with nothing to resolve. */
  lemma ResumeStartsWithTheCall(row: Approval)
    ensures var steps := Resume(row).0;
            && steps != []
            && steps[0].tool == row.tool && steps[0].arguments == row.arguments
            && steps[0].dependsOn == [] && steps[0].bindings == []
  {
  }

  /** The row named by the context can be used now, and its tool still changes records. */
  ghost predicate Usable<W>(env: Env<W>, ctx: Context, st: State<W>) {
    && Registered(env)
    && ctx.approvalId.Some? && ctx.approvalId.value in st.approvals
    && var row := st.approvals[ctx.approvalId.value];
      && Claimable(row, ctx.principal, ctx.now)
      && row.tool in env.tools && env.tools[row.tool].risk == HighRisk
  }

  /** Checking the confirmed arguments again gives other arguments. */
  ghost predicate Drifts<W>(env: Env<W>, principal: string, row: Approval)
    requires row.tool in env.tools
  {
    var checked := Check(env, principal, env.tools[row.tool], row.arguments);
    checked.Ok? && checked.value != row.arguments
  }

  /** A command re-sent with a usable confirmation asks for another one exactly when the tool's
      validation changes its own output. */
  lemma AsksAgainExactlyWhen<W>(env: Env<W>, ctx: Context, st: State<W>, planned: Planned)
    requires Usable(env, ctx, st)
    requires RecordChanges(env, Resume(st.approvals[ctx.approvalId.value]).0) <= 1
    ensures var reply := Handled(env, true, ctx, st, planned).1;
            && reply.Ran?
            && (reply.status.NeedsApproval? <==> Drifts(env, ctx.principal, st.approvals[ctx.approvalId.value]))
  {
    var row := st.approvals[ctx.approvalId.value];
    var (steps, earlier) := Resume(row);
    ResumeStartsWithTheCall(row);
    assert IsChange(env, steps[0]);
    TheOnlyChange(env, steps, 0);
    var start := Start(st, earlier);
    var next := RunStep(env, ctx, steps[0], start);
    assert steps[0 + 1..] == steps[1..];
    FirstStepAsks(env, ctx, st, steps[0], start);
    if !next.stopped {
      PlainStepsNeverAsk(env, ctx, steps[1..], next);
    }
    AsksExactlyWhenStopped(env, ctx, steps, start);
  }

  lemma FirstStepAsks<W>(env: Env<W>, ctx: Context, st: State<W>, step: PlanStep, p: Progress<W>)
    requires Usable(env, ctx, st) && p.st == st && !p.stopped && p.results == []
    requires step.dependsOn == [] && step.bindings == []
    requires step.tool == st.approvals[ctx.approvalId.value].tool && step.arguments ==
            st.approvals[ctx.approvalId.value].arguments
    ensures var next := RunStep(env, ctx, step, p);
            && (next.stopped <==> Drifts(env, ctx.principal, st.approvals[ctx.approvalId.value]))
            && (!next.stopped ==> NoneAsking(next.results))
  {
    var tool := env.tools[step.tool];
    var checked := Check(env, ctx.principal, tool, step.arguments);
    if checked.Ok? {
      RecordChange(env, ctx, st, step.tool, step.arguments);
    } else {
      CheckNeverAsks(env, ctx.principal, tool, step.arguments);
    }
  }

  /** A tool without a validator of its own fixes its output on every call whose parameters settle. */
  lemma PlainToolsNeverDrift<W>(env: Env<W>, principal: string, tool: Tool<W>, arguments: Args)
    requires tool.validator.None? && UniqueNames(tool.params)
    requires Check(env, principal, tool, arguments).Ok?
    ensures var checked := Check(env, principal, tool, arguments).value;
            Check(env, principal, tool, checked) == Ok(checked) <==>
            forall i | 0 <= i < |tool.params| :: Settles(env.py, tool.params[i], Supplied(tool.params[i], arguments))
  {
    ValidationIsIdempotent(env.py, tool.params, arguments);
  }

  // ----------------------------------------------- confirming and re-sending

  /** A plan with more than one record change is never run, not even its first steps. */
  lemma OneChangeRule<W>(env: Env<W>, ctx: Context, st: State<W>, planned: Planned)
    requires RecordChanges(env, planned.steps) > 1 && ApprovedCall(env, ctx, st.approvals).None?
    ensures var (after, reply) := Handled(env, true, ctx, st, planned); after == st && reply.NeedsInput?
  {
  }

  /** The confirmation the first command asked for, accepted in time and carried by the re-sent command. */
  ghost predicate ConfirmedInTime<W>(s: Story<W>, decidedAt: int)
    requires s.Asked()
  {
    var c := AskedFor(s.First().results).value;
    var kept := WithKept(s.ctx, s.First().st, s.steps, s.First().results);
    var expires := s.ctx.now + s.env.ttl;
    && decidedAt <= expires && s.resent.now < expires
    && s.resent.principal == s.ctx.principal && s.resent.approvalId == Some(c.approvalId)
    && s.stResent == Decide(kept, s.ctx.principal, c.approvalId, true, decidedAt).0
  }

  /** Asking, keeping, deciding and re-sending lead to a usable confirmation of exactly the asked call,
      with the plan kept in it and the records untouched. */
  lemma KeptAndConfirmed<W>(s: Story<W>, decidedAt: int)
    requires s.Asked() && ConfirmedInTime(s, decidedAt)
    ensures var c := AskedFor(s.First().results).value;
            && Decide(WithKept(s.ctx, s.First().st, s.steps, s.First().results), s.ctx.principal, c.approvalId, true,
                decidedAt).1 == None
            && Usable(s.env, s.resent, s.stResent)
            && Confirmed(s.resent, s.stResent, c.tool, c.arguments)
            && s.stResent.approvals[c.approvalId].resume == Some(Keep(s.steps, s.First().results).value.1)
            && s.stResent.world == s.First().st.world && s.stResent.calls == s.First().st.calls
  {
    var k := StopShape(s.env, s.ctx, s.steps, s.st);
    PendingRow(s, k);
  }

  /** The row created by the stop holds the asked call and the caller's principal, and waits for a decision. */
  lemma PendingRow<W>(s: Story<W>, k: nat)
    requires s.Asked() && k < |s.steps| && s.steps[k].tool in s.env.tools
            && s.env.tools[s.steps[k].tool].risk == HighRisk
    requires NoChange(s.env, s.steps[..k]) && NoChange(s.env, s.steps[k + 1..])
    ensures var c := AskedFor(s.First().results).value;
            && c.approvalId in s.First().st.approvals
            && s.First().st.approvals[c.approvalId] == Approval(s.ctx.principal, c.tool, c.arguments, Pending,
                s.ctx.now + s.env.ttl, None)
  {
    var start := Start(s.st, map[]);
    var before := Run(s.env, s.ctx, s.steps[..k], start);
    PlainStepsNeverAsk(s.env, s.ctx, s.steps[..k], start);
    SplitAt(s.env, s.ctx, s.steps, k, start);
    var next := RunStep(s.env, s.ctx, s.steps[k], before);
    if !next.stopped {
      RunningAfter(s.env, s.ctx, s.steps[k + 1..], next);
    }
    StopCreatesRow(s.env, s.ctx, s.steps[k], before);
    AsksLast(before.results, next.results[|before.results|]);
  }

  /** A step that stops the run adds the result that asks, and creates its row. */
  lemma StopCreatesRow<W>(env: Env<W>, ctx: Context, step: PlanStep, p: Progress<W>)
    requires Registered(env) && step.tool in env.tools && env.tools[step.tool].risk == HighRisk && !p.stopped
    requires RunStep(env, ctx, step, p).stopped
    ensures var next := RunStep(env, ctx, step, p);
            && |next.results| == |p.results| + 1 && next.results == p.results + [next.results[|p.results|]]
            && var r := next.results[|p.results|];
              && r.status.ApprovalRequired? && r.approval.Some?
              && r.approval.value.approvalId in next.st.approvals
              && next.st.approvals[r.approval.value.approvalId] ==
                   Approval(ctx.principal, r.approval.value.tool, r.approval.value.arguments, Pending,
                       ctx.now + env.ttl, None)
  {
    var resolved := ResolveAll(step.arguments, step.bindings, p.completed);
    StopInvocation(env, ctx, p.st, step.tool, resolved.value);
    RecordChange(env, ctx, p.st, step.tool, resolved.value);
  }

  /** Confirming in time and re-sending finishes the plan: the two runs together are the uninterrupted
      run whenever no later step waits for one that failed, and nothing is asked again. */
  lemma ConfirmedResendFinishes<W>(s: Story<W>, decidedAt: int, first: Progress<W>, whole: Progress<W>,
      second: Progress<W>)
    requires s.Asked() && ConfirmedInTime(s, decidedAt)
    requires s.granted.principal == s.ctx.principal && s.stGranted.world == s.st.world
            && s.stGranted.calls == s.st.calls
    requires var c := AskedFor(s.First().results).value;
             && Confirmed(s.granted, s.stGranted, c.tool, c.arguments)
             && c.tool in s.env.tools && Check(s.env, s.ctx.principal, s.env.tools[c.tool], c.arguments) ==
                 Ok(c.arguments)
    requires first == s.First() && whole == s.Whole()
    requires s.resent.approvalId.value in s.stResent.approvals && second == s.Second()
    requires NoneBlocked(Remaining(s.steps, first.results)[1..], first.failed)
    ensures SameAsUninterrupted(first, second, whole) && !second.stopped
  {
    KeptAndConfirmed(s, decidedAt);
    ResumeKeepsMeaning(s, first, whole, second);
    var k, u, r := AtTheChange(s, first, whole, second);
    var after := s.steps[k + 1..];
    TrimmedChanges(s.env, after, IdSet(s.steps[k..]));
    RunningAfter(s.env, s.resent, TrimAll(after, IdSet(s.steps[k..])), r);
  }

  // ----------------------------------------------- the one-change rule and the resumed plan

  lemma {:induction false} TrimmingKeepsChanges<W>(env: Env<W>, steps: seq<PlanStep>, present: set<string>)
    ensures RecordChanges(env, TrimAll(steps, present)) == RecordChanges(env, steps)
  {
    if steps != [] {
      assert TrimAll(steps, present)[1..] == TrimAll(steps[1..], present);
      TrimmingKeepsChanges(env, steps[1..], present);
    }
  }

  /** What is resumed changes no more records than the plan it was kept from. */
  lemma ResumedPlanHasNoMoreChanges<W>(env: Env<W>, row: Approval)
    requires row.resume.Some? && RecordChanges(env, row.resume.value.steps) <= 1
    ensures RecordChanges(env, Resume(row).0) <= 1
  {
    var steps := row.resume.value.steps;
    var k := StopIndex(steps, row.resume.value.stoppedAt, row.tool);
    if k < |steps| {
      ConfirmedTail(env, steps, k, row.arguments);
    } else {
      assert Resume(row).0[1..] == [];
    }
  }

  lemma ConfirmedTail<W>(env: Env<W>, steps: seq<PlanStep>, k: nat, arguments: Args)
    requires k < |steps|
    ensures var remaining := [ConfirmedStep(steps[k], arguments)] + steps[k + 1..];
            RecordChanges(env, TrimAll(remaining, IdSet(remaining))) <= RecordChanges(env, steps)
  {
    var confirmed, after := ConfirmedStep(steps[k], arguments), steps[k + 1..];
    TrimmingKeepsChanges(env, [confirmed] + after, IdSet([confirmed] + after));
    assert steps == steps[..k] + ([steps[k]] + after);
    ChangesSplit(env, steps[..k], [steps[k]] + after);
    ChangesOfFirst(env, steps[k], after);
    ChangesOfFirst(env, confirmed, after);
  }

  lemma ChangesOfFirst<W>(env: Env<W>, step: PlanStep, rest: seq<PlanStep>)
    ensures RecordChanges(env, [step] + rest) == (if IsChange(env, step) then 1 else 0) + RecordChanges(env, rest)
  {
    assert ([step] + rest)[1..] == rest;
  }

  /** Asked, confirmed in time and re-sent, a command runs; it asks for another confirmation exactly when the tool's
      validation changes the arguments it validated itself. */
  lemma ResendAsksExactlyWhen<W>(s: Story<W>, decidedAt: int, planned: Planned)
    requires s.Asked() && ConfirmedInTime(s, decidedAt)
    ensures s.resent.approvalId.value in s.stResent.approvals
    ensures var row := s.stResent.approvals[s.resent.approvalId.value];
            var reply := Handled(s.env, true, s.resent, s.stResent, planned).1;
            && row.tool in s.env.tools && reply.Ran?
            && (reply.status.NeedsApproval? <==> Drifts(s.env, s.resent.principal, row))
  {
    KeptAndConfirmed(s, decidedAt);
    var row := s.stResent.approvals[s.resent.approvalId.value];
    KeepKeepsThePlan(s.steps, s.First().results);
    ResumedPlanHasNoMoreChanges(s.env, row);
    AsksAgainExactlyWhen(s.env, s.resent, s.stResent, planned);
  }

  lemma KeepKeepsThePlan(steps: seq<PlanStep>, results: seq<StepResult>)
    ensures Keep(steps, results).Some? ==> Keep(steps, results).value.1.steps == steps
  {
  }
}
