/** Who may call what: every handler call and every confirmation row stands for a call that was validated, permitted
    to its principal and accepted by the tool's validator (apps/api/app/gateway/gateway.py, `invoke`), in one call,
    in a run of a plan (apps/api/app/agents/master.py, `execute`) and in a whole command (`handle`). */
module Permission {
  import opened Values
  import opened Contracts
  import opened Spec
  import opened Bindings
  import opened Gateway
  import opened Master
  import opened Acceptance

  // ------------------------------------------------------------------- the checks

  /** A validator has the last word on the arguments; without one they stay as validated. */
  ghost predicate ValidatorGives<W>(tool: Tool<W>, principal: string, validated: Args, checked: Args) {
    if tool.validator.None? then checked == validated else tool.validator.value(principal, validated) == Ok(checked)
  }

  /** Arguments pass the checks exactly when they validate, the principal is permitted, and the tool's validator accepts
      them. */
  lemma CheckedExactlyWhen<W>(env: Env<W>, principal: string, tool: Tool<W>, arguments: Args, checked: Args)
    ensures Check(env, principal, tool, arguments) == Ok(checked) <==>
            && Validate(env.py, tool.params, arguments).Ok? && tool.permits(principal)
            && ValidatorGives(tool, principal, Validate(env.py, tool.params, arguments).value, checked)
  {
  }

  /** The status of a call whose checks fail. */
  function RefusalStatus(refusal: Refusal): Status {
    match refusal
    case Refused(_) => Denied
    case Unsuitable(_) => InvalidArguments
    case Broken => Failed
  }

  /** Only the audit trail tells of a refused call. */
  ghost predicate OnlyAudited<W>(st: State<W>, after: State<W>, ctx: Context, tool: string, outcome: Outcome) {
    after == st.(audit := st.audit + [AuditEvent(ctx.principal, tool, outcome)])
  }

  /** Each way of refusing a call: an unknown tool, arguments that do not validate, a principal who is not permitted, a
      validator that objects. Nothing but the audit trail changes. */
  lemma RefusedCalls<W>(env: Env<W>, ctx: Context, st: State<W>, toolName: string, arguments: Args)
    ensures var (after, invocation) := Invoke(env, ctx, st, toolName, arguments);
            if toolName !in env.tools then
              invocation.status == UnknownTool && OnlyAudited(st, after, ctx, toolName, AuditDenied)
            else
              var tool := env.tools[toolName];
              var validated := Validate(env.py, tool.params, arguments);
              && (validated.Err? ==>
                    invocation.status == InvalidArguments && OnlyAudited(st, after, ctx, toolName, AuditDenied))
              && (validated.Ok? && !tool.permits(ctx.principal) ==>
                    invocation.status == Denied && OnlyAudited(st, after, ctx, toolName, AuditDenied))
              && (validated.Ok? && tool.permits(ctx.principal) && tool.validator.Some?
                  && tool.validator.value(ctx.principal, validated.value).Err? ==>
                    var refusal := tool.validator.value(ctx.principal, validated.value).error;
                    && invocation.status == RefusalStatus(refusal)
                    && OnlyAudited(st, after, ctx, toolName, if refusal.Broken? then AuditFailed else AuditDenied))
  {
  }

  // ------------------------------------------------------------------- one call

  /** The principal may make this call of the tool, with arguments as the checks leave them. */
  ghost predicate Allowed<W>(env: Env<W>, principal: string, call: Call) {
    && call.principal == principal && call.tool in env.tools && env.tools[call.tool].permits(principal)
    && exists given, validated :: Validate(env.py, env.tools[call.tool].params, given) == Ok(validated)
         && ValidatorGives(env.tools[call.tool], principal, validated, call.arguments)
  }

  /** The confirmation that the context carries was accepted and is of this call. */
  ghost predicate CarriesConfirmation<W>(ctx: Context, st: State<W>, call: Call) {
    && ctx.approvalId.Some? && ctx.approvalId.value in st.approvals
    && var row := st.approvals[ctx.approvalId.value];
      && row.status == Approved && ctx.now < row.expiresAt
      && Call(row.principal, row.tool, row.arguments) == call
  }

  ghost predicate MayRun<W>(env: Env<W>, ctx: Context, st: State<W>, call: Call) {
    && Allowed(env, ctx.principal, call)
    && (env.tools[call.tool].risk == HighRisk ==> CarriesConfirmation(ctx, st, call))
  }

  lemma CheckedIsAllowed<W>(env: Env<W>, principal: string, toolName: string, arguments: Args)
    requires Registered(env) && toolName in env.tools && Check(env, principal, env.tools[toolName], arguments).Ok?
    ensures Allowed(env, principal, Call(principal, toolName,
                Check(env, principal, env.tools[toolName], arguments).value))
  {
    var checked := Check(env, principal, env.tools[toolName], arguments).value;
    CheckedExactlyWhen(env, principal, env.tools[toolName], arguments, checked);
  }

  /** Nothing was called; a confirmation may have been asked for, of an allowed call. */
  ghost predicate AsksAtMost<W>(env: Env<W>, ctx: Context, st: State<W>, after: State<W>, toolName: string) {
    && after.calls == st.calls && after.world == st.world
    && if after.nextId == st.nextId then after.approvals == st.approvals
       else
         exists asked ::
           && Allowed(env, ctx.principal, Call(ctx.principal, toolName, asked))
           && after.approvals == st.approvals[st.nextId :=
                Approval(ctx.principal, toolName, asked, Pending, ctx.now + env.ttl, None)]
  }

  ghost predicate CallsOnce<W>(env: Env<W>, ctx: Context, st: State<W>, after: State<W>, toolName: string) {
    exists call: Call ::
      call.tool == toolName && MayRun(env, ctx, st, call) && after.calls == st.calls + [call]
  }

  /** A handler call that a call makes is allowed, and under a confirmation if it changes records; a confirmation is
      asked for only of an allowed call. */
  lemma CallsArePermitted<W>(env: Env<W>, ctx: Context, st: State<W>, toolName: string, arguments: Args)
    requires Registered(env)
    ensures var after := Invoke(env, ctx, st, toolName, arguments).0;
            CallsOnce(env, ctx, st, after, toolName) || AsksAtMost(env, ctx, st, after, toolName)
  {
    if toolName in env.tools && Check(env, ctx.principal, env.tools[toolName], arguments).Ok? {
      CheckedIsAllowed(env, ctx.principal, toolName, arguments);
      var checked := Check(env, ctx.principal, env.tools[toolName], arguments).value;
      var call := Call(ctx.principal, toolName, checked);
      if env.tools[toolName].risk == HighRisk {
        ChangeIsConfirmed(env, ctx, st, env.tools[toolName], checked);
        assert CarriesConfirmation(ctx, st, call) ==> MayRun(env, ctx, st, call);
      } else {
        assert MayRun(env, ctx, st, call);
      }
    }
  }

  lemma ChangeIsConfirmed<W>(env: Env<W>, ctx: Context, st: State<W>, tool: Tool<W>, checked: Args)
    ensures var (after, invocation) := ChangeRecord(env, ctx, st, tool, checked);
            var call := Call(ctx.principal, tool.name, checked);
            if CarriesConfirmation(ctx, st, call) then after.calls == st.calls + [call] && after.nextId == st.nextId
            else
              && after.calls == st.calls && after.world == st.world
              && after.approvals == st.approvals[st.nextId := Approval(ctx.principal, tool.name, checked, Pending,
                   ctx.now + env.ttl, None)]
  {
  }

  /** A permitted call that changes no record is the handler's, with the checked arguments, and its outcome is the
      caller's and the audit trail's. */
  lemma PermittedCallRuns<W>(env: Env<W>, ctx: Context, st: State<W>, toolName: string, arguments: Args)
    requires Registered(env) && toolName in env.tools && env.tools[toolName].risk != HighRisk
    requires Check(env, ctx.principal, env.tools[toolName], arguments).Ok?
    ensures var checked := Check(env, ctx.principal, env.tools[toolName], arguments).value;
            var (world, result) := env.tools[toolName].handler(st.world, ctx.principal, checked);
            var (after, invocation) := Invoke(env, ctx, st, toolName, arguments);
            && after.world == world && after.calls == st.calls + [Call(ctx.principal, toolName, checked)]
            && after.approvals == st.approvals && after.nextId == st.nextId
            && Tells(result, invocation)
  {
    var checked := Check(env, ctx.principal, env.tools[toolName], arguments).value;
    HandlerTells(env.tools[toolName].handler(st.world, ctx.principal, checked).1);
  }

  lemma HandlerTells(result: HandlerResult)
    ensures Tells(result, HandlerInvocation(result))
  {
    match result
    case Done(_, _) =>
    case HandlerDenied(_) =>
    case HandlerError(_) =>
    case HandlerCrash =>
  }

  /** What the caller hears of what the handler did. */
  ghost predicate Tells(result: HandlerResult, invocation: Invocation) {
    && (invocation.status == Success <==> result.Done?)
    && (result.Done? ==> invocation.data == result.data && invocation.summary == result.summary)
    && (invocation.status == Denied <==> result.HandlerDenied?)
    && (invocation.status == Failed <==> result.HandlerError? || result.HandlerCrash?)
    && (result.HandlerDenied? || result.HandlerError? ==> invocation.reason == result.reason)
    && (result.HandlerCrash? ==> invocation.reason == HANDLER_FAILURE) && invocation.approval == None
  }

  /** One more event, of this call and its end. */
  ghost predicate AuditTells<W>(st: State<W>, after: State<W>, ctx: Context, toolName: string, status: Status) {
    && |after.audit| == |st.audit| + 1 && after.audit[..|st.audit|] == st.audit
    && after.audit[|st.audit|] == AuditEvent(ctx.principal, toolName, EndOf(status))
  }

  function EndOf(status: Status): Outcome {
    match status
    case Success => AuditSuccess
    case ApprovalRequired => AuditPartial
    case Failed => AuditFailed
    case _ => AuditDenied
  }

  /** The audit trail says how each call ended. */
  lemma AuditTellsTheEnd<W>(env: Env<W>, ctx: Context, st: State<W>, toolName: string, arguments: Args)
    requires Registered(env)
    ensures var (after, invocation) := Invoke(env, ctx, st, toolName, arguments);
            AuditTells(st, after, ctx, toolName, invocation.status)
  {
    if toolName in env.tools {
      var tool := env.tools[toolName];
      var checked := Check(env, ctx.principal, tool, arguments);
      if checked.Err? {
        RefusedCalls(env, ctx, st, toolName, arguments);
        RefusalEnds(env, ctx.principal, tool, arguments);
      } else if tool.risk != HighRisk {
        HandlingTells(ctx, st, tool, checked.value, None);
      } else {
        ChangeTells(env, ctx, st, tool, checked.value);
      }
    }
  }

  lemma RefusalEnds<W>(env: Env<W>, principal: string, tool: Tool<W>, arguments: Args)
    requires Check(env, principal, tool, arguments).Err?
    ensures var refused := Check(env, principal, tool, arguments).error; CheckOutcome(refused) == EndOf(refused.status)
  {
  }

  lemma HandlingTells<W>(ctx: Context, st: State<W>, tool: Tool<W>, arguments: Args, claimed: Option<nat>)
    requires claimed.Some? ==> claimed.value in st.approvals
    ensures var (after, invocation) := Handle(ctx, st, tool, arguments, claimed);
            AuditTells(st, after, ctx, tool.name, invocation.status)
  {
    HandlerTells(tool.handler(st.world, ctx.principal, arguments).1);
  }

  lemma ChangeTells<W>(env: Env<W>, ctx: Context, st: State<W>, tool: Tool<W>, checked: Args)
    ensures var (after, invocation) := ChangeRecord(env, ctx, st, tool, checked);
            AuditTells(st, after, ctx, tool.name, invocation.status)
  {
    var usable := ApprovalState(ctx, st, tool.name, checked).0;
    if usable.Some? && Claimable(st.approvals[usable.value], ctx.principal, ctx.now) {
      HandlingTells(ctx, WithStatus(st, usable.value, Executing), tool, checked, usable);
    }
  }

  // ------------------------------------------------------------------- runs of plans

  /** The calls made between two states may all have been run. */
  ghost predicate AllMayRun<W>(env: Env<W>, ctx: Context, st: State<W>, later: State<W>) {
    && st.calls <= later.calls
    && forall i | |st.calls| <= i < |later.calls| :: MayRun(env, ctx, st, later.calls[i])
  }

  /** Only the status of accepted rows may have changed, and only pending rows have come. */
  ghost predicate RowsStay<W>(st: State<W>, later: State<W>) {
    && (forall id | id in st.approvals :: id in later.approvals && RowStays(st.approvals[id], later.approvals[id]))
    && forall id | id in later.approvals && id !in st.approvals :: later.approvals[id].status == Pending
  }

  ghost predicate RowStays(row: Approval, later: Approval) {
    later.(status := row.status) == row && (row.status != Approved ==> later == row)
  }

  lemma CallKeepsRows<W>(env: Env<W>, ctx: Context, st: State<W>, toolName: string, arguments: Args)
    requires Registered(env) && Numbered(st)
    ensures var after := Invoke(env, ctx, st, toolName, arguments).0;
            Numbered(after) && RowsStay(st, after) && AllMayRun(env, ctx, st, after)
  {
    CallsArePermitted(env, ctx, st, toolName, arguments);
    if toolName in env.tools && Check(env, ctx.principal, env.tools[toolName], arguments).Ok?
        && env.tools[toolName].risk == HighRisk {
      ChangeKeepsRows(env, ctx, st, env.tools[toolName],
          Check(env, ctx.principal, env.tools[toolName], arguments).value);
    }
  }

  lemma ChangeKeepsRows<W>(env: Env<W>, ctx: Context, st: State<W>, tool: Tool<W>, checked: Args)
    requires Numbered(st)
    ensures var after := ChangeRecord(env, ctx, st, tool, checked).0; Numbered(after) && RowsStay(st, after)
  {
    var usable := ApprovalState(ctx, st, tool.name, checked).0;
    if usable.Some? && Claimable(st.approvals[usable.value], ctx.principal, ctx.now) {
      HandlingKeepsRows(ctx, st, tool, checked, usable.value);
    }
  }

  lemma HandlingKeepsRows<W>(ctx: Context, st: State<W>, tool: Tool<W>, checked: Args, id: nat)
    requires Numbered(st) && id in st.approvals && st.approvals[id].status == Approved
    ensures var after := Handle(ctx, WithStatus(st, id, Executing), tool, checked, Some(id)).0;
            Numbered(after) && RowsStay(st, after)
  {
  }

  lemma MayRunThen<W>(env: Env<W>, ctx: Context, st: State<W>, middle: State<W>, later: State<W>)
    requires RowsStay(st, middle) && RowsStay(middle, later)
    requires AllMayRun(env, ctx, st, middle) && AllMayRun(env, ctx, middle, later)
    ensures RowsStay(st, later) && AllMayRun(env, ctx, st, later)
  {
    forall i | |st.calls| <= i < |later.calls| ensures MayRun(env, ctx, st, later.calls[i]) {
      if i < |middle.calls| {
        assert later.calls[i] == middle.calls[i];
      }
    }
  }

  lemma {:induction false} RunCallsArePermitted<W>(env: Env<W>, ctx: Context, steps: seq<PlanStep>, p: Progress<W>)
    requires Registered(env) && Numbered(p.st)
    ensures var q := Run(env, ctx, steps, p); Numbered(q.st) && RowsStay(p.st, q.st) && AllMayRun(env, ctx, p.st, q.st)
    decreases |steps|
  {
    if steps != [] && !p.stopped {
      var next := RunStep(env, ctx, steps[0], p);
      var r := ResolveAll(steps[0].arguments, steps[0].bindings, p.completed);
      if !Blocked(steps[0], p.failed) && r.Ok? {
        CallKeepsRows(env, ctx, p.st, steps[0].tool, r.value);
      }
      RunCallsArePermitted(env, ctx, steps[1..], next);
      MayRunThen(env, ctx, p.st, next.st, Run(env, ctx, steps, p).st);
    }
  }

  // ------------------------------------------------------------------- whole commands

  /** However a command ends: each handler call it makes is of its principal, validated and permitted, and a record
      change only under the confirmation that the command carries, accepted before it and of just that call. */
  lemma CommandsArePermitted<W>(env: Env<W>, mayCommand: bool, ctx: Context, st: State<W>, planned: Planned)
    requires Registered(env) && Numbered(st)
    ensures AllMayRun(env, ctx, st, Handled(env, mayCommand, ctx, st, planned).0)
    ensures !mayCommand ==> Handled(env, mayCommand, ctx, st, planned) == (st, NotAllowed)
  {
    var approved := ApprovedCall(env, ctx, st.approvals);
    var (steps, earlier) := if approved.Some? then Resume(approved.value) else (planned.steps, map[]);
    RunCallsArePermitted(env, ctx, steps, Start(st, earlier));
  }
}
