/** The tool gateway: validate, authorize, confirm, execute and audit one tool call
    (apps/api/app/gateway/gateway.py, over the approval rows of institution_data/store.py). */
module Gateway {
  import opened Values
  import opened Contracts
  import opened Spec

  datatype ApprovalStatus = Pending | Approved | Executing | Consumed | Rejected | Expired

  /** An approval row. The arguments stand for their own digest: a digest names one set of arguments. */
  datatype Approval = Approval(
    principal: string,
    tool: string,
    arguments: Args,
    status: ApprovalStatus,
    expiresAt: int,
    resume: Option<Kept>)

  datatype Refusal = Refused(reason: string) | Unsuitable(reason: string) | Broken

  datatype HandlerResult = Done(data: Value,
      summary: string) | HandlerDenied(reason: string) | HandlerError(reason: string) | HandlerCrash

  /** A registered tool. `permits` is the authorization and policy decision for a principal;
      a handler acts on the world of records it changes, whatever that is. */
  datatype Tool<!W> = Tool(
    name: string,
    params: seq<ParameterSpec>,
    risk: Risk,
    permits: string -> bool,
    validator: Option<(string, Args) -> Result<Args, Refusal>>,
    handler: (W, string, Args) -> (W, HandlerResult))

  datatype Env<!W> = Env(tools: map<string, Tool<W>>, ttl: int, py: Python)

  datatype Context = Context(principal: string, approvalId: Option<nat>, now: int)

  datatype Call = Call(principal: string, tool: string, arguments: Args)

  datatype Outcome = AuditSuccess | AuditPartial | AuditDenied | AuditFailed

  datatype AuditEvent = AuditEvent(principal: string, tool: string, outcome: Outcome)

  /** Everything a call can read or change: the records, the approvals, the handler calls and the audit trail. */
  datatype State<!W> = State(
    world: W,
    approvals: map<nat, Approval>,
    nextId: nat,
    calls: seq<Call>,
    audit: seq<AuditEvent>)

  datatype Invocation = Invocation(status: Status, summary: string, data: Value, reason: string,
      approval: Option<Asked>)

  const HANDLER_FAILURE: string :=
    "the tool could not complete because of an internal error; the details have been logged for the administrator"

  function Stopped(status: Status, reason: string): Invocation {
    Invocation(status, "", Null, reason, None)
  }

  // ------------------------------------------------------------------ checks

  /** Everything that happens to the arguments before a confirmation is looked at. */
  function Check<W>(env: Env<W>, principal: string, tool: Tool<W>, arguments: Args): Result<Args, Invocation> {
    match Validate(env.py, tool.params, arguments)
    case Err(_) => Err(Stopped(InvalidArguments, "invalid arguments"))
    case Ok(validated) =>
      if !tool.permits(principal) then Err(Stopped(Denied, "permission"))
      else if tool.validator.None? then Ok(validated)
      else
        match tool.validator.value(principal, validated)
        case Ok(normal) => Ok(normal)
        case Err(Refused(reason)) => Err(Stopped(Denied, reason))
        case Err(Unsuitable(reason)) => Err(Stopped(InvalidArguments, reason))
        case Err(Broken) => Err(Stopped(Failed, HANDLER_FAILURE))
  }

  function CheckOutcome(refused: Invocation): Outcome {
    if refused.status.Failed? then AuditFailed else AuditDenied
  }

  function NoteFor(status: ApprovalStatus): Note {
    match status
    case Pending => NotConfirmed
    case Rejected => Cancelled
    case Executing => AlreadyRunning
    case Approved => AlreadyRunning
    case Consumed => AlreadyUsed
    case Expired => TooOld
  }

  /** The approval the caller named, when it can be used for this call, or why it cannot. */
  function ApprovalState<W>(ctx: Context, st: State<W>, tool: string, arguments: Args): (Option<nat>, Option<Note>) {
    if ctx.approvalId.None? then (None, None)
    else
      var id := ctx.approvalId.value;
      if id !in st.approvals || st.approvals[id].principal != ctx.principal then (None, Some(NotFound))
      else
        var row := st.approvals[id];
        if row.tool != tool || row.arguments != arguments then (None, Some(DifferentChange))
        else if row.status != Approved then (None, Some(NoteFor(row.status)))
        else if row.expiresAt < ctx.now then (None, Some(TooOld))
        else (Some(id), None)
  }

  /** The store's atomic claim: one approved, unexpired row of this principal becomes `Executing`. */
  predicate Claimable(row: Approval, principal: string, now: int) {
    row.principal == principal && row.status == Approved && row.expiresAt > now
  }

  function WithStatus<W>(st: State<W>, id: nat, status: ApprovalStatus): State<W>
    requires id in st.approvals
  {
    st.(approvals := st.approvals[id := st.approvals[id].(status := status)])
  }

  function Audited<W>(st: State<W>, ctx: Context, tool: string, outcome: Outcome): State<W> {
    st.(audit := st.audit + [AuditEvent(ctx.principal, tool, outcome)])
  }

  function Requested<W>(env: Env<W>, ctx: Context, st: State<W>, tool: string, arguments: Args): State<W> {
    st.(approvals := st.approvals[st.nextId := Approval(ctx.principal, tool, arguments, Pending, ctx.now + env.ttl,
        None)],
        nextId := st.nextId + 1)
  }

  // ------------------------------------------------------------------ invoke

  function HandlerInvocation(result: HandlerResult): Invocation {
    match result
    case Done(data, summary) => Invocation(Success, summary, data, "", None)
    case HandlerDenied(reason) => Stopped(Denied, reason)
    case HandlerError(reason) => Stopped(Failed, reason)
    case HandlerCrash => Stopped(Failed, HANDLER_FAILURE)
  }

  function HandlerOutcome(result: HandlerResult): Outcome {
    match result
    case Done(_, _) => AuditSuccess
    case HandlerDenied(_) => AuditDenied
    case _ => AuditFailed
  }

  /** The handler runs; a claimed approval is consumed by success and returned by failure. */
  function Handle<W>(ctx: Context, st: State<W>, tool: Tool<W>, arguments: Args, claimed: Option<nat>): (State<W>,
      Invocation)
    requires claimed.Some? ==> claimed.value in st.approvals
  {
    var (world, result) := tool.handler(st.world, ctx.principal, arguments);
    var ran := st.(world := world, calls := st.calls + [Call(ctx.principal, tool.name, arguments)]);
    var settled := if claimed.None? then ran else WithStatus(ran, claimed.value, if result.Done? then Consumed
        else Approved);
    (Audited(settled, ctx, tool.name, HandlerOutcome(result)), HandlerInvocation(result))
  }

  function Invoke<W>(env: Env<W>, ctx: Context, st: State<W>, toolName: string, arguments: Args): (State<W>,
      Invocation) {
    if toolName !in env.tools then (Audited(st, ctx, toolName, AuditDenied),
        Stopped(UnknownTool, "the requested tool is not registered"))
    else
      var tool := env.tools[toolName];
      match Check(env, ctx.principal, tool, arguments)
      case Err(refused) => (Audited(st, ctx, toolName, CheckOutcome(refused)), refused)
      case Ok(validated) =>
        if tool.risk != HighRisk then Handle(ctx, st, tool, validated, None)
            else ChangeRecord(env, ctx, st, tool, validated)
  }

  /** A record change runs under a confirmation that can be claimed, and asks for one otherwise. */
  function ChangeRecord<W>(env: Env<W>, ctx: Context, st: State<W>, tool: Tool<W>, validated: Args): (State<W>,
      Invocation) {
    var (usable, note) := ApprovalState(ctx, st, tool.name, validated);
    if usable.Some? && Claimable(st.approvals[usable.value], ctx.principal, ctx.now) then
      Handle(ctx, WithStatus(st, usable.value, Executing), tool, validated, usable)
    else
      var why := if usable.Some? then Some(AlreadyRunning) else note;
      (Audited(Requested(env, ctx, st, tool.name, validated), ctx, tool.name, AuditPartial),
       Invocation(ApprovalRequired, tool.name + " changes institutional records and needs your confirmation", Null, "",
                  Some(Asked(st.nextId, tool.name, validated, why))))
  }

  datatype DecideError = NoSuchApproval | NotYours | AlreadyDecided(status: ApprovalStatus) | DecidedTooLate

  /** The requester accepts or rejects a confirmation, check and write taken together. */
  function Decide<W>(st: State<W>, principal: string, id: nat, approve: bool, now: int): (State<W>,
      Option<DecideError>) {
    if id !in st.approvals then (st, Some(NoSuchApproval))
    else
      var row := st.approvals[id];
      if row.principal != principal then (st, Some(NotYours))
      else if row.status != Pending then (st, Some(AlreadyDecided(row.status)))
      else if approve && row.expiresAt < now then (WithStatus(st, id, Expired), Some(DecidedTooLate))
      else (WithStatus(st, id, if approve then Approved else Rejected), None)
  }

  function SetResume<W>(st: State<W>, principal: string, id: nat, kept: Kept): State<W> {
    if id in st.approvals && st.approvals[id].principal == principal && st.approvals[id].status == Pending
    then st.(approvals := st.approvals[id := st.approvals[id].(resume := Some(kept))])
    else st
  }

  ghost predicate Registered<W>(env: Env<W>) {
    forall name | name in env.tools :: env.tools[name].name == name
  }

  // ---------------------------------------------------------------- the class

  class ToolGateway<W> {
    const env: Env<W>
    var world: W
    var approvals: map<nat, Approval>
    var nextId: nat
    var calls: seq<Call>
    var audit: seq<AuditEvent>

    constructor (env: Env<W>, world: W)
      ensures this.env == env
      ensures Now() == State(world, map[], 0, [], [])
    {
      this.env := env;
      this.world := world;
      approvals, nextId, calls, audit := map[], 0, [], [];
    }

    ghost function Now(): State<W>
      reads this
    {
      State(world, approvals, nextId, calls, audit)
    }

    method WriteAudit(ctx: Context, tool: string, outcome: Outcome)
      modifies this`audit
      ensures Now() == Audited(old(Now()), ctx, tool, outcome)
    {
      audit := audit + [AuditEvent(ctx.principal, tool, outcome)];
    }

    /** Moves a row from approved to executing, or reports that it could not be claimed. */
    method ClaimApproval(id: nat, principal: string, now: int) returns (claimed: bool)
      modifies this`approvals
      ensures claimed <==> id in old(approvals) && Claimable(old(approvals)[id], principal, now)
      ensures Now() == if claimed then WithStatus(old(Now()), id, Executing) else old(Now())
    {
      claimed := id in approvals && Claimable(approvals[id], principal, now);
      if claimed {
        approvals := approvals[id := approvals[id].(status := Executing)];
      }
    }

    method SetStatus(id: nat, status: ApprovalStatus)
      requires id in approvals
      modifies this`approvals
      ensures Now() == WithStatus(old(Now()), id, status)
    {
      approvals := approvals[id := approvals[id].(status := status)];
    }

    method RequestApproval(ctx: Context, tool: string, arguments: Args, note: Option<Note>) returns (asked: Asked)
      modifies this`approvals, this`nextId
      ensures Now() == Requested(env, ctx, old(Now()), tool, arguments)
      ensures asked == Asked(old(nextId), tool, arguments, note)
    {
      asked := Asked(nextId, tool, arguments, note);
      approvals := approvals[nextId := Approval(ctx.principal, tool, arguments, Pending, ctx.now + env.ttl, None)];
      nextId := nextId + 1;
    }

    method DecideApproval(principal: string, id: nat, approve: bool, now: int) returns (error: Option<DecideError>)
      modifies this`approvals
      ensures (Now(), error) == Decide(old(Now()), principal, id, approve, now)
    {
      if id !in approvals {
        return Some(NoSuchApproval);
      }
      var row := approvals[id];
      if row.principal != principal {
        return Some(NotYours);
      }
      if row.status != Pending {
        return Some(AlreadyDecided(row.status));
      }
      if approve && row.expiresAt < now {
        SetStatus(id, Expired);
        return Some(DecidedTooLate);
      }
      SetStatus(id, if approve then Approved else Rejected);
      return None;
    }

    method SetApprovalResume(principal: string, id: nat, kept: Kept)
      modifies this`approvals
      ensures Now() == SetResume(old(Now()), principal, id, kept)
    {
      if id in approvals && approvals[id].principal == principal && approvals[id].status == Pending {
        approvals := approvals[id := approvals[id].(resume := Some(kept))];
      }
    }

    method RunHandler(ctx: Context, tool: Tool<W>, arguments: Args, claimed: Option<nat>)
        returns (invocation: Invocation)
      requires claimed.Some? ==> claimed.value in approvals
      modifies this
      ensures (Now(), invocation) == Handle(ctx, old(Now()), tool, arguments, claimed)
    {
      var (after, result) := tool.handler(world, ctx.principal, arguments);
      world := after;
      calls := calls + [Call(ctx.principal, tool.name, arguments)];
      if claimed.Some? {
        SetStatus(claimed.value, if result.Done? then Consumed else Approved);
      }
      WriteAudit(ctx, tool.name, HandlerOutcome(result));
      return HandlerInvocation(result);
    }

    method InvokeTool(toolName: string, arguments: Args, ctx: Context) returns (invocation: Invocation)
      modifies this
      ensures (Now(), invocation) == Invoke(env, ctx, old(Now()), toolName, arguments)
    {
      if toolName !in env.tools {
        WriteAudit(ctx, toolName, AuditDenied);
        return Stopped(UnknownTool, "the requested tool is not registered");
      }
      var tool := env.tools[toolName];
      var checked := Check(env, ctx.principal, tool, arguments);
      if checked.Err? {
        WriteAudit(ctx, toolName, CheckOutcome(checked.error));
        return checked.error;
      }
      var validated := checked.value;
      if tool.risk != HighRisk {
        invocation := RunHandler(ctx, tool, validated, None);
        return;
      }
      var (usable, unusable) := ApprovalState(ctx, State(world, approvals, nextId, calls, audit), tool.name, validated);
      if usable.Some? {
        var claimed := ClaimApproval(usable.value, ctx.principal, ctx.now);
        if claimed {
          invocation := RunHandler(ctx, tool, validated, usable);
          return;
        }
        unusable := Some(AlreadyRunning);
      }
      var asked := RequestApproval(ctx, tool.name, validated, unusable);
      WriteAudit(ctx, tool.name, AuditPartial);
      return Invocation(ApprovalRequired, tool.name + " changes institutional records and needs your confirmation",
          Null, "", Some(asked));
    }
  }

  // -------------------------------------------------------------- properties

  /** The context carries a confirmation of exactly this call that can be claimed now. */
  predicate Confirmed<W>(ctx: Context, st: State<W>, tool: string, arguments: Args) {
    && ctx.approvalId.Some?
    && ctx.approvalId.value in st.approvals
    && var row := st.approvals[ctx.approvalId.value];
      row.tool == tool && row.arguments == arguments && Claimable(row, ctx.principal, ctx.now)
  }

  /** A record change runs exactly when its checked arguments are the confirmed ones, asks when they
      are not, and runs at most once per confirmation. */
  lemma RecordChange<W>(env: Env<W>, ctx: Context, st: State<W>, toolName: string, arguments: Args)
    requires toolName in env.tools && env.tools[toolName].risk == HighRisk
    requires Check(env, ctx.principal, env.tools[toolName], arguments).Ok?
    ensures var tool := env.tools[toolName];
            var validated := Check(env, ctx.principal, tool, arguments).value;
            var (after, invocation) := Invoke(env, ctx, st, toolName, arguments);
            && (invocation.status.ApprovalRequired? <==> !Confirmed(ctx, st, tool.name, validated))
            && (invocation.status.ApprovalRequired? ==>
                  && after.world == st.world && after.calls == st.calls
                  && invocation.approval.Some? && invocation.approval.value.arguments == validated
                  && invocation.approval.value.tool == tool.name && invocation.approval.value.approvalId == st.nextId
                  && after.approvals == st.approvals[st.nextId := Approval(ctx.principal, tool.name, validated,
                      Pending, ctx.now + env.ttl, None)])
            && (!invocation.status.ApprovalRequired? ==>
                  && after.calls == st.calls + [Call(ctx.principal, tool.name, validated)]
                  && (after.world, invocation) == (tool.handler(st.world, ctx.principal, validated).0,
                      HandlerInvocation(tool.handler(st.world, ctx.principal, validated).1))
                  && !(invocation.status.Success? && Confirmed(ctx, after, tool.name, validated)))
  {
  }

  /** Any other call is decided by the records, the principal and the arguments alone, and leaves the approvals be. */
  lemma OtherCall<W>(env: Env<W>, ctx: Context, st: State<W>, ctx': Context, st': State<W>, toolName: string,
      arguments: Args)
    requires toolName in env.tools ==> env.tools[toolName].risk != HighRisk
    requires ctx.principal == ctx'.principal && st.world == st'.world && st.calls == st'.calls
    ensures var (after, invocation) := Invoke(env, ctx, st, toolName, arguments);
            var (after', invocation') := Invoke(env, ctx', st', toolName, arguments);
            && invocation == invocation' && after.world == after'.world && after.calls == after'.calls
            && after.approvals == st.approvals && after.nextId == st.nextId
            && !invocation.status.ApprovalRequired?
  {
    if toolName in env.tools {
      var tool := env.tools[toolName];
      var checked := Check(env, ctx.principal, tool, arguments);
      if checked.Err? {
        CheckNeverAsks(env, ctx.principal, tool, arguments);
      }
    }
  }

  lemma CheckNeverAsks<W>(env: Env<W>, principal: string, tool: Tool<W>, arguments: Args)
    ensures var checked := Check(env, principal, tool, arguments);
            checked.Err? ==> checked.error.status != ApprovalRequired && checked.error.approval == None
  {
  }

  /** Every call leaves exactly one audit event, of its principal and tool, and makes at most one handler call, of
      the same principal and tool; no approval row disappears. */
  lemma OneAuditEvent<W>(env: Env<W>, ctx: Context, st: State<W>, toolName: string, arguments: Args)
    requires Registered(env)
    ensures var (after, invocation) := Invoke(env, ctx, st, toolName, arguments);
            && (exists outcome :: after.audit == st.audit + [AuditEvent(ctx.principal, toolName, outcome)])
            && (after.calls == st.calls || exists checked ::
                after.calls == st.calls + [Call(ctx.principal, toolName, checked)])
            && st.approvals.Keys <= after.approvals.Keys
  {
    if toolName in env.tools {
      var checked := Check(env, ctx.principal, env.tools[toolName], arguments);
      if checked.Ok? {
        CheckedCallIsAudited(env, ctx, st, toolName, arguments, checked.value);
      }
    }
  }

  lemma CheckedCallIsAudited<W>(env: Env<W>, ctx: Context, st: State<W>, toolName: string, arguments: Args,
      checked: Args)
    requires Registered(env) && toolName in env.tools && Check(env, ctx.principal, env.tools[toolName], arguments) ==
            Ok(checked)
    ensures var (after, invocation) := Invoke(env, ctx, st, toolName, arguments);
            && (exists outcome :: after.audit == st.audit + [AuditEvent(ctx.principal, toolName, outcome)])
            && (after.calls == st.calls || after.calls == st.calls + [Call(ctx.principal, toolName, checked)])
            && st.approvals.Keys <= after.approvals.Keys
  {
    var tool := env.tools[toolName];
    if tool.risk != HighRisk {
      HandlerIsAudited(ctx, st, tool, checked, None);
    } else {
      ChangeIsAudited(env, ctx, st, tool, checked);
    }
  }

  lemma ChangeIsAudited<W>(env: Env<W>, ctx: Context, st: State<W>, tool: Tool<W>, checked: Args)
    ensures var after := ChangeRecord(env, ctx, st, tool, checked).0;
            && (exists outcome :: after.audit == st.audit + [AuditEvent(ctx.principal, tool.name, outcome)])
            && (after.calls == st.calls || after.calls == st.calls + [Call(ctx.principal, tool.name, checked)])
            && st.approvals.Keys <= after.approvals.Keys
  {
    var usable := ApprovalState(ctx, st, tool.name, checked).0;
    if usable.Some? && Claimable(st.approvals[usable.value], ctx.principal, ctx.now) {
      HandlerIsAudited(ctx, WithStatus(st, usable.value, Executing), tool, checked, usable);
    }
  }

  lemma HandlerIsAudited<W>(ctx: Context, st: State<W>, tool: Tool<W>, arguments: Args, claimed: Option<nat>)
    requires claimed.Some? ==> claimed.value in st.approvals
    ensures var after := Handle(ctx, st, tool, arguments, claimed).0;
            && (exists outcome :: after.audit == st.audit + [AuditEvent(ctx.principal, tool.name, outcome)])
            && after.calls == st.calls + [Call(ctx.principal, tool.name, arguments)]
            && after.approvals.Keys == st.approvals.Keys
  {
  }
}
