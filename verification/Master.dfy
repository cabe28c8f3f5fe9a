/** Running a plan of tool steps, stopping for a confirmation, and resuming what is left
    (apps/api/app/agents/master.py, with the agents of specialists.py calling the gateway). */
module Master {
  import opened Values
  import opened Contracts
  import opened Spec
  import opened Bindings
  import opened Gateway
  import opened Verification

  /** The local state of one execution, and the gateway's state under it. */
  datatype Progress<!W> = Progress(
    results: seq<StepResult>,
    completed: map<string, Value>,
    failed: set<string>,
    st: State<W>,
    stopped: bool)

  function Start<W>(st: State<W>, completed: map<string, Value>): Progress<W> {
    Progress([], completed, {}, st, false)
  }

  function OutputOf(result: StepResult): Value {
    Obj(map["data" := result.data, "summary" := Str(result.summary)])
  }

  function ResultOf(step: PlanStep, invocation: Invocation): StepResult {
    StepResult(step.stepId, step.tool, invocation.status,
               if invocation.summary != "" then invocation.summary else invocation.reason,
               invocation.data, invocation.reason, invocation.approval)
  }

  function UnresolvedResult(step: PlanStep, error: BindingError): StepResult {
    StepResult(step.stepId, step.tool, Failed, "unresolved binding", Null, ReasonOf(error), None)
  }

  const UNKNOWN_STEP: string := "reference to unknown or incomplete step"

  function ReasonOf(error: BindingError): string {
    match error
    case InvalidReference(_) => "invalid reference"
    case UnknownStep(_) => UNKNOWN_STEP
    case ReadsScalar(_) => "cannot read a key from a scalar"
    case IndexesNonList => "cannot index a non-list"
  }

  predicate Blocked(step: PlanStep, failed: set<string>) {
    exists d | d in step.dependsOn :: d in failed
  }

  /** One turn of the execution loop. */
  function RunStep<W>(env: Env<W>, ctx: Context, step: PlanStep, p: Progress<W>): Progress<W> {
    if Blocked(step, p.failed) then p.(failed := p.failed + {step.stepId})
    else
      match ResolveAll(step.arguments, step.bindings, p.completed)
      case Err(e) => p.(results := p.results + [UnresolvedResult(step, e)], failed := p.failed + {step.stepId})
      case Ok(arguments) =>
        var (st, invocation) := Invoke(env, ctx, p.st, step.tool, arguments);
        var result := ResultOf(step, invocation);
        Progress(p.results + [result],
                 if result.Ok() then p.completed[step.stepId := OutputOf(result)] else p.completed,
                 if result.Ok() || result.status.ApprovalRequired? then p.failed else p.failed + {step.stepId},
                 st,
                 result.status.ApprovalRequired?)
  }

  function Run<W>(env: Env<W>, ctx: Context, steps: seq<PlanStep>, p: Progress<W>): Progress<W>
    decreases |steps|
  {
    if steps == [] || p.stopped then p
    else Run(env, ctx, steps[1..], RunStep(env, ctx, steps[0], p))
  }

  // ------------------------------------------------------------ keep and resume

  function IndexOf(steps: seq<PlanStep>, stepId: string): (k: nat)
    ensures k <= |steps|
    ensures k < |steps| ==> steps[k].stepId == stepId
    ensures forall i | 0 <= i < k :: steps[i].stepId != stepId
  {
    if steps == [] || steps[0].stepId == stepId then 0 else 1 + IndexOf(steps[1..], stepId)
  }

  function FirstAsking(results: seq<StepResult>): (k: nat)
    ensures k <= |results|
    ensures k < |results| ==> results[k].status.ApprovalRequired? && results[k].approval.Some?
    ensures forall i | 0 <= i < k :: !(results[i].status.ApprovalRequired? && results[i].approval.Some?)
  {
    if results == [] || (results[0].status.ApprovalRequired? && results[0].approval.Some?) then 0
        else 1 + FirstAsking(results[1..])
  }

  predicate Needed(rest: seq<PlanStep>, stepId: string) {
    exists i | 0 <= i < |rest| :: References(rest[i].Inputs(), stepId)
  }

  /** The outputs later steps use, from the results so far. */
  function Outputs(results: seq<StepResult>, rest: seq<PlanStep>): map<string, Value> {
    if results == [] then map[]
    else
      var earlier := Outputs(results[..|results| - 1], rest);
      var last := results[|results| - 1];
      if last.Ok() && Needed(rest, last.stepId) then earlier[last.stepId := OutputOf(last)] else earlier
  }

  /** What is kept with the confirmation just asked for. */
  function Keep(steps: seq<PlanStep>, results: seq<StepResult>): Option<(nat, Kept)> {
    var k := FirstAsking(results);
    if k == |results| then None
    else
      var stopped := results[k];
      var index := IndexOf(steps, stopped.stepId);
      if index == |steps| then None
      else Some((stopped.approval.value.approvalId, Kept(steps, stopped.stepId, Outputs(results, steps[index + 1..]))))
  }

  predicate IsChange<W>(env: Env<W>, step: PlanStep) {
    step.tool in env.tools ==> env.tools[step.tool].risk == HighRisk
  }

  function RecordChanges<W>(env: Env<W>, steps: seq<PlanStep>): nat {
    if steps == [] then 0 else (if IsChange(env, steps[0]) then 1 else 0) + RecordChanges(env, steps[1..])
  }

  function Present(deps: seq<string>, present: set<string>): seq<string> {
    if deps == [] then [] else (if deps[0] in present then [deps[0]] else []) + Present(deps[1..], present)
  }

  /** A step of the resumed plan: dependencies on steps that already ran are dropped. */
  function Trimmed(step: PlanStep, present: set<string>): PlanStep {
    step.(dependsOn := Present(step.dependsOn, present))
  }

  function TrimAll(steps: seq<PlanStep>, present: set<string>): (r: seq<PlanStep>)
    ensures |r| == |steps|
  {
    seq(|steps|, i requires 0 <= i < |steps| => Trimmed(steps[i], present))
  }

  /** The confirmed step: the confirmed arguments, nothing to wait for and nothing to resolve. */
  function ConfirmedStep(step: PlanStep, arguments: Args): PlanStep {
    step.(arguments := arguments, dependsOn := [], bindings := [])
  }

  /** The steps a confirmed re-send runs, and the outputs they start from. */
  function Resume(row: Approval): (seq<PlanStep>, map<string, Value>) {
    var alone := ([PlanStep("s1", row.tool, row.arguments, "run the confirmed " + row.tool, [], [], "data")], map[]);
    if row.resume.None? then alone
    else
      var kept := row.resume.value;
      var index := StopIndex(kept.steps, kept.stoppedAt, row.tool);
      if index == |kept.steps| then alone
      else
        var remaining := [ConfirmedStep(kept.steps[index], row.arguments)] + kept.steps[index + 1..];
        (TrimAll(remaining, IdSet(remaining)), kept.completed)
  }

  function StopIndex(steps: seq<PlanStep>, stoppedAt: string, tool: string): (k: nat)
    ensures k <= |steps|
    ensures k < |steps| ==> steps[k].stepId == stoppedAt && steps[k].tool == tool
    ensures forall i | 0 <= i < k :: !(steps[i].stepId == stoppedAt && steps[i].tool == tool)
  {
    if steps == [] || (steps[0].stepId == stoppedAt && steps[0].tool == tool) then 0
        else 1 + StopIndex(steps[1..], stoppedAt, tool)
  }

  // ------------------------------------------------------------ one command

  const ONE_CHANGE_PER_CONFIRMATION: string :=
    "I can change one record per confirmation. Please ask for each change separately."

  datatype Planned = Planned(steps: seq<PlanStep>, clarification: Option<string>)

  datatype Reply = NotAllowed | NeedsInput(clarification: string) | Ran(status: Overall, results: seq<StepResult>,
      warnings: seq<Warning>)

  /** The confirmed call a re-sent command carries, while it can still run. */
  function ApprovedCall<W>(env: Env<W>, ctx: Context, approvals: map<nat, Approval>): Option<Approval> {
    if ctx.approvalId.None? || ctx.approvalId.value !in approvals then None
    else
      var row := approvals[ctx.approvalId.value];
      if row.status == Approved && row.principal == ctx.principal && row.tool in env.tools then Some(row) else None
  }

  function Handled<W>(env: Env<W>, mayCommand: bool, ctx: Context, st: State<W>, planned: Planned): (State<W>, Reply) {
    var approved := ApprovedCall(env, ctx, st.approvals);
    var (steps, earlier) := if approved.Some? then Resume(approved.value) else (planned.steps, map[]);
    if !mayCommand then (st, NotAllowed)
    else if approved.None? && planned.clarification.Some? then (st, NeedsInput(planned.clarification.value))
    else if RecordChanges(env, steps) > 1 then (st, NeedsInput(ONE_CHANGE_PER_CONFIRMATION))
    else
      var p := Run(env, ctx, steps, Start(st, earlier));
      var status := OverallStatus(steps, p.results);
      (if status.NeedsApproval? then WithKept(ctx, p.st, steps, p.results) else p.st,
       Ran(status, p.results, Warnings(steps, p.results)))
  }

  function WithKept<W>(ctx: Context, st: State<W>, steps: seq<PlanStep>, results: seq<StepResult>): State<W> {
    var kept := Keep(steps, results);
    if kept.None? then st else SetResume(st, ctx.principal, kept.value.0, kept.value.1)
  }

  // ------------------------------------------------------------------ the class

  class MasterAgent<W> {
    const gateway: ToolGateway<W>

    constructor (gateway: ToolGateway<W>)
      ensures this.gateway == gateway
    {
      this.gateway := gateway;
    }

    method Execute(ctx: Context, steps: seq<PlanStep>, earlier: map<string, Value>) returns (results: seq<StepResult>)
      modifies gateway
      ensures var p := Run(gateway.env, ctx, steps, Start(old(gateway.Now()), earlier));
              results == p.results && gateway.Now() == p.st
    {
      results := [];
      var completed := earlier;
      var failed: set<string> := {};
      ghost var env := gateway.env;
      ghost var whole := Run(env, ctx, steps, Start(gateway.Now(), earlier));
      for i := 0 to |steps|
        invariant whole == Run(env, ctx, steps[i..], Progress(results, completed, failed, gateway.Now(), false))
      {
        var step := steps[i];
        ghost var before := Progress(results, completed, failed, gateway.Now(), false);
        assert steps[i..][0] == step && steps[i..][1..] == steps[i + 1..];
        if exists d | d in step.dependsOn :: d in failed {
          failed := failed + {step.stepId};
          continue;
        }
        var resolved := ResolveArguments(step.Inputs(), completed);
        if resolved.Err? {
          results := results + [UnresolvedResult(step, resolved.error)];
          failed := failed + {step.stepId};
          continue;
        }
        var invocation := gateway.InvokeTool(step.tool, resolved.value, ctx);
        var result := ResultOf(step, invocation);
        results := results + [result];
        if result.status.ApprovalRequired? {
          assert RunStep(env, ctx, step, before) == Progress(results, completed, failed, gateway.Now(), true);
          return;
        }
        if result.Ok() {
          completed := completed[step.stepId := OutputOf(result)];
        } else {
          failed := failed + {step.stepId};
        }
        assert RunStep(env, ctx, step, before) == Progress(results, completed, failed, gateway.Now(), false);
      }
    }

    method KeepForResume(ctx: Context, steps: seq<PlanStep>, results: seq<StepResult>)
      modifies gateway`approvals
      ensures var kept := Keep(steps, results);
              gateway.Now() == if kept.None? then old(gateway.Now())
                               else SetResume(old(gateway.Now()), ctx.principal, kept.value.0, kept.value.1)
    {
      var k := FirstAsking(results);
      if k == |results| {
        return;
      }
      var stopped := results[k];
      var index := IndexOf(steps, stopped.stepId);
      if index == |steps| {
        return;
      }
      var outputs := KeptOutputs(results, steps[index + 1..]);
      gateway.SetApprovalResume(ctx.principal, stopped.approval.value.approvalId, Kept(steps, stopped.stepId, outputs));
    }

    /** The outputs, among the results so far, of the steps that the remaining steps refer to. */
    method KeptOutputs(results: seq<StepResult>, rest: seq<PlanStep>) returns (outputs: map<string, Value>)
      ensures outputs == Outputs(results, rest)
    {
      var needed: set<string> := {};
      for i := 0 to |rest|
        invariant forall s :: s in needed <==> exists j | 0 <= j < i :: References(rest[j].Inputs(), s)
      {
        var found := ReferencedSteps(rest[i].Inputs());
        needed := needed + found;
      }
      outputs := map[];
      for i := 0 to |results|
        invariant outputs == Outputs(results[..i], rest)
      {
        assert results[..i + 1][..i] == results[..i];
        if results[i].Ok() && results[i].stepId in needed {
          outputs := outputs[results[i].stepId := OutputOf(results[i])];
        }
      }
      assert results[..|results|] == results;
    }

    /** Rewrites the dependencies of the remaining steps one after another. */
    method ResumePlan(row: Approval) returns (steps: seq<PlanStep>, earlier: map<string, Value>)
      ensures (steps, earlier) == Resume(row)
    {
      var alone := [PlanStep("s1", row.tool, row.arguments, "run the confirmed " + row.tool, [], [], "data")];
      if row.resume.None? {
        return alone, map[];
      }
      var kept := row.resume.value;
      var index := StopIndex(kept.steps, kept.stoppedAt, row.tool);
      if index == |kept.steps| {
        return alone, map[];
      }
      steps := [ConfirmedStep(kept.steps[index], row.arguments)] + kept.steps[index + 1..];
      ghost var remaining := steps;
      var present := IdSet(steps);
      for i := 0 to |steps|
        invariant |steps| == |remaining|
        invariant steps == TrimAll(remaining[..i], present) + remaining[i..]
      {
        steps := steps[i := steps[i].(dependsOn := Present(steps[i].dependsOn, present))];
      }
      assert remaining[..|steps|] == remaining && steps == TrimAll(remaining, present);
      return steps, kept.completed;
    }

    /** One command: run the planned steps, or the rest of the plan that a confirmation was asked for. */
    method HandleCommand(mayCommand: bool, ctx: Context, planned: Planned) returns (reply: Reply)
      modifies gateway
      ensures (gateway.Now(), reply) == Handled(gateway.env, mayCommand, ctx, old(gateway.Now()), planned)
    {
      if !mayCommand {
        return NotAllowed;
      }
      var steps, earlier := planned.steps, map[];
      var approved := ApprovedCall(gateway.env, ctx, gateway.approvals);
      if approved.Some? {
        steps, earlier := ResumePlan(approved.value);
      } else if planned.clarification.Some? {
        return NeedsInput(planned.clarification.value);
      }
      if RecordChanges(gateway.env, steps) > 1 {
        return NeedsInput(ONE_CHANGE_PER_CONFIRMATION);
      }
      var results := Execute(ctx, steps, earlier);
      var status := OverallStatus(steps, results);
      if status.NeedsApproval? {
        KeepForResume(ctx, steps, results);
      }
      var warnings := Verify(steps, results);
      return Ran(status, results, warnings);
    }
  }
}
