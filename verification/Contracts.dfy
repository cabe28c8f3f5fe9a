/** Typed contracts between the master agent, the planners and the gateway
    (apps/api/app/agents/contracts.py). */
module Contracts {
  import opened Values
  import Bindings

  const MAX_PLAN_STEPS: nat := 8

  datatype PlanStep = PlanStep(
    stepId: string,
    tool: string,
    arguments: Args,
    purpose: string,
    dependsOn: seq<string>,
    bindings: seq<(string, string)>,
    agent: string)
  {
    function Inputs(): Bindings.Inputs {
      Bindings.Inputs(dependsOn, arguments, bindings)
    }
  }

  function StepIds(steps: seq<PlanStep>): (ids: seq<string>)
    ensures |ids| == |steps|
  {
    seq(|steps|, i requires 0 <= i < |steps| => steps[i].stepId)
  }

  function IdSet(steps: seq<PlanStep>): set<string> {
    set i | 0 <= i < |steps| :: steps[i].stepId
  }

  lemma OneMoreId(steps: seq<PlanStep>, stepId: string)
    requires steps != []
    ensures stepId in IdSet(steps) <==> stepId in IdSet(steps[..|steps| - 1]) || steps[|steps| - 1].stepId == stepId
  {
    var front := steps[..|steps| - 1];
    assert forall i | 0 <= i < |front| :: front[i] == steps[i];
  }

  predicate UniqueSteps(steps: seq<PlanStep>) {
    forall i, j | 0 <= i < j < |steps| :: steps[i].stepId != steps[j].stepId
  }

  /** The checks every plan passes when it is built: few steps, unique names, known dependencies. */
  predicate ValidPlan(steps: seq<PlanStep>) {
    && |steps| <= MAX_PLAN_STEPS
    && UniqueSteps(steps)
    && forall i, d | 0 <= i < |steps| && d in steps[i].dependsOn :: d in StepIds(steps)
  }

  datatype Status = Success | Denied | InvalidArguments | ApprovalRequired | Failed | UnknownTool

  /** Why an earlier confirmation could not be used. */
  datatype Note = NotFound | DifferentChange | NotConfirmed | Cancelled | AlreadyRunning | AlreadyUsed | TooOld

  datatype Asked = Asked(approvalId: nat, tool: string, arguments: Args, note: Option<Note>)

  datatype StepResult = StepResult(
    stepId: string,
    tool: string,
    status: Status,
    summary: string,
    data: Value,
    reason: string,
    approval: Option<Asked>)
  {
    predicate Ok() { status == Success }
  }

  /** What a confirmation keeps for its confirmed re-send. */
  datatype Kept = Kept(steps: seq<PlanStep>, stoppedAt: string, completed: map<string, Value>)

  ghost predicate HasResult(results: seq<StepResult>, stepId: string) {
    exists i | 0 <= i < |results| :: results[i].stepId == stepId
  }
}
