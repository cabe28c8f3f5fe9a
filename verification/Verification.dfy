/** Post-execution checks, so that what is reported matches what happened
    (apps/api/app/agents/verification.py). */
module Verification {
  import opened Values
  import opened Contracts

  datatype Overall = Complete | PartialWork | AllRefused | NeedsApproval | NothingDone

  datatype Warning =
    | StepNotExecuted(step: string)
    | ListTruncated(step: string)
    | EmptyReport(step: string)
    | EmailNoRecipients(step: string)
    | EmailFailed(step: string)
    | FindingWithoutSource(step: string)
    | NoDocumentSources(step: string)

  function OverallStatus(steps: seq<PlanStep>, results: seq<StepResult>): Overall {
    if results == [] then NothingDone
    else if exists r | r in results :: r.status.ApprovalRequired? then NeedsApproval
    else if (forall r | r in results :: r.Ok()) && |results| == |steps| then Complete
    else if forall r | r in results :: r.status.Denied? || r.status.UnknownTool? then AllRefused
    else if exists r | r in results :: r.Ok() then PartialWork
    else NothingDone
  }

  // ------------------------------------------------------------------ verify

  function Truthy(v: Value): bool {
    match v
    case Null => false
    case Bool(b) => b
    case Int(n) => n != 0
    case Num(x) => x != 0.0
    case Str(s) => s != ""
    case List(items) => items != []
    case Obj(fields) => fields != map[]
  }

  /** `isinstance(value, int)`, which a bool also is. */
  function IntOf(v: Value): Option<int> {
    match v
    case Int(n) => Some(n)
    case Bool(b) => Some(if b then 1 else 0)
    case _ => None
  }

  predicate IsZero(v: Value) {
    v == Int(0) || v == Num(0.0) || v == Bool(false)
  }

  predicate HasUrl(finding: Value) {
    finding.Obj? && Truthy(Get(finding.fields, "url"))
  }

  /** The result of a step, the last one when several carry its name. */
  function ById(results: seq<StepResult>, stepId: string): (r: Option<StepResult>)
    ensures r.Some? ==> r.value in results && r.value.stepId == stepId
    ensures r.None? ==> forall i | 0 <= i < |results| :: results[i].stepId != stepId
  {
    if results == [] then None
    else if results[|results| - 1].stepId == stepId then Some(results[|results| - 1])
    else ById(results[..|results| - 1], stepId)
  }

  function When(condition: bool, warning: Warning): seq<Warning> {
    if condition then [warning] else []
  }

  function DataWarnings(step: PlanStep, data: map<string, Value>): (r: seq<Warning>)
    ensures forall w | w in r :: !w.StepNotExecuted? && w.step == step.stepId
  {
    var id, count, listed, findings := step.stepId, IntOf(Get(data, "count")), Get(data, "students"),
        Get(data, "findings");
    match step.tool
    case "generate_report" => When(IsZero(Get(data, "row_count")), EmptyReport(id))
    case "send_email" =>
      When(!Truthy(Get(data, "recipients")), EmailNoRecipients(id)) + When(Get(data, "status") == Str("failed"),
          EmailFailed(id))
    case "internet_investigate" => When(findings.List? && exists f | f in findings.items ::
        !HasUrl(f), FindingWithoutSource(id))
    case "search_documents" => When(!Truthy(Get(data, "sources")), NoDocumentSources(id))
    case _ =>
      When(step.tool in {"find_low_attendance", "get_pending_fees", "find_students"}
           && count.Some? && listed.List? && |listed.items| < count.value, ListTruncated(id))
  }

  function StepWarnings(step: PlanStep, result: Option<StepResult>): seq<Warning> {
    if result.None? then [StepNotExecuted(step.stepId)]
    else if !result.value.Ok() then []
    else DataWarnings(step, if result.value.data.Obj? then result.value.data.fields else map[])
  }

  function Warnings(steps: seq<PlanStep>, results: seq<StepResult>): seq<Warning> {
    if steps == [] then []
    else Warnings(steps[..|steps| - 1], results) + StepWarnings(steps[|steps| - 1],
        ById(results, steps[|steps| - 1].stepId))
  }

  method Verify(steps: seq<PlanStep>, results: seq<StepResult>) returns (warnings: seq<Warning>)
    ensures warnings == Warnings(steps, results)
  {
    warnings := [];
    for i := 0 to |steps|
      invariant warnings == Warnings(steps[..i], results)
    {
      assert steps[..i + 1][..i] == steps[..i];
      var result := ById(results, steps[i].stepId);
      warnings := warnings + StepWarnings(steps[i], result);
    }
    assert steps[..|steps|] == steps;
  }

  /** `step_not_executed` is warned for exactly the steps without a result. */
  lemma {:induction false} WarnsExactlyTheMissing(steps: seq<PlanStep>, results: seq<StepResult>, stepId: string)
    ensures StepNotExecuted(stepId) in Warnings(steps, results) <==>
            stepId in IdSet(steps) && !HasResult(results, stepId)
  {
    if steps != [] {
      var front, last := steps[..|steps| - 1], steps[|steps| - 1];
      WarnsExactlyTheMissing(front, results, stepId);
      MissingStepWarns(last, results, stepId);
      OneMoreId(steps, stepId);
    }
  }

  lemma MissingStepWarns(step: PlanStep, results: seq<StepResult>, stepId: string)
    ensures StepNotExecuted(stepId) in StepWarnings(step, ById(results, step.stepId)) <==>
            step.stepId == stepId && !HasResult(results, stepId)
  {
  }

  // ------------------------------------------------------------------ what is reported

  predicate IsRefusal(status: Status) {
    status == Denied || status == UnknownTool
  }

  /** Each overall status, and exactly when it is given. */
  lemma StatusExactlyWhen(steps: seq<PlanStep>, results: seq<StepResult>)
    ensures var status := OverallStatus(steps, results);
            var asks := exists r :: r in results && r.status == ApprovalRequired;
            var works := exists r :: r in results && r.status == Success;
            var refused := results != [] && forall r | r in results :: IsRefusal(r.status);
            var done := results != [] && |results| == |steps| && forall r | r in results :: r.status == Success;
            && (status == NeedsApproval <==> asks)
            && (status == Complete <==> done)
            && (status == PartialWork <==> !asks && !done && works)
            && (status == AllRefused <==> refused)
            && (status == NothingDone <==> !asks && !works && !refused)
  {
    if results != [] {
      assert results[0] in results;
    }
  }

  ghost predicate Reports(data: map<string, Value>, key: string, value: Value) {
    key in data && data[key] == value
  }

  /** A warning about a step's result other than its absence, and exactly when it is given. */
  lemma DataWarnsExactlyWhen(step: PlanStep, data: map<string, Value>)
    ensures var warned := DataWarnings(step, data);
            var id := step.stepId;
            && (EmptyReport(id) in warned <==>
                  step.tool == "generate_report" && "row_count" in data && IsZero(data["row_count"]))
            && (EmailNoRecipients(id) in warned <==>
                  step.tool == "send_email" && !("recipients" in data && Truthy(data["recipients"])))
            && (EmailFailed(id) in warned <==>
                  step.tool == "send_email" && Reports(data, "status", Str("failed")))
            && (NoDocumentSources(id) in warned <==>
                  step.tool == "search_documents" && !("sources" in data && Truthy(data["sources"])))
  {
  }

  /** A list is warned to be cut short exactly when it is of students and shows fewer than it counts. */
  lemma TruncationWarnsExactlyWhen(step: PlanStep, data: map<string, Value>)
    ensures ListTruncated(step.stepId) in DataWarnings(step, data) <==>
            && (step.tool == "find_low_attendance" || step.tool == "get_pending_fees" || step.tool == "find_students")
            && "count" in data && IntOf(data["count"]).Some? && "students" in data && data["students"].List?
            && |data["students"].items| < IntOf(data["count"]).value
  {
  }

  /** A finding without an address is warned of exactly when an investigation reports one. */
  lemma SourceWarnsExactlyWhen(step: PlanStep, data: map<string, Value>)
    ensures FindingWithoutSource(step.stepId) in DataWarnings(step, data) <==>
            && step.tool == "internet_investigate" && "findings" in data && data["findings"].List?
            && exists i :: 0 <= i < |data["findings"].items| && !HasUrl(data["findings"].items[i])
  {
    if "findings" in data && data["findings"].List? {
      forall f ensures f in data["findings"].items <==>
          exists i :: 0 <= i < |data["findings"].items| && data["findings"].items[i] == f {
      }
    }
  }
}
