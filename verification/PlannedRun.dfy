/** Running planned steps (apps/api/app/agents/planner.py with apps/api/app/agents/master.py): what a step of a
    deterministic plan binds is always there when the step runs. A model's plan gives no such guarantee. */
module PlannedRun {
  import opened Values
  import opened Contracts
  import opened Spec
  import opened Bindings
  import opened Gateway
  import opened Master
  import opened Planner
  import opened PlanReadiness
  import opened ScriptedTools
  import opened Resumption
  import opened ResumedReadiness
  import ModelPlanner

  lemma SoundPlansAreCovered(steps: seq<PlanStep>, tools: map<string, string>)
    requires Sound(steps, tools)
    ensures UniqueSteps(steps) && Covered(steps, {})
  {
    forall i, j | 0 <= i < j < |steps| ensures steps[i].stepId != steps[j].stepId {
      assert SoundStep(steps[i], i, tools) && SoundStep(steps[j], j, tools);
      StepNamesDiffer(i, j);
    }
    forall i: nat, b: nat | i < |steps| && b < |steps[i].bindings| ensures CoveredBinding(steps, {}, i,
        steps[i].bindings[b].1) {
      assert SoundStep(steps[i], i, tools) && EarlierOutput(steps[i].bindings[b].1, steps[i].dependsOn, i);
      var k: nat :| k < i && RefersTo(steps[i].bindings[b].1, k) && StepName(k) in steps[i].dependsOn;
      assert SoundStep(steps[k], k, tools);
      AwaitsDirectly(steps, i, k);
    }
  }

  /** Whatever the tools do, a sound plan never runs a step whose inputs are not there. */
  lemma SoundPlansNeverHitUnknown<W>(env: Env<W>, ctx: Context, steps: seq<PlanStep>, tools: map<string, string>,
      st: State<W>)
    requires Sound(steps, tools)
    ensures NeverUnknown(env, ctx, steps, Start(st, map[]))
  {
    SoundPlansAreCovered(steps, tools);
    CoveredPlansNeverHitUnknown(env, ctx, steps, st, map[]);
  }

  /** Nor does its resumed run, when at the stop no later step reads from a failed one. */
  lemma SoundPlansResumeReady<W, V>(s: Story<W>, tools: map<string, string>, env: Env<V>, ctx: Context, st: State<V>)
    requires s.Asked() && Carried(s) && Sound(s.steps, tools)
    requires NoneReads(Remaining(s.steps, s.First().results)[1..], s.First().failed)
    ensures NeverUnknown(env, ctx, Resumed(s).0, Start(st, Resumed(s).1))
  {
    SoundPlansAreCovered(s.steps, tools);
    ReadyWhenNoneReadsFailed(s, env, ctx, st);
  }

  // ------------------------------------------------------------------- a model's plan

  /** A report whose rows may be left out. */
  function ReportTool(): ModelPlanner.ToolSpec {
    ModelPlanner.ToolSpec("generate_report", "reports", "",
                          [ParameterSpec("rows", Array, false, [], None, None, 5000, AnyItems, Null)])
  }

  function Step(fields: map<string, Value>): Value {
    Obj(map["tool" := Str("generate_report"), "bindings" := Obj(fields)])
  }

  /** A reply whose first step reads from its second. */
  function EarlyReader(): Value {
    Obj(map["steps" := List([Step(map["rows" := Str(Planner.Reference(StepName(1), Students))]), Step(map[])])])
  }

  function ReportTools(): map<string, ModelPlanner.ToolSpec> {
    map["generate_report" := ReportTool()]
  }

  lemma StepReads(fields: map<string, Value>)
    ensures var item := Step(fields);
            && ModelPlanner.OnAvailableTool(item, ReportTools()) && Get(item.fields, "tool") == Str("generate_report")
            && ModelPlanner.Fields(item, "bindings") == fields && ModelPlanner.Given(item) == map[]
            && ModelPlanner.Awaited(item) == [] && Get(item.fields, "step_id") == Null
  {
  }

  lemma StepGetsThrough(fields: map<string, Value>, py: Python)
    ensures ModelPlanner.StepPasses(Step(fields), ReportTools(), py)
  {
    StepReads(fields);
    var params := ReportTool().params;
    assert ModelPlanner.Static(map[]) == map[];
    assert Entry(py, params[0], map[]) == Ok(None);
    assert Collect(py, params, map[], map[]) == Collect(py, params[1..], map[], map[]);
  }

  /** The reply gets through. */
  lemma EarlyReaderGetsThrough(py: Python, read: ModelPlanner.Reading)
    ensures ModelPlanner.GetsThrough(Some(EarlyReader()), ReportTools(), py, read)
  {
    var bound: map<string, Value> := map["rows" := Str(Planner.Reference(StepName(1), Students))];
    StepGetsThrough(bound, py);
    StepGetsThrough(map[], py);
    StepReads(bound);
    StepReads(map[]);
    var items := ModelPlanner.Items(EarlyReader().fields);
    assert items == [Step(bound), Step(map[])];
    var names := ModelPlanner.StepNames(items, read);
    assert names[0] == StepName(0) && names[1] == StepName(1);
    StepNamesDiffer(0, 1);
  }

  /** A step that waits for nothing and binds one reference cannot run before the step it refers to. */
  lemma ReadsTooEarly<W>(env: Env<W>, ctx: Context, steps: seq<PlanStep>, reference: string, st: State<W>)
    requires steps != [] && steps[0].dependsOn == [] && steps[0].bindings != []
    requires steps[0].bindings[0].1 == reference && ParseReference(reference).Some?
    ensures !NeverUnknown(env, ctx, steps, Start(st, map[]))
  {
    assert Unknown(Resolved(steps[0], map[]));
  }

  /** A model's reply gets through, and every plan made of it runs its first step without the output it reads. */
  lemma ModelPlansMayReadTooEarly<W>(env: Env<W>, ctx: Context, py: Python, read: ModelPlanner.Reading, st: State<W>)
    ensures ModelPlanner.GetsThrough(Some(EarlyReader()), ReportTools(), py, read)
    ensures forall plan | ModelPlanner.PlanOf(plan, EarlyReader().fields, ReportTools(), read) ::
              !NeverUnknown(env, ctx, plan.steps, Start(st, map[]))
  {
    EarlyReaderGetsThrough(py, read);
    forall plan | ModelPlanner.PlanOf(plan, EarlyReader().fields, ReportTools(), read)
      ensures !NeverUnknown(env, ctx, plan.steps, Start(st, map[]))
    {
      EarlyReaderReadsTooEarly(env, ctx, plan, read, st);
    }
  }

  lemma EarlyReaderReadsTooEarly<W>(env: Env<W>, ctx: Context, plan: AgentPlan, read: ModelPlanner.Reading,
      st: State<W>)
    requires ModelPlanner.PlanOf(plan, EarlyReader().fields, ReportTools(), read)
    ensures !NeverUnknown(env, ctx, plan.steps, Start(st, map[]))
  {
    var reference := Planner.Reference(StepName(1), Students);
    ReferenceRefers(1, Students);
    var step := FirstOfPlan(plan, reference, read);
    TheBinding(step.bindings, reference);
    ReadsTooEarly(env, ctx, plan.steps, reference, st);
  }

  lemma FirstOfPlan(plan: AgentPlan, reference: string, read: ModelPlanner.Reading) returns (step: PlanStep)
    requires ModelPlanner.PlanOf(plan, EarlyReader().fields, ReportTools(), read)
    requires reference == Planner.Reference(StepName(1), Students)
    ensures plan.steps != [] && step == plan.steps[0] && step.dependsOn == []
    ensures ModelPlanner.BindingsOf(step.bindings, map["rows" := Str(reference)])
  {
    var bound: map<string, Value> := map["rows" := Str(reference)];
    StepReads(bound);
    var items := ModelPlanner.Items(EarlyReader().fields);
    assert items == [Step(bound), Step(map[])];
    step := plan.steps[0];
    assert ModelPlanner.StepOf(step, items[0], 1, ReportTools(), read);
  }

  lemma TheBinding(bindings: seq<(string, string)>, reference: string)
    requires ModelPlanner.BindingsOf(bindings, map["rows" := Str(reference)]) && ParseReference(reference).Some?
    ensures bindings != [] && bindings[0].1 == reference
  {
    var fields: map<string, Value> := map["rows" := Str(reference)];
    assert "rows" in fields && IsReference(fields["rows"]);
  }
}
