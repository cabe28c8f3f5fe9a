/** A model's plan (apps/api/app/agents/planner.py, `ModelPlanner`): whatever the model replies, only a plan over the
    available tools that passes the checks on plans gets through. The reply comes in as the JSON value found in it. */
module ModelPlanner {
  import opened Values
  import opened Text
  import opened Contracts
  import opened Spec
  import opened Planner
  import opened Decimal
  import Bindings

  datatype ToolSpec = ToolSpec(name: string, group: string, description: string, params: seq<ParameterSpec>)

  /** Python's `str` and `float` on a value of the reply, and `str.lower`. */
  datatype Reading = Reading(str: Value -> string, float: Value -> Option<real>, lower: string -> string)

  /** Values that are false in a condition. */
  predicate Falsy(v: Value) {
    match v
    case Null => true
    case Bool(flag) => !flag
    case Int(n) => n == 0
    case Num(x) => x == 0.0
    case Str(s) => s == ""
    case List(items) => items == []
    case Obj(fields) => fields == map[]
  }

  /** `str(value or default)`. */
  function TextOr(v: Value, default_: string, read: Reading): string {
    if Falsy(v) then default_ else read.str(v)
  }

  /** A confidence between 0 and 1, or the default for what is not a number. */
  function Confidence(v: Value, default_: real, read: Reading): (r: real)
    requires 0.0 <= default_ <= 1.0
    ensures 0.0 <= r <= 1.0
  {
    if v.Bool? || !(v.Int? || v.Num? || v.Str?) then default_
    else
      match read.float(v)
      case None => default_
      case Some(x) => if x < 0.0 then 0.0 else if x > 1.0 then 1.0 else x
  }

  /** The bindings of a step: the values of the reply that are references. */
  predicate BindingsOf(bindings: seq<(string, string)>, fields: map<string, Value>) {
    && (forall i | 0 <= i < |bindings| ::
          bindings[i].0 in fields && fields[bindings[i].0] == Str(bindings[i].1)
              && Bindings.IsReference(Str(bindings[i].1)))
    && (forall name | name in fields && Bindings.IsReference(fields[name]) ::
        exists i :: 0 <= i < |bindings| && bindings[i].0 == name)
  }

  method ReadBindings(v: Value) returns (bindings: seq<(string, string)>)
    ensures BindingsOf(bindings, if v.Obj? then v.fields else map[])
  {
    bindings := [];
    if v.Obj? {
      var left := v.fields.Keys;
      while left != {}
        invariant left <= v.fields.Keys
        invariant forall i | 0 <= i < |bindings| ::
          bindings[i].0 in v.fields && v.fields[bindings[i].0] == Str(bindings[i].1)
              && Bindings.IsReference(Str(bindings[i].1))
        invariant forall name | name in v.fields.Keys - left && Bindings.IsReference(v.fields[name]) ::
          exists i :: 0 <= i < |bindings| && bindings[i].0 == name
      {
        var name :| name in left;
        left := left - {name};
        if Bindings.IsReference(v.fields[name]) {
          ghost var before := bindings;
          bindings := bindings + [(name, v.fields[name].text)];
          assert bindings[|before|].0 == name;
          assert forall i | 0 <= i < |before| :: bindings[i] == before[i];
        }
      }
    }
  }

  function Names(bindings: seq<(string, string)>): set<string> {
    set i | 0 <= i < |bindings| :: bindings[i].0
  }

  function Without(arguments: Args, names: set<string>): Args {
    map name | name in arguments && name !in names :: arguments[name]
  }

  /** The arguments whose values are known before anything runs. */
  function Static(arguments: Args): Args {
    map name | name in arguments && !Bindings.IsReference(arguments[name]) :: arguments[name]
  }

  /** A step of a model's plan that got through: on an available tool, bound by references only, no argument both given
      and bound, and the given ones acceptable to the tool. */
  ghost predicate Accepted(step: PlanStep, tools: map<string, ToolSpec>, py: Python) {
    && step.tool in tools
    && (forall i | 0 <= i < |step.bindings| ::
        Bindings.ParseReference(step.bindings[i].1).Some? && step.bindings[i].0 !in step.arguments)
    && Validate(py, tools[step.tool].params, Static(step.arguments)).Ok?
  }

  function Strings(v: Value): seq<string> {
    if v.List? then StringsOf(v.items) else []
  }

  function StringsOf(items: seq<Value>): seq<string> {
    if items == [] then [] else (if items[0].Str? then [items[0].text] else []) + StringsOf(items[1..])
  }

  /** `item.get(key)` when it is a dict. */
  function Fields(item: Value, key: string): map<string, Value> {
    if item.Obj? && Get(item.fields, key).Obj? then Get(item.fields, key).fields else map[]
  }

  /** The arguments a step of the reply binds. */
  function Bound(item: Value): set<string> {
    set name | name in Fields(item, "bindings") && Bindings.IsReference(Fields(item, "bindings")[name])
  }

  /** The arguments a step of the reply gives, without those it binds. */
  function Given(item: Value): Args {
    Without(Fields(item, "arguments"), Bound(item))
  }

  predicate OnAvailableTool(item: Value, tools: map<string, ToolSpec>) {
    item.Obj? && Get(item.fields, "tool").Str? && Get(item.fields, "tool").text in tools
  }

  /** A step of the reply that gets through: on an available tool that accepts what is known before anything runs. */
  predicate StepPasses(item: Value, tools: map<string, ToolSpec>, py: Python) {
    OnAvailableTool(item, tools) && Validate(py, tools[Get(item.fields, "tool").text].params, Static(Given(item))).Ok?
  }

  function NameOf(item: Value, index: nat, read: Reading): string {
    TextOr(if item.Obj? then Get(item.fields, "step_id") else Null, "s" + Digits(index), read)
  }

  function Awaited(item: Value): seq<string> {
    if item.Obj? then Strings(Get(item.fields, "depends_on")) else []
  }

  /** The plan's step is the one the reply describes. Its bindings come in any order. */
  predicate StepOf(step: PlanStep, item: Value, index: nat, tools: map<string, ToolSpec>, read: Reading) {
    && OnAvailableTool(item, tools)
    && step.stepId == NameOf(item, index, read) && step.tool == Get(item.fields, "tool").text
    && step.arguments == Given(item) && step.dependsOn == Awaited(item)
    && BindingsOf(step.bindings, Fields(item, "bindings"))
    && step.purpose == Clip(TextOr(Get(item.fields, "purpose"), tools[step.tool].description, read), 200)
    && step.agent == AgentFor(tools[step.tool].group)
  }

  ghost predicate Taken(step: PlanStep, item: Value, index: nat, tools: map<string, ToolSpec>, py: Python,
      read: Reading) {
    StepOf(step, item, index, tools, read) && Accepted(step, tools, py)
  }

  lemma BoundNames(bindings: seq<(string, string)>, item: Value)
    requires BindingsOf(bindings, Fields(item, "bindings"))
    ensures Names(bindings) == Bound(item)
  {
  }

  method ReadStep(item: Value, index: nat, tools: map<string, ToolSpec>, py: Python, read: Reading)
      returns (r: Option<PlanStep>)
    ensures r.Some? <==> StepPasses(item, tools, py)
    ensures r.Some? ==> Taken(r.value, item, index, tools, py, read)
  {
    if !item.Obj? || !Get(item.fields, "tool").Str? || Get(item.fields, "tool").text !in tools {
      return None;
    }
    var tool := tools[Get(item.fields, "tool").text];
    var given := Get(item.fields, "arguments");
    var arguments := if given.Obj? then given.fields else map[];
    var bindings := ReadBindings(Get(item.fields, "bindings"));
    BoundNames(bindings, item);
    var static_ := Without(arguments, Names(bindings));
    var checked := ValidateArguments(py, tool.params, Static(static_));
    if checked.Err? {
      return None;
    }
    assert forall i | 0 <= i < |bindings| :: bindings[i].0 in Names(bindings);
    return Some(PlanStep(TextOr(Get(item.fields, "step_id"), "s" + Digits(index), read), Get(item.fields, "tool").text,
        static_,
                         Clip(TextOr(Get(item.fields, "purpose"), tool.description, read), 200),
                         Strings(Get(item.fields, "depends_on")), bindings, AgentFor(tool.group)));
  }

  // ------------------------------------------------------------------- which replies get through

  /** The question a reply asks back. */
  function Question(fields: map<string, Value>): string {
    var clarification := Get(fields, "clarification");
    if clarification.Str? then Strip(clarification.text) else ""
  }

  function Items(fields: map<string, Value>): seq<Value> {
    var steps := Get(fields, "steps");
    if steps.List? then steps.items else []
  }

  function StepNames(items: seq<Value>, read: Reading): (names: seq<string>)
    ensures |names| == |items| && forall i | 0 <= i < |items| :: names[i] == NameOf(items[i], i + 1, read)
  {
    seq(|items|, i requires 0 <= i < |items| => NameOf(items[i], i + 1, read))
  }

  /** The checks on plans, told from the reply: few steps, unique names, known dependencies. */
  predicate ItemsPass(items: seq<Value>, read: Reading) {
    var names := StepNames(items, read);
    && |items| <= MAX_PLAN_STEPS
    && (forall i, j | 0 <= i < j < |names| :: names[i] != names[j])
    && forall i, d | 0 <= i < |items| && d in Awaited(items[i]) :: d in names
  }

  /** A reply that gets through: an object that asks a question, or plans a few acceptable steps. */
  predicate GetsThrough(payload: Option<Value>, tools: map<string, ToolSpec>, py: Python, read: Reading) {
    && payload.Some? && payload.value.Obj?
    && var items := Items(payload.value.fields);
       || Question(payload.value.fields) != ""
       || (items != [] && ItemsPass(items, read) && forall i | 0 <= i < |items| :: StepPasses(items[i], tools, py))
  }

  // ------------------------------------------------------------------- what a reply says

  /** A step waits for exactly the texts listed under `depends_on`. */
  lemma AwaitedExactlyWhen(item: Value, d: string)
    ensures d in Awaited(item) <==>
            item.Obj? && Get(item.fields, "depends_on").List? && Str(d) in Get(item.fields, "depends_on").items
  {
    if item.Obj? && Get(item.fields, "depends_on").List? {
      StringsExactlyWhen(Get(item.fields, "depends_on").items, d);
    }
  }

  lemma {:induction false} StringsExactlyWhen(items: seq<Value>, d: string)
    ensures d in StringsOf(items) <==> Str(d) in items
  {
    if items != [] {
      StringsExactlyWhen(items[1..], d);
    }
  }

  /** A step is given exactly the arguments of the reply that are not bound to a reference, as they are. */
  lemma GivenExactlyWhen(item: Value, name: string, value: Value)
    ensures name in Given(item) && Given(item)[name] == value <==>
            && name in Fields(item, "arguments") && Fields(item, "arguments")[name] == value
            && !(name in Fields(item, "bindings") && Bindings.IsReference(Fields(item, "bindings")[name]))
  {
  }

  /** A confidence that is a number is kept up to its bounds; anything else, a truth value too, gives the default. */
  lemma ConfidenceMeans(v: Value, default_: real, read: Reading)
    requires 0.0 <= default_ <= 1.0
    ensures var numeral := v.Int? || v.Num? || v.Str?;
            var r := Confidence(v, default_, read);
            if numeral && read.float(v).Some? then
              var x := read.float(v).value;
              (0.0 <= x <= 1.0 ==> r == x) && (x < 0.0 ==> r == 0.0) && (x > 1.0 ==> r == 1.0)
            else r == default_
  {
  }

  /** A reply asks something back exactly when its clarification is a text with a visible character. */
  lemma AsksExactlyWhen(fields: map<string, Value>)
    ensures Question(fields) != "" <==>
            Get(fields, "clarification").Str?
            && exists i ::
                0 <= i < |Get(fields, "clarification").text| && !IsSpace(Get(fields, "clarification").text[i])
  {
    if Get(fields, "clarification").Str? {
      StripEmpty(Get(fields, "clarification").text);
    }
  }

  /** The plan is the one the reply describes. */
  predicate PlanOf(plan: AgentPlan, fields: map<string, Value>, tools: map<string, ToolSpec>, read: Reading) {
    var items := Items(fields);
    if Question(fields) != "" then
      plan == AgentPlan(TextOr(Get(fields, "intent"), "clarify", read), [], Some(Clip(Question(fields), 500)),
                        Confidence(Get(fields, "confidence"), 0.5, read))
    else
      && |plan.steps| == |items| && (forall i | 0 <= i < |items| :: StepOf(plan.steps[i], items[i], i + 1, tools, read))
      && plan.intent == Clip(TextOr(Get(fields, "intent"), "model_plan", read), 60) && plan.clarification == None
      && plan.confidence == Confidence(Get(fields, "confidence"), 0.7, read)
  }

  /** A plan that got through the parser: a question back, or a valid plan of accepted steps. */
  ghost predicate Parsed(plan: AgentPlan, tools: map<string, ToolSpec>, py: Python) {
    && 0.0 <= plan.confidence <= 1.0
    && (plan.steps == [] ==> plan.clarification.Some? && plan.clarification.value != "")
    && (plan.steps != [] ==> plan.clarification.None? && ValidPlan(plan.steps)
                             && forall i | 0 <= i < |plan.steps| :: Accepted(plan.steps[i], tools, py))
  }

  /** The checks a plan makes when it is built. */
  method PlanChecks(steps: seq<PlanStep>) returns (ok: bool)
    ensures ok <==> ValidPlan(steps)
  {
    ok := ValidPlan(steps);
  }

  lemma ChecksOfItems(steps: seq<PlanStep>, items: seq<Value>, tools: map<string, ToolSpec>, read: Reading)
    requires |steps| == |items| && forall i | 0 <= i < |items| :: StepOf(steps[i], items[i], i + 1, tools, read)
    ensures ValidPlan(steps) <==> ItemsPass(items, read)
  {
    assert StepIds(steps) == StepNames(items, read);
    assert forall i | 0 <= i < |steps| ::
        steps[i].stepId == StepIds(steps)[i] && steps[i].dependsOn == Awaited(items[i]);
  }

  /** The first items of a reply, taken as steps. */
  ghost predicate TakenSoFar(steps: seq<PlanStep>, items: seq<Value>, tools: map<string, ToolSpec>, py: Python,
      read: Reading)
  {
    && |steps| <= |items|
    && forall k | 0 <= k < |steps| ::
         StepPasses(items[k], tools, py) && Taken(steps[k], items[k], k + 1, tools, py, read)
  }

  lemma OneMoreTaken(steps: seq<PlanStep>, step: PlanStep, items: seq<Value>, tools: map<string, ToolSpec>, py: Python,
      read: Reading)
    requires |steps| < |items| && TakenSoFar(steps, items, tools, py, read)
    requires StepPasses(items[|steps|], tools, py) && Taken(step, items[|steps|], |steps| + 1, tools, py, read)
    ensures TakenSoFar(steps + [step], items, tools, py, read)
  {
  }

  /** The steps of a reply, unless one of them does not get through. */
  method ReadSteps(items: seq<Value>, tools: map<string, ToolSpec>, py: Python, read: Reading)
      returns (r: Option<seq<PlanStep>>)
    ensures r.Some? <==> forall i | 0 <= i < |items| :: StepPasses(items[i], tools, py)
    ensures r.Some? ==> |r.value| == |items|
    ensures r.Some? ==> forall i | 0 <= i < |items| :: Taken(r.value[i], items[i], i + 1, tools, py, read)
  {
    var steps: seq<PlanStep> := [];
    for i := 0 to |items|
      invariant |steps| == i && TakenSoFar(steps, items, tools, py, read)
    {
      var step := ReadStep(items[i], i + 1, tools, py, read);
      if step.None? {
        return None;
      }
      OneMoreTaken(steps, step.value, items, tools, py, read);
      steps := steps + [step.value];
    }
    return Some(steps);
  }

  method Parse(payload: Option<Value>, tools: map<string, ToolSpec>, py: Python, read: Reading)
      returns (r: Option<AgentPlan>)
    ensures r.Some? <==> GetsThrough(payload, tools, py, read)
    ensures r.Some? ==> PlanOf(r.value, payload.value.fields, tools, read) && Parsed(r.value, tools, py)
  {
    if payload.None? || !payload.value.Obj? {
      return None;
    }
    var fields := payload.value.fields;
    var clarification := Get(fields, "clarification");
    if clarification.Str? && Strip(clarification.text) != "" {
      return Some(AgentPlan(TextOr(Get(fields, "intent"), "clarify", read), [],
          Some(Clip(Strip(clarification.text), 500)),
                            Confidence(Get(fields, "confidence"), 0.5, read)));
    }
    var raw := Get(fields, "steps");
    if !raw.List? || raw.items == [] || |raw.items| > MAX_PLAN_STEPS {
      return None;
    }
    var steps := ReadSteps(raw.items, tools, py, read);
    if steps.None? {
      return None;
    }
    ChecksOfItems(steps.value, raw.items, tools, read);
    var valid := PlanChecks(steps.value);
    if !valid {
      return None;
    }
    return Some(AgentPlan(Clip(TextOr(Get(fields, "intent"), "model_plan", read), 60), steps.value, None,
                          Confidence(Get(fields, "confidence"), 0.7, read)));
  }

  lemma RequiredIsMissing(py: Python, params: seq<ParameterSpec>, supplied: Args, i: nat)
    requires UniqueNames(params) && i < |params| && params[i].required && Absent(Supplied(params[i], supplied))
    ensures Validate(py, params, supplied).Err?
  {
    CollectMeaning(py, params, supplied, map[]);
    assert Entry(py, params[i], supplied).Err?;
  }

  /** A step that binds a required parameter does not get through: bound arguments are not there to be validated. */
  lemma BindingARequiredParameterIsRejected(item: Value, tools: map<string, ToolSpec>, py: Python, i: nat)
    requires OnAvailableTool(item, tools)
    requires var params := tools[Get(item.fields, "tool").text].params;
             UniqueNames(params) && i < |params| && params[i].required && Absent(params[i].default)
                 && params[i].name in Bound(item)
    ensures !StepPasses(item, tools, py)
  {
    RequiredIsMissing(py, tools[Get(item.fields, "tool").text].params, Static(Given(item)), i);
  }

  /** The intent of a reply that names one and plans no steps. */
  function DeclaredIntent(payload: Option<Value>, read: Reading): Option<string> {
    if payload.None? || !payload.value.Obj? || !Falsy(Get(payload.value.fields, "steps")) then None
    else
      var intent := read.lower(Strip(TextOr(Get(payload.value.fields, "intent"), "", read)));
      if intent == "" then None else Some(intent)
  }

  /** The model's plan, or the deterministic one. `reply` is `None` when the model failed, and otherwise the JSON
      value in its reply, if there is one. A reply that gets through is the plan; otherwise the deterministic plan
      stands, except that the reply may hand over to an open task, or outdo the deterministic planner's own last
      resort. */
  method PlanWithModel(fallback: AgentPlan, reply: Option<Option<Value>>, openTask: bool, tools: map<string, ToolSpec>,
      py: Python, read: Reading)
      returns (plan: AgentPlan)
    ensures reply.None? ==> plan == fallback
    ensures reply.Some? && GetsThrough(reply.value, tools, py, read) ==>
              PlanOf(plan, reply.value.value.fields, tools, read) && Parsed(plan, tools, py)
    ensures reply.Some? && !GetsThrough(reply.value, tools, py, read) ==>
              var intent := DeclaredIntent(reply.value, read);
              plan == if openTask && intent == Some("open_task") then AgentPlan("open_task", [], None, 0.8)
                      else if intent == Some("unknown") && (fallback.steps == [] || fallback.confidence < 0.5) then
                        AgentPlan("unknown", [], Some(UNMAPPED), 0.0)
                      else fallback
  {
    if reply.None? {
      return fallback;
    }
    var parsed := Parse(reply.value, tools, py, read);
    if parsed.Some? {
      return parsed.value;
    }
    if openTask && DeclaredIntent(reply.value, read) == Some("open_task") {
      return AgentPlan("open_task", [], None, 0.8);
    }
    if DeclaredIntent(reply.value, read) == Some("unknown") && (fallback.steps == [] || fallback.confidence < 0.5) {
      return AgentPlan("unknown", [], Some(UNMAPPED), 0.0);
    }
    return fallback;
  }
}
