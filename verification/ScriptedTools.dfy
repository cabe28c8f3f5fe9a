/** Tools whose calls end as a script says, and runs in which just the steps of a chosen cast succeed: what the
    statements over all behaviours of tools are shown to be exact with (runs as in apps/api/app/agents/master.py,
    `execute`). */
module ScriptedTools {
  import opened Values
  import opened Contracts
  import opened Spec
  import opened Bindings
  import opened Gateway
  import opened Master
  import opened Resumption

  // ------------------------------------------------------------------- outputs

  ghost function Only(outputs: map<string, Value>, ids: set<string>): map<string, Value> {
    map s | s in outputs && s in ids :: outputs[s]
  }

  function Resolved(step: PlanStep, outputs: map<string, Value>): Result<Args, BindingError> {
    ResolveAll(step.arguments, step.bindings, outputs)
  }

  function OutputWith(data: Value, summary: string): Value {
    Obj(map["data" := data, "summary" := Str(summary)])
  }

  ghost predicate IsOutput(v: Value) {
    exists data, summary :: v == OutputWith(data, summary)
  }

  predicate Unknown(r: Result<Args, BindingError>) {
    r.Err? && r.error.UnknownStep?
  }

  /** The outputs there are: earlier ones, and those of the named steps. */
  ghost function Given(earlier: map<string, Value>, outputs: map<string, Value>, ids: set<string>): map<string, Value> {
    Only(outputs, ids) + earlier
  }

  ghost predicate Within(few: map<string, Value>, many: map<string, Value>) {
    forall s | s in few :: s in many && few[s] == many[s]
  }

  /** With fewer outputs a step resolves to the same, or misses one. */
  lemma {:induction false} FewerOutputs(arguments: Args, bindings: seq<(string, string)>, few: map<string, Value>,
      many: map<string, Value>)
    requires Within(few, many)
    ensures var r, s := ResolveAll(arguments, bindings, few), ResolveAll(arguments, bindings, many);
            (r == s || Unknown(r)) && (Unknown(s) ==> Unknown(r))
    decreases |bindings|
  {
    if bindings != [] {
      var value := Resolve(bindings[0].1, few);
      if value.Ok? {
        FewerOutputs(arguments[bindings[0].0 := Cleaned(value.value)], bindings[1..], few, many);
      }
    }
  }

  lemma NewName(steps: seq<PlanStep>, k: nat)
    requires UniqueSteps(steps) && k < |steps|
    ensures steps[k].stepId !in IdSet(steps[..k]) && IdSet(steps[..k + 1]) == IdSet(steps[..k]) + {steps[k].stepId}
  {
    var longer := steps[..k + 1];
    forall id ensures id in IdSet(longer) <==>
        id in IdSet(longer[..|longer| - 1]) || longer[|longer| - 1].stepId == id {
      OneMoreId(longer, id);
    }
    assert longer[..|longer| - 1] == steps[..k] && longer[|longer| - 1] == steps[k];
  }

  // ------------------------------------------------------------------- scripted tools

  /** Records that also count the calls made on them. */
  datatype Counted<!W> = Counted(world: W, calls: nat)

  /** A tool that does what `tool` does for the first `n` calls over all tools, and ends the next ones as the script
      says. */
  function ScriptedTool<W>(tool: Tool<W>, n: nat, script: seq<HandlerResult>): Tool<Counted<W>> {
    Tool(tool.name, tool.params, tool.risk, tool.permits, tool.validator,
         (c: Counted<W>, principal, arguments) =>
           if c.calls < n then
             var (world, result) := tool.handler(c.world, principal, arguments);
             (Counted(world, c.calls + 1), result)
           else
             (Counted(c.world, c.calls + 1), if c.calls - n < |script| then script[c.calls - n] else HandlerError("")))
  }

  function ScriptedEnv<W>(env: Env<W>, n: nat, script: seq<HandlerResult>): Env<Counted<W>> {
    Env(map tool | tool in env.tools :: ScriptedTool(env.tools[tool], n, script), env.ttl, env.py)
  }

  function Counting<W>(st: State<W>, calls: nat): State<Counted<W>> {
    State(Counted(st.world, calls), st.approvals, st.nextId, st.calls, st.audit)
  }

  /** The two runs have done the same so far; `base` calls were made before them. */
  ghost predicate Mirrors<W>(p: Progress<W>, t: Progress<Counted<W>>, base: nat) {
    && base <= |p.st.calls|
    && t.results == p.results && t.completed == p.completed && t.failed == p.failed && t.stopped == p.stopped
    && t.st == Counting(p.st, |p.st.calls| - base)
  }

  lemma CheckScripted<W>(env: Env<W>, n: nat, script: seq<HandlerResult>, principal: string, tool: string,
      arguments: Args)
    requires tool in env.tools
    ensures Check(ScriptedEnv(env, n, script), principal, ScriptedEnv(env, n, script).tools[tool], arguments) ==
            Check(env, principal, env.tools[tool], arguments)
  {
  }

  lemma HandleMirrors<W>(n: nat, script: seq<HandlerResult>, ctx: Context, st: State<W>, base: nat, tool: Tool<W>,
      arguments: Args,
      claimed: Option<nat>)
    requires base <= |st.calls| < base + n && (claimed.Some? ==> claimed.value in st.approvals)
    ensures var (after, invocation) := Handle(ctx, st, tool, arguments, claimed);
            && |after.calls| == |st.calls| + 1
            && Handle(ctx, Counting(st, |st.calls| - base), ScriptedTool(tool, n, script), arguments, claimed) ==
                (Counting(after, |after.calls| - base), invocation)
  {
  }

  lemma InvokeCallsGrow<W>(env: Env<W>, ctx: Context, st: State<W>, tool: string, arguments: Args)
    ensures |st.calls| <= |Invoke(env, ctx, st, tool, arguments).0.calls| <= |st.calls| + 1
  {
  }

  /** A call that is refused before its handler would run, or that changes no record. */
  lemma OtherMirrors<W>(env: Env<W>, n: nat, script: seq<HandlerResult>, ctx: Context, st: State<W>, base: nat,
      tool: string, arguments: Args)
    requires tool in env.tools ==>
               env.tools[tool].risk != HighRisk || Check(env, ctx.principal, env.tools[tool], arguments).Err?
    requires base <= |st.calls| && |Invoke(env, ctx, st, tool, arguments).0.calls| <= base + n
    ensures var (after, invocation) := Invoke(env, ctx, st, tool, arguments);
            Invoke(ScriptedEnv(env, n, script), ctx, Counting(st, |st.calls| - base), tool, arguments) ==
                (Counting(after, |after.calls| - base), invocation)
  {
    if tool in env.tools {
      CheckScripted(env, n, script, ctx.principal, tool, arguments);
      var checked := Check(env, ctx.principal, env.tools[tool], arguments);
      if checked.Ok? {
        HandleMirrors(n, script, ctx, st, base, env.tools[tool], checked.value, None);
      }
    }
  }

  lemma InvokeMirrors<W>(env: Env<W>, n: nat, script: seq<HandlerResult>, ctx: Context, st: State<W>, base: nat,
      tool: string, arguments: Args)
    requires base <= |st.calls| && |Invoke(env, ctx, st, tool, arguments).0.calls| <= base + n
    ensures var (after, invocation) := Invoke(env, ctx, st, tool, arguments);
            Invoke(ScriptedEnv(env, n, script), ctx, Counting(st, |st.calls| - base), tool, arguments) ==
                (Counting(after, |after.calls| - base), invocation)
  {
    if tool in env.tools && env.tools[tool].risk == HighRisk
        && Check(env, ctx.principal, env.tools[tool], arguments).Ok? {
      CheckedChangeMirrors(env, n, script, ctx, st, base, tool, arguments);
    } else {
      OtherMirrors(env, n, script, ctx, st, base, tool, arguments);
    }
  }

  lemma CheckedChangeMirrors<W>(env: Env<W>, n: nat, script: seq<HandlerResult>, ctx: Context, st: State<W>, base: nat,
      tool: string, arguments: Args)
    requires tool in env.tools && env.tools[tool].risk == HighRisk
    requires Check(env, ctx.principal, env.tools[tool], arguments).Ok?
    requires base <= |st.calls| && |Invoke(env, ctx, st, tool, arguments).0.calls| <= base + n
    ensures var (after, invocation) := Invoke(env, ctx, st, tool, arguments);
            Invoke(ScriptedEnv(env, n, script), ctx, Counting(st, |st.calls| - base), tool, arguments) ==
                (Counting(after, |after.calls| - base), invocation)
  {
    CheckScripted(env, n, script, ctx.principal, tool, arguments);
    var checked := Check(env, ctx.principal, env.tools[tool], arguments).value;
    ChangeMirrors(env, n, script, ctx, st, base, env.tools[tool], checked);
  }

  lemma ChangeMirrors<W>(env: Env<W>, n: nat, script: seq<HandlerResult>, ctx: Context, st: State<W>, base: nat,
      tool: Tool<W>, checked: Args)
    requires base <= |st.calls| && |ChangeRecord(env, ctx, st, tool, checked).0.calls| <= base + n
    ensures var (after, invocation) := ChangeRecord(env, ctx, st, tool, checked);
            ChangeRecord(ScriptedEnv(env, n, script), ctx, Counting(st, |st.calls| - base),
                ScriptedTool(tool, n, script), checked)
              == (Counting(after, |after.calls| - base), invocation)
  {
    var usable := ApprovalState(ctx, st, tool.name, checked).0;
    if usable.Some? && Claimable(st.approvals[usable.value], ctx.principal, ctx.now) {
      HandleMirrors(n, script, ctx, WithStatus(st, usable.value, Executing), base, tool, checked, usable);
    }
  }

  lemma StepMirrors<W>(env: Env<W>, n: nat, script: seq<HandlerResult>, ctx: Context, step: PlanStep, p: Progress<W>,
      t: Progress<Counted<W>>,
      base: nat)
    requires Mirrors(p, t, base) && |RunStep(env, ctx, step, p).st.calls| <= base + n
    ensures Mirrors(RunStep(env, ctx, step, p), RunStep(ScriptedEnv(env, n, script), ctx, step, t), base)
  {
    var r := ResolveAll(step.arguments, step.bindings, p.completed);
    if !Blocked(step, p.failed) && r.Ok? {
      InvokeCallsGrow(env, ctx, p.st, step.tool, r.value);
      InvokeMirrors(env, n, script, ctx, p.st, base, step.tool, r.value);
      SameOutcome(env, ScriptedEnv(env, n, script), ctx, step, p, t, r.value);
    }
  }

  /** A step whose calls end alike ends alike. */
  lemma SameOutcome<W, V>(env: Env<W>, other: Env<V>, ctx: Context, step: PlanStep, p: Progress<W>, t: Progress<V>,
      arguments: Args)
    requires !Blocked(step, p.failed) && ResolveAll(step.arguments, step.bindings, p.completed) == Ok(arguments)
    requires t.results == p.results && t.completed == p.completed && t.failed == p.failed
    requires Invoke(env, ctx, p.st, step.tool, arguments).1 == Invoke(other, ctx, t.st, step.tool, arguments).1
    ensures var next, next' := RunStep(env, ctx, step, p), RunStep(other, ctx, step, t);
            && next'.results == next.results && next'.completed == next.completed && next'.failed == next.failed
                && next'.stopped == next.stopped
            && next.st == Invoke(env, ctx, p.st, step.tool, arguments).0
                && next'.st == Invoke(other, ctx, t.st, step.tool, arguments).0
  {
  }

  lemma CallsGrow<W>(env: Env<W>, ctx: Context, step: PlanStep, p: Progress<W>)
    ensures |p.st.calls| <= |RunStep(env, ctx, step, p).st.calls|
  {
    var r := ResolveAll(step.arguments, step.bindings, p.completed);
    if r.Ok? {
      InvokeCallsGrow(env, ctx, p.st, step.tool, r.value);
    }
  }

  lemma {:induction false} RunCallsGrow<W>(env: Env<W>, ctx: Context, steps: seq<PlanStep>, p: Progress<W>)
    ensures |p.st.calls| <= |Run(env, ctx, steps, p).st.calls|
    decreases |steps|
  {
    if steps != [] && !p.stopped {
      CallsGrow(env, ctx, steps[0], p);
      RunCallsGrow(env, ctx, steps[1..], RunStep(env, ctx, steps[0], p));
    }
  }

  /** As long as a run makes no more than `n` calls, the scripted tools do the same. */
  lemma {:induction false} RunMirrors<W>(env: Env<W>, n: nat, script: seq<HandlerResult>, ctx: Context,
      steps: seq<PlanStep>, p: Progress<W>,
      t: Progress<Counted<W>>, base: nat)
    requires Mirrors(p, t, base) && |Run(env, ctx, steps, p).st.calls| <= base + n
    ensures Mirrors(Run(env, ctx, steps, p), Run(ScriptedEnv(env, n, script), ctx, steps, t), base)
    decreases |steps|
  {
    if steps != [] && !p.stopped {
      var next := RunStep(env, ctx, steps[0], p);
      RunCallsGrow(env, ctx, steps[1..], next);
      StepMirrors(env, n, script, ctx, steps[0], p, t, base);
      RunMirrors(env, n, script, ctx, steps[1..], next, RunStep(ScriptedEnv(env, n, script), ctx, steps[0], t), base);
    }
  }

  // ------------------------------------------------------------------- a longer script

  lemma CallsCount<W>(env: Env<W>, n: nat, script: seq<HandlerResult>, ctx: Context, step: PlanStep,
      p: Progress<Counted<W>>)
    ensures var next := RunStep(ScriptedEnv(env, n, script), ctx, step, p);
            p.st.world.calls <= next.st.world.calls <= p.st.world.calls + 1
  {
    var r := Resolved(step, p.completed);
    if r.Ok? {
      OneCall(env, n, script, ctx, step.tool, r.value, p.st);
    }
  }

  lemma OneCall<W>(env: Env<W>, n: nat, script: seq<HandlerResult>, ctx: Context, tool: string, arguments: Args,
      st: State<Counted<W>>)
    ensures var after := Invoke(ScriptedEnv(env, n, script), ctx, st, tool, arguments).0;
            st.world.calls <= after.world.calls <= st.world.calls + 1
  {
  }

  /** Two scripts that agree on the next outcome, or a call that is not made, lead to the same. */
  lemma SameHandling<W>(n: nat, script: seq<HandlerResult>, other: seq<HandlerResult>, ctx: Context, tool: Tool<W>,
      arguments: Args, claimed: Option<nat>, st: State<Counted<W>>)
    requires claimed.Some? ==> claimed.value in st.approvals
    requires st.world.calls < n || (st.world.calls < n + |script| && |script| <= |other| && other[..|script|] == script)
    ensures Handle(ctx, st, ScriptedTool(tool, n, other), arguments, claimed) ==
            Handle(ctx, st, ScriptedTool(tool, n, script), arguments, claimed)
  {
    if st.world.calls >= n {
      assert other[st.world.calls - n] == other[..|script|][st.world.calls - n];
    }
  }

  lemma HandlingCounts<W>(n: nat, script: seq<HandlerResult>, ctx: Context, tool: Tool<W>, arguments: Args,
      claimed: Option<nat>, st: State<Counted<W>>)
    requires claimed.Some? ==> claimed.value in st.approvals
    ensures Handle(ctx, st, ScriptedTool(tool, n, script), arguments, claimed).0.world.calls == st.world.calls + 1
  {
  }

  /** A call is not changed by a longer script when it is covered, or not made. */
  lemma SameCall<W>(env: Env<W>, n: nat, script: seq<HandlerResult>, other: seq<HandlerResult>, ctx: Context,
      tool: string, arguments: Args, st: State<Counted<W>>)
    requires |script| <= |other| && other[..|script|] == script
    requires var after := Invoke(ScriptedEnv(env, n, script), ctx, st, tool, arguments).0;
             after.world.calls <= n + |script| || after.world.calls == st.world.calls
    ensures Invoke(ScriptedEnv(env, n, other), ctx, st, tool, arguments) ==
            Invoke(ScriptedEnv(env, n, script), ctx, st, tool, arguments)
  {
    if tool in env.tools {
      CheckScripted(env, n, script, ctx.principal, tool, arguments);
      CheckScripted(env, n, other, ctx.principal, tool, arguments);
      var checked := Check(env, ctx.principal, env.tools[tool], arguments);
      if checked.Ok? && env.tools[tool].risk != HighRisk {
        HandlingCounts(n, script, ctx, env.tools[tool], checked.value, None, st);
        SameHandling(n, script, other, ctx, env.tools[tool], checked.value, None, st);
      } else if checked.Ok? {
        SameChange(env, n, script, other, ctx, env.tools[tool], checked.value, st);
      }
    }
  }

  lemma SameChange<W>(env: Env<W>, n: nat, script: seq<HandlerResult>, other: seq<HandlerResult>, ctx: Context,
      tool: Tool<W>, checked: Args, st: State<Counted<W>>)
    requires |script| <= |other| && other[..|script|] == script
    requires var after := ChangeRecord(ScriptedEnv(env, n, script), ctx, st, ScriptedTool(tool, n, script), checked).0;
             after.world.calls <= n + |script| || after.world.calls == st.world.calls
    ensures ChangeRecord(ScriptedEnv(env, n, other), ctx, st, ScriptedTool(tool, n, other), checked) ==
            ChangeRecord(ScriptedEnv(env, n, script), ctx, st, ScriptedTool(tool, n, script), checked)
  {
    var usable := ApprovalState(ctx, st, tool.name, checked).0;
    if usable.Some? && Claimable(st.approvals[usable.value], ctx.principal, ctx.now) {
      var claimed := WithStatus(st, usable.value, Executing);
      HandlingCounts(n, script, ctx, tool, checked, usable, claimed);
      SameHandling(n, script, other, ctx, tool, checked, usable, claimed);
    }
  }

  /** A longer script does not change the calls that the shorter one covers. */
  lemma LongerScriptStep<W>(env: Env<W>, n: nat, script: seq<HandlerResult>, more: seq<HandlerResult>, ctx: Context,
      step: PlanStep, p: Progress<Counted<W>>)
    requires RunStep(ScriptedEnv(env, n, script), ctx, step, p).st.world.calls <= n + |script|
    ensures RunStep(ScriptedEnv(env, n, script + more), ctx, step, p) ==
            RunStep(ScriptedEnv(env, n, script), ctx, step, p)
  {
    var r := Resolved(step, p.completed);
    if !Blocked(step, p.failed) && r.Ok? {
      assert (script + more)[..|script|] == script;
      SameCall(env, n, script, script + more, ctx, step.tool, r.value, p.st);
    }
  }

  lemma {:induction false} LongerScript<W>(env: Env<W>, n: nat, script: seq<HandlerResult>, more: seq<HandlerResult>,
      ctx: Context, steps: seq<PlanStep>, p: Progress<Counted<W>>)
    requires Run(ScriptedEnv(env, n, script), ctx, steps, p).st.world.calls <= n + |script|
    ensures p.st.world.calls <= Run(ScriptedEnv(env, n, script), ctx, steps, p).st.world.calls
    ensures Run(ScriptedEnv(env, n, script + more), ctx, steps, p) == Run(ScriptedEnv(env, n, script), ctx, steps, p)
    decreases |steps|
  {
    if steps != [] && !p.stopped {
      var next := RunStep(ScriptedEnv(env, n, script), ctx, steps[0], p);
      CallsCount(env, n, script, ctx, steps[0], p);
      LongerScript(env, n, script, more, ctx, steps[1..], next);
      LongerScriptStep(env, n, script, more, ctx, steps[0], p);
    }
  }

  /** A call that is not made does not need its outcome. */
  lemma NotNeededByCall<W>(env: Env<W>, n: nat, front: seq<HandlerResult>, outcome: HandlerResult, ctx: Context,
      tool: string, arguments: Args, st: State<Counted<W>>)
    requires Invoke(ScriptedEnv(env, n, front + [outcome]), ctx, st, tool, arguments).0.world.calls == st.world.calls
    ensures Invoke(ScriptedEnv(env, n, front), ctx, st, tool, arguments) ==
            Invoke(ScriptedEnv(env, n, front + [outcome]), ctx, st, tool, arguments)
  {
    OneCallEither(env, n, front, front + [outcome], ctx, tool, arguments, st);
    assert (front + [outcome])[..|front|] == front;
    SameCall(env, n, front, front + [outcome], ctx, tool, arguments, st);
  }

  /** Whether a call is made does not depend on the script. */
  lemma OneCallEither<W>(env: Env<W>, n: nat, script: seq<HandlerResult>, other: seq<HandlerResult>, ctx: Context,
      tool: string, arguments: Args, st: State<Counted<W>>)
    ensures Invoke(ScriptedEnv(env, n, script), ctx, st, tool, arguments).0.world.calls ==
            Invoke(ScriptedEnv(env, n, other), ctx, st, tool, arguments).0.world.calls
  {
    if tool in env.tools {
      CheckScripted(env, n, script, ctx.principal, tool, arguments);
      CheckScripted(env, n, other, ctx.principal, tool, arguments);
      var checked := Check(env, ctx.principal, env.tools[tool], arguments);
      if checked.Ok? && env.tools[tool].risk == HighRisk {
        OneChangeEither(env, n, script, other, ctx, env.tools[tool], checked.value, st);
      }
    }
  }

  lemma OneChangeEither<W>(env: Env<W>, n: nat, script: seq<HandlerResult>, other: seq<HandlerResult>, ctx: Context,
      tool: Tool<W>, checked: Args, st: State<Counted<W>>)
    ensures ChangeRecord(ScriptedEnv(env, n, script), ctx, st, ScriptedTool(tool, n, script), checked).0.world.calls ==
            ChangeRecord(ScriptedEnv(env, n, other), ctx, st, ScriptedTool(tool, n, other), checked).0.world.calls
  {
  }

  lemma NotNeededByStep<W>(env: Env<W>, n: nat, front: seq<HandlerResult>, outcome: HandlerResult, ctx: Context,
      step: PlanStep, p: Progress<Counted<W>>)
    requires p.st.world.calls == n + |front|
    requires RunStep(ScriptedEnv(env, n, front + [outcome]), ctx, step, p).st.world.calls == n + |front|
    ensures RunStep(ScriptedEnv(env, n, front), ctx, step, p) ==
            RunStep(ScriptedEnv(env, n, front + [outcome]), ctx, step, p)
  {
    var r := Resolved(step, p.completed);
    if !Blocked(step, p.failed) && r.Ok? {
      NotNeededByCall(env, n, front, outcome, ctx, step.tool, r.value, p.st);
    }
  }

  // ------------------------------------------------------------------- casts

  /** The names of the chosen ones among the first `n` steps. */
  ghost function Named(steps: seq<PlanStep>, cast: set<nat>, n: nat): set<string>
    requires n <= |steps|
  {
    set j: nat | j < n && j in cast :: steps[j].stepId
  }

  /** Every earlier step that step `i` waits for is in the cast. */
  ghost predicate WaitsForCast(steps: seq<PlanStep>, cast: set<nat>, i: nat)
    requires i < |steps|
  {
    forall j: nat | j < i && steps[j].stepId in steps[i].dependsOn :: j in cast
  }

  /** With nothing but the outputs of the cast before it, step `i` resolves, and its call passes every check. */
  ghost predicate CanSucceed<W>(env: Env<W>, principal: string, steps: seq<PlanStep>, earlier: map<string, Value>,
      cast: set<nat>, outputs: map<string, Value>, i: nat)
    requires i < |steps|
  {
    var step, r := steps[i], Resolved(steps[i], Given(earlier, outputs, Named(steps, cast, i)));
    && step.stepId in outputs && IsOutput(outputs[step.stepId]) && WaitsForCast(steps, cast, i)
    && r.Ok? && step.tool in env.tools && Check(env, principal, env.tools[step.tool], r.value).Ok?
  }

  /** The cast before step `i` can all succeed, with these outputs, and then step `i` is not blocked. */
  ghost predicate Reachable<W>(env: Env<W>, principal: string, steps: seq<PlanStep>, earlier: map<string, Value>,
      cast: set<nat>, outputs: map<string, Value>, i: nat)
  {
    && i < |steps| && WaitsForCast(steps, cast, i)
    && forall j: nat | j < i && j in cast :: CanSucceed(env, principal, steps, earlier, cast, outputs, j)
  }

  /** No step asks for a confirmation: only the first one may be a record change, and it is of the confirmed call. */
  ghost predicate NeverAsks<W, V>(env: Env<W>, ctx: Context, st: State<V>, steps: seq<PlanStep>) {
    && Registered(env)
    && forall j: nat | j < |steps| && steps[j].tool in env.tools && env.tools[steps[j].tool].risk == HighRisk ::
         && j == 0 && steps[0].bindings == []
         && Check(env, ctx.principal, env.tools[steps[0].tool], steps[0].arguments) == Ok(steps[0].arguments)
         && Confirmed(ctx, st, steps[0].tool, steps[0].arguments)
  }

  /** The steps are run in `ctx` over `st` with the outputs of earlier ones; the first `n` calls were made before. */
  datatype Stage<!W> = Stage(
    env: Env<W>, n: nat, ctx: Context, steps: seq<PlanStep>, st: State<Counted<W>>, earlier: map<string, Value>)
  {
    /** The run of the first `k` steps. */
    ghost function Upto(script: seq<HandlerResult>, k: nat): Progress<Counted<W>>
      requires k <= |steps|
    {
      Run(ScriptedEnv(env, n, script), ctx, steps[..k], Start(st, earlier))
    }

    ghost predicate Set() {
      && UniqueSteps(steps) && IdSet(steps) !! earlier.Keys
      && NeverAsks(env, ctx, st, steps) && st.world.calls == n
    }
  }

  lemma UptoNext<W>(stage: Stage<W>, script: seq<HandlerResult>, k: nat)
    requires k < |stage.steps|
    ensures var p := stage.Upto(script, k);
            stage.Upto(script, k + 1) ==
                if p.stopped then p else RunStep(ScriptedEnv(stage.env, stage.n, script), stage.ctx, stage.steps[k], p)
  {
    var steps := stage.steps;
    assert steps[..k + 1] == steps[..k] + [steps[k]];
    RunSplit(ScriptedEnv(stage.env, stage.n, script), stage.ctx, steps[..k], [steps[k]],
        Start(stage.st, stage.earlier));
  }

  /** Of the first `k` steps just the cast has succeeded, with the given outputs, and the script is used up. */
  ghost predicate Following<W>(stage: Stage<W>, cast: set<nat>, outputs: map<string, Value>, k: nat,
      script: seq<HandlerResult>, p: Progress<Counted<W>>)
    requires k <= |stage.steps|
  {
    && !p.stopped && p.st.world.calls == stage.n + |script|
    && p.completed == Given(stage.earlier, outputs, Named(stage.steps, cast, k))
    && p.failed <= IdSet(stage.steps[..k]) && p.failed !! Named(stage.steps, cast, k)
    && (k == 0 ==> p.st == stage.st)
  }

  lemma NotBlockedWhileFollowing<W>(stage: Stage<W>, cast: set<nat>, outputs: map<string, Value>, k: nat,
      script: seq<HandlerResult>, p: Progress<Counted<W>>)
    requires k < |stage.steps| && Following(stage, cast, outputs, k, script, p) && WaitsForCast(stage.steps, cast, k)
    ensures !Blocked(stage.steps[k], p.failed)
  {
    var steps := stage.steps;
    forall d | d in steps[k].dependsOn ensures d !in p.failed {
      if d in IdSet(steps[..k]) {
        var j :| 0 <= j < k && steps[..k][j].stepId == d;
        assert steps[j].stepId in Named(steps, cast, k);
      }
    }
  }

  /** No call of a stage asks. */
  lemma CallNeverAsks<W>(stage: Stage<W>, script: seq<HandlerResult>, k: nat, p: Progress<Counted<W>>, arguments: Args)
    requires stage.Set() && k < |stage.steps| && (k == 0 ==> p.st == stage.st)
    requires Resolved(stage.steps[k], p.completed) == Ok(arguments)
    ensures !Invoke(ScriptedEnv(stage.env, stage.n, script), stage.ctx, p.st, stage.steps[k].tool,
            arguments).1.status.ApprovalRequired?
  {
    var env, tool := ScriptedEnv(stage.env, stage.n, script), stage.steps[k].tool;
    if tool in env.tools && env.tools[tool].risk == HighRisk {
      CheckScripted(stage.env, stage.n, script, stage.ctx.principal, tool, arguments);
      RecordChange(env, stage.ctx, p.st, tool, arguments);
    } else {
      OtherCall(env, stage.ctx, p.st, stage.ctx, p.st, tool, arguments);
    }
  }

  /** A call that passes its checks ends as the script says. */
  lemma ScriptedCall<W>(stage: Stage<W>, script: seq<HandlerResult>, k: nat, st: State<Counted<W>>, arguments: Args)
    requires k < |stage.steps|
    requires var tool := stage.steps[k].tool;
             tool in stage.env.tools
             && Check(stage.env, stage.ctx.principal, stage.env.tools[tool], arguments).Ok?
             && !Invoke(ScriptedEnv(stage.env, stage.n, script), stage.ctx, st, tool,
                 arguments).1.status.ApprovalRequired?
    requires stage.n <= st.world.calls < stage.n + |script|
    ensures var (after, invocation) := Invoke(ScriptedEnv(stage.env, stage.n, script), stage.ctx, st,
            stage.steps[k].tool, arguments);
            && after.world.calls == st.world.calls + 1
            && invocation == HandlerInvocation(script[st.world.calls - stage.n])
  {
    CheckScripted(stage.env, stage.n, script, stage.ctx.principal, stage.steps[k].tool, arguments);
  }

  /** A call whose script ends in failure fails, if it gets that far. */
  lemma ScriptedFailure<W>(stage: Stage<W>, script: seq<HandlerResult>, k: nat, st: State<Counted<W>>, arguments: Args)
    requires k < |stage.steps| && stage.n <= st.world.calls < stage.n + |script|
    requires script[st.world.calls - stage.n] == HandlerError("")
    ensures !Invoke(ScriptedEnv(stage.env, stage.n, script), stage.ctx, st, stage.steps[k].tool,
            arguments).1.status.Success?
  {
  }

  lemma StepFails<W>(stage: Stage<W>, script: seq<HandlerResult>, k: nat, p: Progress<Counted<W>>)
    requires stage.Set() && k < |stage.steps| && (k == 0 ==> p.st == stage.st) && !p.stopped
    requires stage.n <= p.st.world.calls < stage.n + |script| && script[p.st.world.calls - stage.n] == HandlerError("")
    ensures var next := RunStep(ScriptedEnv(stage.env, stage.n, script), stage.ctx, stage.steps[k], p);
            !next.stopped && next.completed == p.completed && next.failed == p.failed + {stage.steps[k].stepId}
  {
    var r := Resolved(stage.steps[k], p.completed);
    if r.Ok? {
      CallNeverAsks(stage, script, k, p, r.value);
      ScriptedFailure(stage, script, k, p.st, r.value);
    }
  }

  lemma StepSucceeds<W>(stage: Stage<W>, script: seq<HandlerResult>, k: nat, p: Progress<Counted<W>>, data: Value,
      summary: string)
    requires stage.Set() && k < |stage.steps| && (k == 0 ==> p.st == stage.st) && !p.stopped
    requires !Blocked(stage.steps[k], p.failed)
    requires stage.n <= p.st.world.calls < stage.n + |script| && script[p.st.world.calls - stage.n] ==
            Done(data, summary)
    requires var r := Resolved(stage.steps[k], p.completed);
             r.Ok? && stage.steps[k].tool in stage.env.tools
             && Check(stage.env, stage.ctx.principal, stage.env.tools[stage.steps[k].tool], r.value).Ok?
    ensures var next := RunStep(ScriptedEnv(stage.env, stage.n, script), stage.ctx, stage.steps[k], p);
            && !next.stopped && next.st.world.calls == p.st.world.calls + 1 && next.failed == p.failed
            && next.completed == p.completed[stage.steps[k].stepId := OutputWith(data, summary)]
  {
    var step, arguments := stage.steps[k], Resolved(stage.steps[k], p.completed).value;
    CallNeverAsks(stage, script, k, p, arguments);
    ScriptedCall(stage, script, k, p.st, arguments);
    var invocation := Invoke(ScriptedEnv(stage.env, stage.n, script), stage.ctx, p.st, step.tool, arguments).1;
    assert invocation == Invocation(Success, summary, data, "", None);
    assert OutputOf(ResultOf(step, invocation)) == OutputWith(data, summary);
  }

  lemma NamedNext(steps: seq<PlanStep>, cast: set<nat>, k: nat)
    requires k < |steps|
    ensures k in cast ==> Named(steps, cast, k + 1) == Named(steps, cast, k) + {steps[k].stepId}
    ensures k !in cast ==> Named(steps, cast, k + 1) == Named(steps, cast, k)
  {
  }

  lemma NamedAreEarlier(steps: seq<PlanStep>, cast: set<nat>, k: nat)
    requires k <= |steps|
    ensures Named(steps, cast, k) <= IdSet(steps[..k])
  {
    forall j: nat | j < k ensures steps[j].stepId in IdSet(steps[..k]) {
      assert steps[..k][j] == steps[j];
    }
  }

  lemma OneMoreOutput(earlier: map<string, Value>, outputs: map<string, Value>, ids: set<string>, id: string)
    requires id !in earlier
    ensures id in outputs ==> Given(earlier, outputs, ids + {id}) == Given(earlier, outputs, ids)[id := outputs[id]]
  {
  }

  /** Outputs of other steps make no difference. */
  lemma SameGiven(earlier: map<string, Value>, outputs: map<string, Value>, ids: set<string>, id: string, output: Value)
    requires id !in ids
    ensures Given(earlier, outputs[id := output], ids) == Given(earlier, outputs, ids)
  {
    assert Only(outputs[id := output], ids) == Only(outputs, ids);
  }

  lemma FollowingOn<W>(stage: Stage<W>, cast: set<nat>, outputs: map<string, Value>, k: nat, front: seq<HandlerResult>,
      p: Progress<Counted<W>>, script: seq<HandlerResult>, next: Progress<Counted<W>>)
    requires stage.Set() && k < |stage.steps| && Following(stage, cast, outputs, k, front, p)
    requires !next.stopped && next.st.world.calls == stage.n + |script|
    requires var id := stage.steps[k].stepId;
             if k in cast
             then id in outputs && next.completed == p.completed[id := outputs[id]] && next.failed == p.failed
             else next.completed == p.completed && next.failed == p.failed + {id}
    ensures Following(stage, cast, outputs, k + 1, script, next)
  {
    var steps := stage.steps;
    NewName(steps, k);
    NamedNext(steps, cast, k);
    NamedAreEarlier(steps, cast, k);
    assert steps[k].stepId in IdSet(steps);
    OneMoreOutput(stage.earlier, outputs, Named(steps, cast, k), steps[k].stepId);
  }

  lemma Extended<W>(stage: Stage<W>, front: seq<HandlerResult>, outcome: HandlerResult, k: nat)
    requires k < |stage.steps|
    requires var p := stage.Upto(front, k); !p.stopped && p.st.world.calls <= stage.n + |front|
    ensures stage.Upto(front + [outcome], k + 1) ==
            RunStep(ScriptedEnv(stage.env, stage.n, front + [outcome]), stage.ctx, stage.steps[k], stage.Upto(front, k))
  {
    LongerScript(stage.env, stage.n, front, [outcome], stage.ctx, stage.steps[..k], Start(stage.st, stage.earlier));
    UptoNext(stage, front + [outcome], k);
  }

  lemma NoCallNeeded<W>(stage: Stage<W>, front: seq<HandlerResult>, outcome: HandlerResult, k: nat)
    requires k < |stage.steps|
    requires var p := stage.Upto(front, k);
             !p.stopped && p.st.world.calls == stage.n + |front|
             && stage.Upto(front + [outcome], k + 1).st.world.calls == stage.n + |front|
    ensures stage.Upto(front, k + 1) == stage.Upto(front + [outcome], k + 1)
  {
    Extended(stage, front, outcome, k);
    UptoNext(stage, front, k);
    NotNeededByStep(stage.env, stage.n, front, outcome, stage.ctx, stage.steps[k], stage.Upto(front, k));
  }

  /** The outcome of one more step, if it gets as far as its call. */
  lemma NextOutcome<W>(stage: Stage<W>, cast: set<nat>, outputs: map<string, Value>, k: nat, front: seq<HandlerResult>)
      returns (script: seq<HandlerResult>)
    requires stage.Set() && k < |stage.steps| && Following(stage, cast, outputs, k, front, stage.Upto(front, k))
    requires k in cast ==> CanSucceed(stage.env, stage.ctx.principal, stage.steps, stage.earlier, cast, outputs, k)
    ensures Following(stage, cast, outputs, k + 1, script, stage.Upto(script, k + 1))
  {
    var p := stage.Upto(front, k);
    if k in cast {
      var data, summary :| outputs[stage.steps[k].stepId] == OutputWith(data, summary);
      script := front + [Done(data, summary)];
      Extended(stage, front, Done(data, summary), k);
      NotBlockedWhileFollowing(stage, cast, outputs, k, front, p);
      StepSucceeds(stage, script, k, p, data, summary);
    } else {
      script := front + [HandlerError("")];
      Extended(stage, front, HandlerError(""), k);
      StepFails(stage, script, k, p);
      CallsCount(stage.env, stage.n, script, stage.ctx, stage.steps[k], p);
      if stage.Upto(script, k + 1).st.world.calls == stage.n + |front| {
        NoCallNeeded(stage, front, HandlerError(""), k);
        script := front;
      }
    }
    FollowingOn(stage, cast, outputs, k, front, p, script, stage.Upto(script, k + 1));
  }

  lemma {:induction false} FollowScript<W>(stage: Stage<W>, cast: set<nat>, outputs: map<string, Value>, k: nat)
      returns (script: seq<HandlerResult>)
    requires stage.Set() && k <= |stage.steps|
    requires forall j: nat | j < k && j in cast ::
               CanSucceed(stage.env, stage.ctx.principal, stage.steps, stage.earlier, cast, outputs, j)
    ensures Following(stage, cast, outputs, k, script, stage.Upto(script, k))
    decreases k
  {
    if k == 0 {
      script := [];
      assert stage.steps[..0] == [];
      assert Given(stage.earlier, outputs, Named(stage.steps, cast, 0)) == stage.earlier;
    } else {
      var front := FollowScript(stage, cast, outputs, k - 1);
      script := NextOutcome(stage, cast, outputs, k - 1, front);
    }
  }

  /** A reachable step is reached by some script, with just the outputs of the cast. */
  lemma ReachableIsReached<W>(stage: Stage<W>, cast: set<nat>, outputs: map<string, Value>, i: nat)
      returns (script: seq<HandlerResult>)
    requires stage.Set() && Reachable(stage.env, stage.ctx.principal, stage.steps, stage.earlier, cast, outputs, i)
    ensures var p := stage.Upto(script, i);
            && !p.stopped && !Blocked(stage.steps[i], p.failed)
            && p.completed == Given(stage.earlier, outputs, Named(stage.steps, cast, i))
  {
    script := FollowScript(stage, cast, outputs, i);
    NotBlockedWhileFollowing(stage, cast, outputs, i, script, stage.Upto(script, i));
  }

  // ------------------------------------------------------------------- every run has a cast

  /** The run of the first `k` steps. */
  ghost function Before<W>(env: Env<W>, ctx: Context, steps: seq<PlanStep>, k: nat, st: State<W>,
      earlier: map<string, Value>): Progress<W>
    requires k <= |steps|
  {
    Run(env, ctx, steps[..k], Start(st, earlier))
  }

  lemma BeforeNext<W>(env: Env<W>, ctx: Context, steps: seq<PlanStep>, k: nat, st: State<W>,
      earlier: map<string, Value>)
    requires k < |steps|
    ensures var p := Before(env, ctx, steps, k, st, earlier);
            Before(env, ctx, steps, k + 1, st, earlier) == if p.stopped then p else RunStep(env, ctx, steps[k], p)
  {
    assert steps[..k + 1] == steps[..k] + [steps[k]];
    RunSplit(env, ctx, steps[..k], [steps[k]], Start(st, earlier));
  }

  /** Of the first `k` steps, the cast are those that have not failed. */
  ghost predicate Unfailed(steps: seq<PlanStep>, k: nat, cast: set<nat>, failed: set<string>)
    requires k <= |steps|
  {
    failed <= IdSet(steps[..k]) && forall j: nat | j < k :: j in cast <==> steps[j].stepId !in failed
  }

  /** The steps of the cast are those of the first `k` that have not failed; each could succeed by the outputs of the
      cast before it. */
  ghost predicate HasCast<W>(env: Env<W>, principal: string, steps: seq<PlanStep>, earlier: map<string, Value>, k: nat,
      cast: set<nat>, p: Progress<W>)
    requires k <= |steps|
  {
    && Unfailed(steps, k, cast, p.failed)
    && p.completed == Given(earlier, p.completed, Named(steps, cast, k))
    && forall j: nat | j < k && j in cast :: CanSucceed(env, principal, steps, earlier, cast, p.completed, j)
  }

  lemma UnfailedNext(steps: seq<PlanStep>, k: nat, cast: set<nat>, failed: set<string>)
    requires UniqueSteps(steps) && k < |steps| && Unfailed(steps, k, cast, failed) && k !in cast
    ensures Unfailed(steps, k + 1, cast + {k}, failed)
    ensures Unfailed(steps, k + 1, cast, failed + {steps[k].stepId})
  {
    NewName(steps, k);
  }

  lemma StepOutcome<W>(env: Env<W>, ctx: Context, step: PlanStep, p: Progress<W>)
    ensures var next, r := RunStep(env, ctx, step, p), Resolved(step, p.completed);
            && (next.failed == p.failed || next.failed == p.failed + {step.stepId})
            && (!next.stopped && step.stepId !in next.failed ==>
                  && !Blocked(step, p.failed) && r.Ok? && step.tool in env.tools
                  && Check(env, ctx.principal, env.tools[step.tool], r.value).Ok?
                  && exists output :: IsOutput(output) && next.completed == p.completed[step.stepId := output])
            && (step.stepId in next.failed && step.stepId !in p.failed ==> next.completed == p.completed)
  {
    var r := Resolved(step, p.completed);
    if !Blocked(step, p.failed) && r.Ok? {
      var result := ResultOf(step, Invoke(env, ctx, p.st, step.tool, r.value).1);
      assert OutputOf(result) == OutputWith(result.data, result.summary);
      assert IsOutput(OutputOf(result));
    }
  }

  lemma EarlierNames(steps: seq<PlanStep>, cast: set<nat>, k: nat, j: nat)
    requires j <= k <= |steps|
    ensures Named(steps, cast + {k}, j) == Named(steps, cast, j)
    ensures j < |steps| ==> Named(steps, cast, j) <= Named(steps, cast, |steps|)
  {
  }

  /** What a step could do by the outputs of the cast, it can with one more output. */
  lemma StillCanSucceed<W>(env: Env<W>, principal: string, steps: seq<PlanStep>, earlier: map<string, Value>,
      cast: set<nat>, outputs: map<string, Value>, k: nat, output: Value, j: nat)
    requires UniqueSteps(steps) && j < k < |steps| && CanSucceed(env, principal, steps, earlier, cast, outputs, j)
    ensures CanSucceed(env, principal, steps, earlier, cast + {k}, outputs[steps[k].stepId := output], j)
  {
    EarlierNames(steps, cast, k, j);
    SameGiven(earlier, outputs, Named(steps, cast, j), steps[k].stepId, output);
  }

  lemma CastGrows<W>(env: Env<W>, principal: string, steps: seq<PlanStep>, earlier: map<string, Value>, k: nat,
      cast: set<nat>, p: Progress<W>, next: Progress<W>, output: Value)
    requires UniqueSteps(steps) && k < |steps| && HasCast(env, principal, steps, earlier, k, cast, p) && k !in cast
    requires steps[k].stepId !in earlier && steps[k].stepId !in p.failed && next.failed == p.failed
    requires !Blocked(steps[k], p.failed) && IsOutput(output) && next.completed ==
            p.completed[steps[k].stepId := output]
    requires var r := Resolved(steps[k], p.completed);
             r.Ok? && steps[k].tool in env.tools && Check(env, principal, env.tools[steps[k].tool], r.value).Ok?
    ensures HasCast(env, principal, steps, earlier, k + 1, cast + {k}, next)
  {
    UnfailedNext(steps, k, cast, p.failed);
    OutputsGrow(steps, earlier, k, cast, p.completed, next.completed, output);
    AllCanSucceed(env, principal, steps, earlier, k, cast, p.completed, p.failed, output);
  }

  lemma OutputsGrow(steps: seq<PlanStep>, earlier: map<string, Value>, k: nat, cast: set<nat>,
      completed: map<string, Value>, next: map<string, Value>, output: Value)
    requires UniqueSteps(steps) && k < |steps| && steps[k].stepId !in earlier && k !in cast
    requires completed == Given(earlier, completed, Named(steps, cast, k))
            && next == completed[steps[k].stepId := output]
    ensures next == Given(earlier, next, Named(steps, cast + {k}, k + 1))
  {
    var ids, id := Named(steps, cast, k), steps[k].stepId;
    NamedNext(steps, cast + {k}, k);
    EarlierNames(steps, cast, k, k);
    NamedAreEarlier(steps, cast, k);
    NewName(steps, k);
    OneMoreOutput(earlier, next, ids, id);
    SameGiven(earlier, completed, ids, id, output);
  }

  lemma AllCanSucceed<W>(env: Env<W>, principal: string, steps: seq<PlanStep>, earlier: map<string, Value>, k: nat,
      cast: set<nat>, completed: map<string, Value>, failed: set<string>, output: Value)
    requires UniqueSteps(steps) && k < |steps| && Unfailed(steps, k, cast, failed) && !Blocked(steps[k], failed)
    requires completed == Given(earlier, completed, Named(steps, cast, k)) && IsOutput(output)
    requires forall j: nat | j < k && j in cast :: CanSucceed(env, principal, steps, earlier, cast, completed, j)
    requires var r := Resolved(steps[k], completed);
             r.Ok? && steps[k].tool in env.tools && Check(env, principal, env.tools[steps[k].tool], r.value).Ok?
    ensures forall j: nat | j < k + 1 && j in cast + {k} ::
              CanSucceed(env, principal, steps, earlier, cast + {k}, completed[steps[k].stepId := output], j)
  {
    forall j: nat | j < k + 1 && j in cast + {k}
      ensures CanSucceed(env, principal, steps, earlier, cast + {k}, completed[steps[k].stepId := output], j)
    {
      if j < k {
        StillCanSucceed(env, principal, steps, earlier, cast, completed, k, output, j);
      } else {
        LastCanSucceed(env, principal, steps, earlier, k, cast, completed, failed, output);
      }
    }
  }

  lemma LastCanSucceed<W>(env: Env<W>, principal: string, steps: seq<PlanStep>, earlier: map<string, Value>, k: nat,
      cast: set<nat>, completed: map<string, Value>, failed: set<string>, output: Value)
    requires UniqueSteps(steps) && k < |steps| && Unfailed(steps, k, cast, failed) && !Blocked(steps[k], failed)
    requires completed == Given(earlier, completed, Named(steps, cast, k)) && IsOutput(output)
    requires var r := Resolved(steps[k], completed);
             r.Ok? && steps[k].tool in env.tools && Check(env, principal, env.tools[steps[k].tool], r.value).Ok?
    ensures CanSucceed(env, principal, steps, earlier, cast + {k}, completed[steps[k].stepId := output], k)
  {
    EarlierNames(steps, cast, k, k);
    NamedAreEarlier(steps, cast, k);
    NewName(steps, k);
    SameGiven(earlier, completed, Named(steps, cast, k), steps[k].stepId, output);
    UnblockedWaits(steps, k, cast, failed);
  }

  lemma UnblockedWaits(steps: seq<PlanStep>, k: nat, cast: set<nat>, failed: set<string>)
    requires k < |steps| && Unfailed(steps, k, cast, failed) && !Blocked(steps[k], failed)
    ensures WaitsForCast(steps, cast, k) && WaitsForCast(steps, cast + {k}, k)
  {
  }

  lemma CastStays<W>(env: Env<W>, principal: string, steps: seq<PlanStep>, earlier: map<string, Value>, k: nat,
      cast: set<nat>, p: Progress<W>, next: Progress<W>)
    requires UniqueSteps(steps) && k < |steps| && HasCast(env, principal, steps, earlier, k, cast, p) && k !in cast
    requires next.failed == p.failed + {steps[k].stepId} && next.completed == p.completed
    ensures HasCast(env, principal, steps, earlier, k + 1, cast, next)
  {
    UnfailedNext(steps, k, cast, p.failed);
    NamedNext(steps, cast, k);
    AllStill(env, principal, steps, earlier, k, cast, p.completed);
  }

  lemma AllStill<W>(env: Env<W>, principal: string, steps: seq<PlanStep>, earlier: map<string, Value>, k: nat,
      cast: set<nat>, completed: map<string, Value>)
    requires k < |steps| && k !in cast
    requires forall j: nat | j < k && j in cast :: CanSucceed(env, principal, steps, earlier, cast, completed, j)
    ensures forall j: nat | j < k + 1 && j in cast :: CanSucceed(env, principal, steps, earlier, cast, completed, j)
  {
  }

  /** A run that has not stopped has a cast. */
  lemma {:induction false} RunHasCast<W>(env: Env<W>, ctx: Context, steps: seq<PlanStep>, k: nat, st: State<W>,
      earlier: map<string, Value>) returns (cast: set<nat>)
    requires UniqueSteps(steps) && IdSet(steps) !! earlier.Keys && k <= |steps|
    requires !Before(env, ctx, steps, k, st, earlier).stopped
    ensures HasCast(env, ctx.principal, steps, earlier, k, cast, Before(env, ctx, steps, k, st, earlier))
    ensures forall j | j in cast :: j < k
    decreases k
  {
    if k == 0 {
      cast := {};
      assert steps[..0] == [];
      assert Given(earlier, earlier, Named(steps, cast, 0)) == earlier;
    } else {
      BeforeNext(env, ctx, steps, k - 1, st, earlier);
      var front := RunHasCast(env, ctx, steps, k - 1, st, earlier);
      cast := NextCast(env, ctx, steps, k - 1, earlier, front, Before(env, ctx, steps, k - 1, st, earlier));
    }
  }

  lemma NextCast<W>(env: Env<W>, ctx: Context, steps: seq<PlanStep>, k: nat, earlier: map<string, Value>,
      front: set<nat>, p: Progress<W>) returns (cast: set<nat>)
    requires UniqueSteps(steps) && IdSet(steps) !! earlier.Keys && k < |steps|
    requires HasCast(env, ctx.principal, steps, earlier, k, front, p) && forall j | j in front :: j < k
    requires !RunStep(env, ctx, steps[k], p).stopped
    ensures HasCast(env, ctx.principal, steps, earlier, k + 1, cast, RunStep(env, ctx, steps[k], p))
    ensures forall j | j in cast :: j < k + 1
  {
    var next := RunStep(env, ctx, steps[k], p);
    NewName(steps, k);
    assert steps[k].stepId in IdSet(steps);
    StepOutcome(env, ctx, steps[k], p);
    if steps[k].stepId in next.failed {
      CastStays(env, ctx.principal, steps, earlier, k, front, p, next);
      cast := front;
    } else {
      var output :| IsOutput(output) && next.completed == p.completed[steps[k].stepId := output];
      CastGrows(env, ctx.principal, steps, earlier, k, front, p, next, output);
      cast := front + {k};
    }
  }
}
