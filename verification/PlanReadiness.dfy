/** When a plan may read from a step that has not run (apps/api/app/agents/contracts.py checks the dependencies of a
    plan, apps/api/app/agents/master.py runs it): the exact condition on the plan and the schemas of its tools. */
module PlanReadiness {
  import opened Values
  import opened Contracts
  import opened Spec
  import opened Bindings
  import opened Gateway
  import opened Master
  import opened ScriptedTools

  /** The argument schemas of the available tools, by name. */
  type Schemas = map<string, seq<ParameterSpec>>

  // ------------------------------------------------------------------- the condition

  /** Step `i` waits for the earlier step `j`, directly or through other steps. */
  ghost predicate Awaits(steps: seq<PlanStep>, i: nat, j: nat)
    requires i < |steps|
    decreases i
  {
    exists k: nat :: k < i && steps[k].stepId in steps[i].dependsOn && (k == j || Awaits(steps, k, j))
  }

  /** The names of the steps before `n` that step `i` waits for. */
  ghost function AwaitedBefore(steps: seq<PlanStep>, i: nat, n: nat): set<string>
    requires i < |steps| && n <= |steps|
  {
    set j: nat | j < n && Awaits(steps, i, j) :: steps[j].stepId
  }

  ghost function Awaited(steps: seq<PlanStep>, i: nat): set<string>
    requires i < |steps|
  {
    AwaitedBefore(steps, i, i)
  }

  /** Given these outputs, step `i` has one of them and can have it with nothing but the earlier ones and those of the
      steps it waits for. */
  ghost predicate SucceedsAlone(schemas: Schemas, py: Python, steps: seq<PlanStep>, earlier: map<string, Value>, i: nat,
      outputs: map<string, Value>)
    requires i < |steps|
  {
    var step, r := steps[i], Resolved(steps[i], Given(earlier, outputs, Awaited(steps, i)));
    && step.stepId in outputs && IsOutput(outputs[step.stepId])
    && r.Ok? && step.tool in schemas && Validate(py, schemas[step.tool], r.value).Ok?
  }

  /** With nothing but the earlier outputs and those of the steps it waits for, step `i` meets an unknown step. */
  ghost predicate ReadsUnknown(steps: seq<PlanStep>, earlier: map<string, Value>, outputs: map<string, Value>, i: nat)
    requires i < |steps|
  {
    Unknown(Resolved(steps[i], Given(earlier, outputs, Awaited(steps, i))))
  }

  /** Step `i` reads from a step that it does not wait for and that has no earlier output, although all the steps it
      waits for can have succeeded. */
  ghost predicate Exposed(schemas: Schemas, py: Python, steps: seq<PlanStep>, earlier: map<string, Value>, i: nat,
      outputs: map<string, Value>)
  {
    && i < |steps|
    && (forall j: nat | j < i && Awaits(steps, i, j) :: SucceedsAlone(schemas, py, steps, earlier, j, outputs))
    && ReadsUnknown(steps, earlier, outputs, i)
  }

  ghost predicate Fits<W>(env: Env<W>, schemas: Schemas, py: Python) {
    && env.py == py && env.tools.Keys == schemas.Keys
    && forall tool | tool in schemas :: env.tools[tool].params == schemas[tool]
  }

  // ------------------------------------------------------------------- running into an unknown step

  /** Running `step` now would fail for want of an earlier step's output. */
  predicate HitsUnknown<W>(step: PlanStep, p: Progress<W>) {
    !Blocked(step, p.failed) && Unknown(Resolved(step, p.completed))
  }

  /** No step of the run meets an unknown or incomplete step. */
  ghost predicate NeverUnknown<W>(env: Env<W>, ctx: Context, steps: seq<PlanStep>, p: Progress<W>)
    decreases |steps|
  {
    steps == [] || p.stopped
    || (!HitsUnknown(steps[0], p) && NeverUnknown(env, ctx, steps[1..], RunStep(env, ctx, steps[0], p)))
  }

  // ------------------------------------------------------------------- waiting

  lemma AwaitsDirectly(steps: seq<PlanStep>, i: nat, j: nat)
    requires j < i < |steps| && steps[j].stepId in steps[i].dependsOn
    ensures Awaits(steps, i, j)
  {
  }

  lemma {:induction false} AwaitsEarlier(steps: seq<PlanStep>, i: nat, j: nat)
    requires i < |steps| && Awaits(steps, i, j)
    ensures j < i
    decreases i
  {
    var k: nat :| k < i && steps[k].stepId in steps[i].dependsOn && (k == j || Awaits(steps, k, j));
    if k != j {
      AwaitsEarlier(steps, k, j);
    }
  }

  lemma {:induction false} AwaitsThrough(steps: seq<PlanStep>, i: nat, j: nat, k: nat)
    requires i < |steps| && j < |steps| && Awaits(steps, i, j) && Awaits(steps, j, k)
    ensures Awaits(steps, i, k)
    decreases i
  {
    var m: nat :| m < i && steps[m].stepId in steps[i].dependsOn && (m == j || Awaits(steps, m, j));
    if m != j {
      AwaitsThrough(steps, m, j, k);
    }
  }

  /** What a step waits for, the steps waiting for it wait for too. */
  lemma AwaitedGrows(steps: seq<PlanStep>, i: nat, j: nat)
    requires j < i < |steps| && Awaits(steps, i, j)
    ensures Awaited(steps, j) <= AwaitedBefore(steps, i, j)
  {
    forall k: nat | k < j && Awaits(steps, j, k) ensures Awaits(steps, i, k) {
      AwaitsThrough(steps, i, j, k);
    }
  }

  // ------------------------------------------------------------------- runs that read too early

  ghost predicate HitAt<W>(env: Env<W>, ctx: Context, steps: seq<PlanStep>, k: nat, st: State<W>,
      earlier: map<string, Value>)
    requires k < |steps|
  {
    var p := Before(env, ctx, steps, k, st, earlier);
    !p.stopped && HitsUnknown(steps[k], p)
  }

  /** A run is free of unknown steps exactly when none of its steps meets one. */
  lemma {:induction false} NeverUnknownFrom<W>(env: Env<W>, ctx: Context, steps: seq<PlanStep>, k: nat, st: State<W>,
      earlier: map<string, Value>)
    requires k <= |steps|
    ensures NeverUnknown(env, ctx, steps[k..], Before(env, ctx, steps, k, st, earlier)) <==>
            forall i: nat | k <= i < |steps| :: !HitAt(env, ctx, steps, i, st, earlier)
    decreases |steps| - k
  {
    if k < |steps| {
      NeverUnknownFrom(env, ctx, steps, k + 1, st, earlier);
      BeforeNext(env, ctx, steps, k, st, earlier);
      assert steps[k..][0] == steps[k] && steps[k..][1..] == steps[k + 1..];
      if Before(env, ctx, steps, k, st, earlier).stopped {
        StaysStopped(env, ctx, steps, k, st, earlier);
      } else {
        OrLater(env, ctx, steps, k, st, earlier);
      }
    }
  }

  lemma OrLater<W>(env: Env<W>, ctx: Context, steps: seq<PlanStep>, k: nat, st: State<W>,
      earlier: map<string, Value>)
    requires k < |steps|
    ensures (forall i: nat | k <= i < |steps| :: !HitAt(env, ctx, steps, i, st, earlier)) <==>
            !HitAt(env, ctx, steps, k, st, earlier) && forall i: nat | k + 1 <= i < |steps| ::
                !HitAt(env, ctx, steps, i, st, earlier)
  {
  }

  lemma {:induction false} StaysStopped<W>(env: Env<W>, ctx: Context, steps: seq<PlanStep>, k: nat, st: State<W>,
      earlier: map<string, Value>)
    requires k <= |steps| && Before(env, ctx, steps, k, st, earlier).stopped
    ensures forall i: nat | k <= i < |steps| :: !HitAt(env, ctx, steps, i, st, earlier)
    decreases |steps| - k
  {
    if k < |steps| {
      BeforeNext(env, ctx, steps, k, st, earlier);
      StaysStopped(env, ctx, steps, k + 1, st, earlier);
    }
  }

  lemma NeverUnknownMeans<W>(env: Env<W>, ctx: Context, steps: seq<PlanStep>, st: State<W>,
      earlier: map<string, Value>)
    ensures NeverUnknown(env, ctx, steps, Start(st, earlier)) <==> forall i: nat | i < |steps| ::
            !HitAt(env, ctx, steps, i, st, earlier)
  {
    NeverUnknownFrom(env, ctx, steps, 0, st, earlier);
    assert steps[0..] == steps && steps[..0] == [];
  }

  // ------------------------------------------------------------------- a run that hits an unknown step

  lemma GivenIsWithin(earlier: map<string, Value>, outputs: map<string, Value>, few: set<string>, many: set<string>)
    requires few <= many
    ensures Within(Given(earlier, outputs, few), Given(earlier, outputs, many))
  {
  }

  /** In a cast, all that a step of it waits for is in the cast. */
  lemma {:induction false} AwaitedAreCast(steps: seq<PlanStep>, cast: set<nat>, i: nat, j: nat)
    requires i < |steps| && Awaits(steps, i, j) && WaitsForCast(steps, cast, i)
    requires forall k: nat | k < i && k in cast :: WaitsForCast(steps, cast, k)
    ensures j in cast
    decreases i
  {
    var k: nat :| k < i && steps[k].stepId in steps[i].dependsOn && (k == j || Awaits(steps, k, j));
    if k != j {
      AwaitedAreCast(steps, cast, k, j);
    }
  }

  /** The outputs a step waits for are among those of the cast before it. */
  lemma AwaitedAreNamed(steps: seq<PlanStep>, cast: set<nat>, i: nat)
    requires i < |steps| && forall j: nat | j < i && Awaits(steps, i, j) :: j in cast
    ensures Awaited(steps, i) <= Named(steps, cast, i)
  {
  }

  lemma SchemaAccepts<W>(env: Env<W>, schemas: Schemas, py: Python, principal: string, tool: string, arguments: Args)
    requires Fits(env, schemas, py) && tool in env.tools && Check(env, principal, env.tools[tool], arguments).Ok?
    ensures tool in schemas && Validate(py, schemas[tool], arguments).Ok?
  {
  }

  /** The steps that a step of a run waits for. */
  ghost predicate AwaitedSucceed<W>(env: Env<W>, principal: string, steps: seq<PlanStep>, earlier: map<string, Value>,
      cast: set<nat>, outputs: map<string, Value>, i: nat)
  {
    && i < |steps| && Reachable(env, principal, steps, earlier, cast, outputs, i)
    && ReadsUnknown(steps, earlier, outputs, i)
  }

  lemma ReachableEarlier<W>(env: Env<W>, principal: string, steps: seq<PlanStep>, earlier: map<string, Value>,
      cast: set<nat>, outputs: map<string, Value>, i: nat, j: nat)
    requires Reachable(env, principal, steps, earlier, cast, outputs, i) && j < i && Awaits(steps, i, j)
    ensures j in cast && Reachable(env, principal, steps, earlier, cast, outputs, j)
  {
    AwaitedAreCast(steps, cast, i, j);
    assert CanSucceed(env, principal, steps, earlier, cast, outputs, j);
  }

  /** A step that does not miss an output of its own steps succeeds alone. */
  lemma AloneIfKnown<W>(env: Env<W>, schemas: Schemas, py: Python, principal: string, steps: seq<PlanStep>,
      earlier: map<string, Value>, cast: set<nat>, outputs: map<string, Value>, j: nat)
    requires Fits(env, schemas, py) && j in cast && Reachable(env, principal, steps, earlier, cast, outputs, j)
    requires CanSucceed(env, principal, steps, earlier, cast, outputs, j)
    requires !ReadsUnknown(steps, earlier, outputs, j)
    ensures SucceedsAlone(schemas, py, steps, earlier, j, outputs)
  {
    forall k: nat | k < j && Awaits(steps, j, k) ensures k in cast {
      ReachableEarlier(env, principal, steps, earlier, cast, outputs, j, k);
    }
    var few, many := Awaited(steps, j), Named(steps, cast, j);
    AwaitedAreNamed(steps, cast, j);
    GivenIsWithin(earlier, outputs, few, many);
    FewerOutputs(steps[j].arguments, steps[j].bindings, Given(earlier, outputs, few), Given(earlier, outputs, many));
    var r := Resolved(steps[j], Given(earlier, outputs, many));
    SchemaAccepts(env, schemas, py, principal, steps[j].tool, r.value);
  }

  /** Among a step that reads too early and those it waits for, the first that does is exposed. */
  lemma {:induction false} FirstIsExposed<W>(env: Env<W>, schemas: Schemas, py: Python, principal: string,
      steps: seq<PlanStep>, earlier: map<string, Value>, cast: set<nat>, outputs: map<string, Value>, i: nat)
      returns (first: nat)
    requires Fits(env, schemas, py) && AwaitedSucceed(env, principal, steps, earlier, cast, outputs, i)
    ensures Exposed(schemas, py, steps, earlier, first, outputs)
    decreases i
  {
    if j: nat :| j < i && Awaits(steps, i, j) && ReadsUnknown(steps, earlier, outputs, j) {
      ReachableEarlier(env, principal, steps, earlier, cast, outputs, i, j);
      first := FirstIsExposed(env, schemas, py, principal, steps, earlier, cast, outputs, j);
    } else {
      first := i;
      forall j: nat | j < i && Awaits(steps, i, j) ensures SucceedsAlone(schemas, py, steps, earlier, j, outputs) {
        ReachableEarlier(env, principal, steps, earlier, cast, outputs, i, j);
        AloneIfKnown(env, schemas, py, principal, steps, earlier, cast, outputs, j);
      }
    }
  }

  /** A run that meets an unknown step exposes one. */
  lemma HitIsExposed<W>(env: Env<W>, ctx: Context, schemas: Schemas, py: Python, steps: seq<PlanStep>, k: nat,
      st: State<W>, earlier: map<string, Value>) returns (i: nat, outputs: map<string, Value>)
    requires UniqueSteps(steps) && IdSet(steps) !! earlier.Keys && Fits(env, schemas, py)
    requires k < |steps| && HitAt(env, ctx, steps, k, st, earlier)
    ensures Exposed(schemas, py, steps, earlier, i, outputs)
  {
    var p := Before(env, ctx, steps, k, st, earlier);
    outputs := p.completed;
    var cast := RunHasCast(env, ctx, steps, k, st, earlier);
    UnblockedWaits(steps, k, cast, p.failed);
    forall j: nat | j < k && Awaits(steps, k, j) ensures j in cast {
      ReachableEarlier(env, ctx.principal, steps, earlier, cast, outputs, k, j);
    }
    AwaitedAreNamed(steps, cast, k);
    GivenIsWithin(earlier, outputs, Awaited(steps, k), Named(steps, cast, k));
    FewerOutputs(steps[k].arguments, steps[k].bindings, Given(earlier, outputs, Awaited(steps, k)), outputs);
    i := FirstIsExposed(env, schemas, py, ctx.principal, steps, earlier, cast, outputs, k);
  }

  // ------------------------------------------------------------------- an environment that hits an unknown step

  /** Tools with these schemas that permit everything. */
  function Permissive(schemas: Schemas, py: Python): Env<nat> {
    Env(map tool | tool in schemas ::
          Tool(tool, schemas[tool], Risk.Read, _ => true, None, (w, principal, arguments) => (w, HandlerCrash)), 0, py)
  }

  const NOBODY := Context("", None, 0)
  const UNTOUCHED: State<Counted<nat>> := State(Counted(0, 0), map[], 0, [], [])

  function OpenStage(schemas: Schemas, py: Python, steps: seq<PlanStep>, earlier: map<string, Value>): Stage<nat> {
    Stage(Permissive(schemas, py), 0, NOBODY, steps, UNTOUCHED, earlier)
  }

  ghost function AwaitedSteps(steps: seq<PlanStep>, m: nat): set<nat>
    requires m < |steps|
  {
    set j: nat | j < m && Awaits(steps, m, j)
  }

  lemma NamedAwaited(steps: seq<PlanStep>, m: nat, n: nat)
    requires n <= m < |steps|
    ensures Named(steps, AwaitedSteps(steps, m), n) == AwaitedBefore(steps, m, n)
  {
  }

  /** What a step that an exposed one waits for can do with its own steps, it can with those of the exposed one. */
  lemma AwaitedCanSucceed(schemas: Schemas, py: Python, steps: seq<PlanStep>, earlier: map<string, Value>, m: nat,
      outputs: map<string, Value>, j: nat)
    requires m < |steps| && j < m && Awaits(steps, m, j) && SucceedsAlone(schemas, py, steps, earlier, j, outputs)
    ensures CanSucceed(Permissive(schemas, py), "", steps, earlier, AwaitedSteps(steps, m), outputs, j)
  {
    var cast := AwaitedSteps(steps, m);
    NamedAwaited(steps, m, j);
    AwaitedGrows(steps, m, j);
    GivenIsWithin(earlier, outputs, Awaited(steps, j), Named(steps, cast, j));
    FewerOutputs(steps[j].arguments, steps[j].bindings, Given(earlier, outputs, Awaited(steps, j)),
        Given(earlier, outputs, Named(steps, cast, j)));
    AwaitsAreIn(steps, m, j);
  }

  lemma AwaitsAreIn(steps: seq<PlanStep>, m: nat, j: nat)
    requires j <= m < |steps| && (j == m || Awaits(steps, m, j))
    ensures WaitsForCast(steps, AwaitedSteps(steps, m), j)
  {
    forall k: nat | k < j && steps[k].stepId in steps[j].dependsOn ensures Awaits(steps, m, k) {
      AwaitsDirectly(steps, j, k);
      if j != m {
        AwaitsThrough(steps, m, j, k);
      }
    }
  }

  /** An exposed step is met by some run as an unknown step. */
  lemma ExposedIsHit(schemas: Schemas, py: Python, steps: seq<PlanStep>, earlier: map<string, Value>, m: nat,
      outputs: map<string, Value>) returns (env: Env<Counted<nat>>)
    requires UniqueSteps(steps) && IdSet(steps) !! earlier.Keys && Exposed(schemas, py, steps, earlier, m, outputs)
    ensures Fits(env, schemas, py) && HitAt(env, NOBODY, steps, m, UNTOUCHED, earlier)
  {
    var stage, cast := OpenStage(schemas, py, steps, earlier), AwaitedSteps(steps, m);
    forall j: nat | j < m && j in cast
      ensures CanSucceed(stage.env, stage.ctx.principal, steps, earlier, cast, outputs, j)
    {
      AwaitedCanSucceed(schemas, py, steps, earlier, m, outputs, j);
    }
    AwaitsAreIn(steps, m, m);
    NamedAwaited(steps, m, m);
    var script := ReachableIsReached(stage, cast, outputs, m);
    env := ScriptedEnv(stage.env, 0, script);
  }

  // ------------------------------------------------------------------- the theorem

  /** Whatever the tools with these schemas do, no step of the plan runs without the outputs it reads, when the run
      starts with the outputs of earlier steps. */
  ghost predicate AlwaysReady(schemas: Schemas, py: Python, steps: seq<PlanStep>, earlier: map<string, Value>) {
    forall env: Env<Counted<nat>>, ctx, st: State<Counted<nat>> | Fits(env, schemas, py) ::
        NeverUnknown(env, ctx, steps, Start(st, earlier))
  }

  /** A plan is always ready exactly when no step of it is exposed. */
  lemma ReadyExactlyWhen(schemas: Schemas, py: Python, steps: seq<PlanStep>, earlier: map<string, Value>)
    requires UniqueSteps(steps) && IdSet(steps) !! earlier.Keys
    ensures AlwaysReady(schemas, py, steps, earlier) <==>
            forall i: nat, outputs :: !Exposed(schemas, py, steps, earlier, i, outputs)
  {
    forall env: Env<Counted<nat>>, ctx, st: State<Counted<nat>> | Fits(env, schemas, py)
        && !NeverUnknown(env, ctx, steps, Start(st, earlier))
      ensures exists i: nat, outputs :: Exposed(schemas, py, steps, earlier, i, outputs)
    {
      NeverUnknownMeans(env, ctx, steps, st, earlier);
      var k: nat :| k < |steps| && HitAt(env, ctx, steps, k, st, earlier);
      var i, outputs := HitIsExposed(env, ctx, schemas, py, steps, k, st, earlier);
    }
    forall i: nat, outputs | Exposed(schemas, py, steps, earlier, i, outputs)
      ensures !AlwaysReady(schemas, py, steps, earlier)
    {
      var env := ExposedIsHit(schemas, py, steps, earlier, i, outputs);
      NeverUnknownMeans(env, NOBODY, steps, UNTOUCHED, earlier);
    }
  }

  /** Whatever the records are, a run meets an unknown step only in a plan with an exposed step. */
  lemma UnexposedPlansNeverHitUnknown<W>(env: Env<W>, ctx: Context, schemas: Schemas, steps: seq<PlanStep>,
      st: State<W>, earlier: map<string, Value>)
    requires UniqueSteps(steps) && IdSet(steps) !! earlier.Keys && Fits(env, schemas, env.py)
    requires forall i: nat, outputs :: !Exposed(schemas, env.py, steps, earlier, i, outputs)
    ensures NeverUnknown(env, ctx, steps, Start(st, earlier))
  {
    NeverUnknownMeans(env, ctx, steps, st, earlier);
    if k: nat :| k < |steps| && HitAt(env, ctx, steps, k, st, earlier) {
      var i, outputs := HitIsExposed(env, ctx, schemas, env.py, steps, k, st, earlier);
      assert false;
    }
  }

  // ------------------------------------------------------------------- covered plans

  predicate RefersToStep(reference: string, id: string) {
    ParseReference(reference).Some? && ParseReference(reference).value.step == id
  }

  /** The reference is to a step that has run before, or that step `i` waits for. */
  ghost predicate CoveredBinding(steps: seq<PlanStep>, ran: set<string>, i: nat, reference: string)
    requires i < |steps|
  {
    || (ParseReference(reference).Some? && ParseReference(reference).value.step in ran)
    || exists j: nat :: j < i && Awaits(steps, i, j) && RefersToStep(reference, steps[j].stepId)
  }

  /** Every step reads only from steps that have run before, and steps it waits for, directly or through others. */
  ghost predicate Covered(steps: seq<PlanStep>, ran: set<string>) {
    forall i: nat, b: nat | i < |steps| && b < |steps[i].bindings| ::
        CoveredBinding(steps, ran, i, steps[i].bindings[b].1)
  }

  lemma CoveredIsNotExposed(schemas: Schemas, py: Python, steps: seq<PlanStep>, earlier: map<string, Value>, i: nat,
      outputs: map<string, Value>)
    requires Covered(steps, earlier.Keys)
    ensures !Exposed(schemas, py, steps, earlier, i, outputs)
  {
    if Exposed(schemas, py, steps, earlier, i, outputs) {
      var available := Given(earlier, outputs, Awaited(steps, i));
      forall b: nat | b < |steps[i].bindings|
        ensures ParseReference(steps[i].bindings[b].1).Some?
                && ParseReference(steps[i].bindings[b].1).value.step in available
      {
        assert CoveredBinding(steps, earlier.Keys, i, steps[i].bindings[b].1);
        if j: nat :| j < i && Awaits(steps, i, j) && RefersToStep(steps[i].bindings[b].1, steps[j].stepId) {
          assert SucceedsAlone(schemas, py, steps, earlier, j, outputs);
        }
      }
      UnknownStepIsMissing(steps[i].arguments, steps[i].bindings, available);
    }
  }

  /** A covered plan never runs a step without the outputs it reads, over any records and whatever its steps are
      called. */
  lemma CoveredPlansNeverHitUnknown<W>(env: Env<W>, ctx: Context, steps: seq<PlanStep>, st: State<W>,
      earlier: map<string, Value>)
    requires UniqueSteps(steps) && IdSet(steps) !! earlier.Keys && Covered(steps, earlier.Keys)
    ensures NeverUnknown(env, ctx, steps, Start(st, earlier))
  {
    var schemas := map tool | tool in env.tools :: env.tools[tool].params;
    forall i: nat, outputs ensures !Exposed(schemas, env.py, steps, earlier, i, outputs) {
      CoveredIsNotExposed(schemas, env.py, steps, earlier, i, outputs);
    }
    UnexposedPlansNeverHitUnknown(env, ctx, schemas, steps, st, earlier);
  }

  /** A path that some result of any step allows: into its data, by keys and whole lists. */
  predicate PlainPath(path: seq<Segment>) {
    path == [] || (path[0] == Key("data") && forall i | 1 <= i < |path| :: !path[i].At?)
  }

  predicate PlainReference(reference: string) {
    ParseReference(reference).Some? && PlainPath(ParseReference(reference).value.path)
  }

  /** References are plain, or can be read from the earlier outputs, and the steps that others wait for need no outputs
      to make an acceptable call. */
  ghost predicate Simple(schemas: Schemas, py: Python, steps: seq<PlanStep>, earlier: map<string, Value>) {
    && (forall i: nat, b: nat | i < |steps| && b < |steps[i].bindings| ::
          SimpleReference(steps[i].bindings[b].1, earlier))
    && forall i: nat, j: nat | j < i < |steps| && Awaits(steps, i, j) ::
         steps[j].bindings == [] && steps[j].tool in schemas && Validate(py, schemas[steps[j].tool],
             steps[j].arguments).Ok?
  }

  predicate SimpleReference(reference: string, earlier: map<string, Value>) {
    && ParseReference(reference).Some?
    && if ParseReference(reference).value.step in earlier then Resolve(reference, earlier).Ok?
        else PlainReference(reference)
  }

  lemma {:induction false} KeysOfNothing(path: seq<Segment>)
    requires forall i | 0 <= i < |path| :: !path[i].At?
    ensures Walk(List([]), path).Ok?
    decreases |path|
  {
    if path != [] {
      var next := Move(List([]), path[0]);
      assert next.value.items == [];
      KeysOfNothing(path[1..]);
    }
  }

  lemma PlainIsReadable(path: seq<Segment>)
    requires PlainPath(path)
    ensures Walk(OutputWith(List([]), ""), path).Ok?
  {
    if path != [] {
      assert Move(OutputWith(List([]), ""), path[0]) == Ok(List([]));
      KeysOfNothing(path[1..]);
    }
  }

  /** Outputs that simple references can be read from. */
  ghost predicate Readable(earlier: map<string, Value>, outputs: map<string, Value>) {
    && (forall s | s in earlier :: s in outputs && outputs[s] == earlier[s])
    && forall s | s in outputs && s !in earlier :: outputs[s] == OutputWith(List([]), "")
  }

  lemma {:induction false} FirstMissing(arguments: Args, bindings: seq<(string, string)>, earlier: map<string, Value>,
      outputs: map<string, Value>, b: nat)
    requires forall c: nat | c < |bindings| :: SimpleReference(bindings[c].1, earlier)
    requires Readable(earlier, outputs)
    requires b < |bindings| && SimpleReference(bindings[b].1, earlier)
    requires ParseReference(bindings[b].1).value.step !in outputs
    ensures Unknown(ResolveAll(arguments, bindings, outputs))
    decreases b
  {
    var step := ParseReference(bindings[0].1).value.step;
    if step in outputs {
      SimpleResolves(bindings[0].1, earlier, outputs);
      var value := Resolve(bindings[0].1, outputs).value;
      assert b > 0 && bindings[1..][b - 1] == bindings[b];
      FirstMissing(arguments[bindings[0].0 := Cleaned(value)], bindings[1..], earlier, outputs, b - 1);
    }
  }

  lemma SimpleResolves(reference: string, earlier: map<string, Value>, outputs: map<string, Value>)
    requires SimpleReference(reference, earlier) && Readable(earlier, outputs)
    requires ParseReference(reference).value.step in outputs
    ensures Resolve(reference, outputs).Ok?
  {
    if ParseReference(reference).value.step !in earlier {
      PlainIsReadable(ParseReference(reference).value.path);
    }
  }

  lemma UncoveredIsExposed(schemas: Schemas, py: Python, steps: seq<PlanStep>, earlier: map<string, Value>, i: nat,
      b: nat) returns (outputs: map<string, Value>)
    requires UniqueSteps(steps) && IdSet(steps) !! earlier.Keys && Simple(schemas, py, steps, earlier)
    requires i < |steps| && b < |steps[i].bindings|
    requires !CoveredBinding(steps, earlier.Keys, i, steps[i].bindings[b].1)
    ensures Exposed(schemas, py, steps, earlier, i, outputs)
  {
    outputs := map id | id in IdSet(steps) :: OutputWith(List([]), "");
    forall j: nat | j < i && Awaits(steps, i, j) ensures SucceedsAlone(schemas, py, steps, earlier, j, outputs) {
      assert steps[j].stepId in IdSet(steps);
    }
    AwaitedAreIds(steps, i);
    var id := ParseReference(steps[i].bindings[b].1).value.step;
    assert id !in Awaited(steps, i);
    FirstMissing(steps[i].arguments, steps[i].bindings, earlier, Given(earlier, outputs, Awaited(steps, i)), b);
  }

  lemma AwaitedAreIds(steps: seq<PlanStep>, i: nat)
    requires i < |steps|
    ensures Awaited(steps, i) <= IdSet(steps)
  {
  }

  /** For simple plans the condition is the plain one: always ready exactly when every step waits for what it reads, or
      reads what has run before. */
  lemma SimplePlansReadyExactlyWhen(schemas: Schemas, py: Python, steps: seq<PlanStep>, earlier: map<string, Value>)
    requires UniqueSteps(steps) && IdSet(steps) !! earlier.Keys && Simple(schemas, py, steps, earlier)
    ensures AlwaysReady(schemas, py, steps, earlier) <==> Covered(steps, earlier.Keys)
  {
    ReadyExactlyWhen(schemas, py, steps, earlier);
    if Covered(steps, earlier.Keys) {
      forall i: nat, outputs ensures !Exposed(schemas, py, steps, earlier, i, outputs) {
        CoveredIsNotExposed(schemas, py, steps, earlier, i, outputs);
      }
    } else {
      var i: nat, b: nat :| i < |steps| && b < |steps[i].bindings|
          && !CoveredBinding(steps, earlier.Keys, i, steps[i].bindings[b].1);
      var outputs := UncoveredIsExposed(schemas, py, steps, earlier, i, b);
    }
  }
}
