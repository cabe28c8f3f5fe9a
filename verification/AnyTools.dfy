/** Whether resuming keeps the meaning of a plan whatever its tools do: the exact condition at the stop
    (apps/api/app/agents/master.py, `_resume`). */
module AnyTools {
  import opened Values
  import opened Contracts
  import opened Spec
  import opened Gateway
  import opened Master
  import opened Resumption
  import opened ScriptedTools
  import opened ResumedReadiness

  // ------------------------------------------------------------------- the same story with other tools

  ghost predicate ChecksAlike<W, V>(env: Env<W>, other: Env<V>) {
    && env.py == other.py && env.tools.Keys == other.tools.Keys
    && forall tool | tool in env.tools ::
         var one, two := env.tools[tool], other.tools[tool];
         one.name == two.name && one.params == two.params && one.risk == two.risk && one.permits == two.permits
         && one.validator == two.validator
  }

  /** Another story, with tools that check alike, that is the same up to the stop. */
  ghost predicate AlikeUpToTheStop<W, V>(s: Story<W>, other: Story<V>)
    requires s.Asked() && s.Granted()
  {
    && other.steps == s.steps && ChecksAlike(s.env, other.env) && other.ctx.principal == s.ctx.principal
    && other.Asked() && other.Granted()
    && other.First().results == s.First().results && other.First().failed == s.First().failed
  }

  ghost function Made<W>(s: Story<W>): nat {
    RunCallsGrow(s.env, s.ctx, s.steps, Start(s.st, map[]));
    |s.First().st.calls| - |s.st.calls|
  }

  /** The story in which the calls after the stop end as the script says. */
  ghost function ScriptedStory<W>(s: Story<W>, script: seq<HandlerResult>): Story<Counted<W>> {
    Story(ScriptedEnv(s.env, Made(s), script), s.steps, s.ctx, Counting(s.st, 0), s.granted,
          Counting(s.stGranted, 0), s.resent, Counting(s.stResent, Made(s)))
  }

  lemma FirstMirrors<W>(s: Story<W>, script: seq<HandlerResult>)
    ensures Mirrors(s.First(), ScriptedStory(s, script).First(), |s.st.calls|)
  {
    RunCallsGrow(s.env, s.ctx, s.steps, Start(s.st, map[]));
    RunMirrors(s.env, Made(s), script, s.ctx, s.steps, Start(s.st, map[]), Start(Counting(s.st, 0), map[]),
        |s.st.calls|);
  }

  lemma {:induction false} ChangesScripted<W>(env: Env<W>, n: nat, script: seq<HandlerResult>, steps: seq<PlanStep>)
    ensures RecordChanges(ScriptedEnv(env, n, script), steps) == RecordChanges(env, steps)
  {
    if steps != [] {
      ChangesScripted(env, n, script, steps[1..]);
    }
  }

  lemma ScriptedAsked<W>(s: Story<W>, script: seq<HandlerResult>)
    requires s.Asked()
    ensures ScriptedStory(s, script).Asked()
  {
    FirstMirrors(s, script);
    ChangesScripted(s.env, Made(s), script, s.steps);
  }

  lemma ScriptedGranted<W>(s: Story<W>, script: seq<HandlerResult>)
    requires s.Asked() && s.Granted()
    ensures ScriptedStory(s, script).Asked() && ScriptedStory(s, script).Granted()
  {
    FirstMirrors(s, script);
    ScriptedAsked(s, script);
    var c := AskedFor(s.First().results).value;
    CheckScripted(s.env, Made(s), script, s.ctx.principal, c.tool, c.arguments);
  }

  lemma ScriptedIsAlike<W>(s: Story<W>, script: seq<HandlerResult>)
    requires s.Asked() && s.Granted()
    ensures AlikeUpToTheStop(s, ScriptedStory(s, script))
  {
    ScriptedGranted(s, script);
    FirstMirrors(s, script);
  }

  /** Stories that are the same up to the stop resume the same. */
  lemma ResumedAlike<W, V>(s: Story<W>, other: Story<V>)
    requires s.Asked() && s.Granted() && AlikeUpToTheStop(s, other)
    ensures Carried(s) && Carried(other) && Resumed(other) == Resumed(s)
  {
    var row, row' := s.stResent.approvals[s.resent.approvalId.value],
        other.stResent.approvals[other.resent.approvalId.value];
    assert row.arguments == row'.arguments && row.tool == row'.tool && row.resume == row'.resume;
  }

  // ------------------------------------------------------------------- lost steps that can be reached

  /** Step `j` of the resumed plan waited for a failed step, and can be reached with the outputs of the cast. */
  ghost predicate LostReachable<W>(s: Story<W>, j: nat, cast: set<nat>, outputs: map<string, Value>)
    requires s.Asked() && Carried(s)
  {
    var later := Remaining(s.steps, s.First().results);
    && 0 < j < |later| && Blocked(later[j], s.First().failed)
    && Reachable(s.env, s.resent.principal, Resumed(s).0, Resumed(s).1, cast, outputs, j)
  }

  lemma LaterIsNoChange<W>(env: Env<W>, steps: seq<PlanStep>, k: nat, arguments: Args, j: nat)
    requires k + j < |steps| && j > 0 && NoChange(env, steps[k + 1..])
    ensures !IsChange(env, Rest(steps, k, arguments)[j])
  {
    RestAt(steps, k, arguments, j);
    assert steps[k + 1..][j - 1] == steps[k + j];
  }

  lemma ConfirmedNeverAsks<W>(s: Story<W>, n: nat)
    requires s.Asked() && s.Granted() && Carried(s)
    ensures NeverAsks(s.env, s.resent, Counting(s.stResent, n), Resumed(s).0)
  {
    var k, cast, arguments := AtTheStop(s);
    var rest := Resumed(s).0;
    forall j: nat | j < |rest| && rest[j].tool in s.env.tools && s.env.tools[rest[j].tool].risk == HighRisk
      ensures j == 0
    {
      if j > 0 {
        LaterIsNoChange(s.env, s.steps, k, arguments, j);
      }
    }
    RestAt(s.steps, k, arguments, 0);
  }

  lemma WhereItStopped<W>(s: Story<W>) returns (k: nat, arguments: Args)
    requires s.Asked() && Carried(s)
    ensures k < |s.steps| && UniqueSteps(s.steps) && !Blocked(s.steps[k], s.First().failed)
    ensures UniqueSteps(Resumed(s).0) && IdSet(Resumed(s).0) !! Resumed(s).1.Keys
    ensures Resumed(s).0 == Rest(s.steps, k, arguments) && Remaining(s.steps, s.First().results) == s.steps[k..]
  {
    var cast;
    k, cast, arguments := AtTheStop(s);
    KeptIsEarlier(s.steps, k, s.First().failed, cast, Resumed(s).1, arguments);
  }

  lemma StageIsSet<W>(s: Story<W>) returns (stage: Stage<W>)
    requires s.Asked() && s.Granted() && Carried(s)
    ensures stage ==
            Stage(s.env, Made(s), s.resent, Resumed(s).0, Counting(s.stResent, Made(s)), Resumed(s).1)
    ensures stage.Set()
  {
    var k, arguments := WhereItStopped(s);
    ConfirmedNeverAsks(s, Made(s));
    stage := Stage(s.env, Made(s), s.resent, Resumed(s).0, Counting(s.stResent, Made(s)), Resumed(s).1);
  }

  /** A step that is reached after `j` others has a result in the end. */
  lemma ReachedThenHasResult<W>(env: Env<W>, ctx: Context, steps: seq<PlanStep>, j: nat, p: Progress<W>)
    requires j < |steps|
    requires var q := Run(env, ctx, steps[..j], p); !q.stopped && !Blocked(steps[j], q.failed)
    ensures HasResult(Run(env, ctx, steps, p).results, steps[j].stepId)
  {
    assert steps == steps[..j] + steps[j..];
    RunSplit(env, ctx, steps[..j], steps[j..], p);
    ReachedHasResult(env, ctx, steps[j..], Run(env, ctx, steps[..j], p));
  }

  lemma RemainingAt<W>(s: Story<W>, j: nat) returns (k: nat)
    requires s.Asked() && Carried(s) && j < |Remaining(s.steps, s.First().results)|
    ensures k + j < |s.steps| && Remaining(s.steps, s.First().results)[j] == s.steps[k + j]
    ensures j < |Resumed(s).0| && Resumed(s).0[j].stepId == s.steps[k + j].stepId
  {
    var arguments;
    k, arguments := WhereItStopped(s);
    RestAt(s.steps, k, arguments, j);
  }

  /** Some tools let a lost step that can be reached run after all. */
  lemma LostMeansMore<W>(s: Story<W>, j: nat, cast: set<nat>, outputs: map<string, Value>)
      returns (other: Story<Counted<W>>)
    requires s.Asked() && s.Granted() && Carried(s) && LostReachable(s, j, cast, outputs)
    ensures AlikeUpToTheStop(s, other) && !SameAsUninterrupted(other.First(), other.Second(), other.Whole())
  {
    var stage := StageIsSet(s);
    var script := ReachableIsReached(stage, cast, outputs, j);
    other := ScriptedStory(s, script);
    ScriptedIsAlike(s, script);
    ResumedAlike(s, other);
    ReachedThenHasResult(other.env, other.resent, Resumed(s).0, j, Start(other.stResent, Resumed(s).1));
    var k := RemainingAt(s, j);
    assert Blocked(other.steps[k + j], other.First().failed);
    ResumeMeansTheSame(other, other.First(), other.Whole(), other.Second());
  }

  // ------------------------------------------------------------------- steps that are reached

  lemma {:induction false} ResultMeansReached<W>(env: Env<W>, ctx: Context, steps: seq<PlanStep>, j: nat, st: State<W>,
      earlier: map<string, Value>)
    requires UniqueSteps(steps) && j < |steps|
    requires HasResult(Run(env, ctx, steps, Start(st, earlier)).results, steps[j].stepId)
    ensures var p := Before(env, ctx, steps, j, st, earlier); !p.stopped && !Blocked(steps[j], p.failed)
  {
    var p := Before(env, ctx, steps, j, st, earlier);
    assert steps == steps[..j] + steps[j..];
    RunSplit(env, ctx, steps[..j], steps[j..], Start(st, earlier));
    ResultsGrow(env, ctx, steps[..j], Start(st, earlier));
    NewName(steps, j);
    assert !HasResult(p.results, steps[j].stepId);
    if Blocked(steps[j], p.failed) {
      BlockedHasNoResult(env, ctx, steps[j..], p, 0);
    }
  }

  lemma CanSucceedAlike<W, V>(env: Env<W>, other: Env<V>, principal: string, steps: seq<PlanStep>,
      earlier: map<string, Value>, cast: set<nat>, outputs: map<string, Value>, i: nat)
    requires ChecksAlike(env, other) && i < |steps|
    requires CanSucceed(other, principal, steps, earlier, cast, outputs, i)
    ensures CanSucceed(env, principal, steps, earlier, cast, outputs, i)
  {
  }

  /** A step with a result in another story can be reached in this one. */
  lemma ResultIsReachable<W, V>(env: Env<W>, other: Env<V>, ctx: Context, steps: seq<PlanStep>, j: nat, st: State<V>,
      earlier: map<string, Value>) returns (cast: set<nat>, outputs: map<string, Value>)
    requires UniqueSteps(steps) && IdSet(steps) !! earlier.Keys && j < |steps| && ChecksAlike(env, other)
    requires HasResult(Run(other, ctx, steps, Start(st, earlier)).results, steps[j].stepId)
    ensures Reachable(env, ctx.principal, steps, earlier, cast, outputs, j)
  {
    ResultMeansReached(other, ctx, steps, j, st, earlier);
    var p := Before(other, ctx, steps, j, st, earlier);
    cast := RunHasCast(other, ctx, steps, j, st, earlier);
    outputs := p.completed;
    UnblockedWaits(steps, j, cast, p.failed);
    forall i: nat | i < j && i in cast ensures CanSucceed(env, ctx.principal, steps, earlier, cast, outputs, i) {
      CanSucceedAlike(env, other, ctx.principal, steps, earlier, cast, outputs, i);
    }
  }

  lemma PositionFrom(steps: seq<PlanStep>, k: nat, i: nat)
    requires UniqueSteps(steps) && k < |steps| && i < |steps| && steps[i].stepId in IdSet(steps[k..])
    ensures k <= i
  {
    var m :| 0 <= m < |steps[k..]| && steps[k..][m].stepId == steps[i].stepId;
    assert steps[k + m] == steps[k..][m];
  }

  lemma PositionInRest(steps: seq<PlanStep>, k: nat, arguments: Args, i: nat)
    requires UniqueSteps(steps) && k < |steps| && i < |steps|
    requires steps[i].stepId in IdSet(Rest(steps, k, arguments))
    ensures k <= i && Rest(steps, k, arguments)[i - k].stepId == steps[i].stepId
  {
    RestIds(steps, k, arguments);
    PositionFrom(steps, k, i);
    RestAt(steps, k, arguments, i - k);
  }

  lemma ResultIsOfSteps<W>(env: Env<W>, ctx: Context, steps: seq<PlanStep>, st: State<W>, earlier: map<string, Value>,
      id: string)
    requires HasResult(Run(env, ctx, steps, Start(st, earlier)).results, id)
    ensures id in IdSet(steps)
  {
    ResultsGrow(env, ctx, steps, Start(st, earlier));
  }

  /** The results of the resumed run are of steps from the stop on. */
  lemma ResultIsLater<W>(env: Env<W>, ctx: Context, steps: seq<PlanStep>, k: nat, arguments: Args, st: State<W>,
      kept: map<string, Value>, i: nat)
    requires UniqueSteps(steps) && k < |steps| && i < |steps|
    requires HasResult(Run(env, ctx, Rest(steps, k, arguments), Start(st, kept)).results, steps[i].stepId)
    ensures k <= i && Rest(steps, k, arguments)[i - k].stepId == steps[i].stepId
  {
    ResultIsOfSteps(env, ctx, Rest(steps, k, arguments), st, kept, steps[i].stepId);
    PositionInRest(steps, k, arguments, i);
  }

  /** A lost step with a result in an alike story can be reached in this one. */
  lemma LostIsReachable<W, V>(s: Story<W>, other: Story<V>, i: nat)
      returns (j: nat, cast: set<nat>, outputs: map<string, Value>)
    requires s.Asked() && s.Granted() && Carried(s) && ChecksAlike(s.env, other.env)
    requires other.resent.principal == s.resent.principal && i < |s.steps| && Blocked(s.steps[i], s.First().failed)
    requires HasResult(Run(other.env, other.resent, Resumed(s).0, Start(other.stResent, Resumed(s).1)).results,
            s.steps[i].stepId)
    ensures LostReachable(s, j, cast, outputs)
  {
    var k, arguments := WhereItStopped(s);
    var rest, kept := Resumed(s).0, Resumed(s).1;
    ResultIsLater(other.env, other.resent, s.steps, k, arguments, other.stResent, kept, i);
    j := i - k;
    cast, outputs := ResultIsReachable(s.env, other.env, other.resent, rest, j, other.stResent, kept);
  }

  /** A story that means something else has a lost step that can be reached. */
  lemma MoreMeansLost<W, V>(s: Story<W>, other: Story<V>)
      returns (j: nat, cast: set<nat>, outputs: map<string, Value>)
    requires s.Asked() && s.Granted() && Carried(s) && AlikeUpToTheStop(s, other)
    requires !SameAsUninterrupted(other.First(), other.Second(), other.Whole())
    ensures LostReachable(s, j, cast, outputs)
  {
    ResumedAlike(s, other);
    ResumeMeansTheSame(other, other.First(), other.Whole(), other.Second());
    var i :| 0 <= i < |other.steps| && Blocked(other.steps[i], other.First().failed)
        && HasResult(other.Second().results, other.steps[i].stepId);
    j, cast, outputs := LostIsReachable(s, other, i);
  }

  // ------------------------------------------------------------------- the theorem

  /** Resuming keeps the meaning of the plan in every story that is the same up to the stop, whatever the tools do
      afterwards. */
  ghost predicate KeepsMeaning<W(!new)>(s: Story<W>)
    requires s.Asked() && s.Granted()
  {
    forall other: Story<Counted<W>> | AlikeUpToTheStop(s, other) ::
        SameAsUninterrupted(other.First(), other.Second(), other.Whole())
  }

  /** It does exactly when no later step that waited for a failed one can be reached. */
  lemma KeepsMeaningWhateverToolsDo<W(!new)>(s: Story<W>)
    requires s.Asked() && s.Granted()
    ensures Carried(s)
    ensures KeepsMeaning(s) <==> forall j: nat, cast, outputs :: !LostReachable(s, j, cast, outputs)
  {
    if j: nat, cast, outputs :| LostReachable(s, j, cast, outputs) {
      var other := LostMeansMore(s, j, cast, outputs);
    }
    if !KeepsMeaning(s) {
      var other: Story<Counted<W>> :|
        AlikeUpToTheStop(s, other) && !SameAsUninterrupted(other.First(), other.Second(), other.Whole());
      var j, cast, outputs := MoreMeansLost(s, other);
    }
  }

  // ------------------------------------------------------------------- the plain condition

  /** A step that needs no outputs and makes a call that passes every check. */
  ghost predicate Ready<W>(env: Env<W>, principal: string, step: PlanStep) {
    && step.bindings == [] && step.tool in env.tools
    && Check(env, principal, env.tools[step.tool], step.arguments).Ok?
  }

  /** Step `j` or one before it, after the stop, waits for a failed step. */
  ghost predicate LostBy(remaining: seq<PlanStep>, j: nat, failed: set<string>)
    requires j < |remaining|
  {
    exists m :: 0 < m <= j && Blocked(remaining[m], failed)
  }

  /** Between the stop and the first later step that waits for a failed one, every step is ready. */
  ghost predicate ReadyUntilLost<W>(env: Env<W>, principal: string, remaining: seq<PlanStep>, failed: set<string>) {
    forall j | 0 < j < |remaining| && !LostBy(remaining, j, failed) :: Ready(env, principal, remaining[j])
  }

  lemma {:induction false} FirstLost(remaining: seq<PlanStep>, failed: set<string>, m: nat) returns (i: nat)
    requires 0 < m < |remaining| && Blocked(remaining[m], failed)
    ensures 0 < i < |remaining| && Blocked(remaining[i], failed)
    ensures forall j | 0 < j < i :: !LostBy(remaining, j, failed)
  {
    if j: nat :| 0 < j < m && Blocked(remaining[j], failed) {
      i := FirstLost(remaining, failed, j);
    } else {
      i := m;
    }
  }

  lemma FirstLostOf(remaining: seq<PlanStep>, failed: set<string>) returns (i: nat)
    requires remaining != [] && !NoneBlocked(remaining[1..], failed)
    ensures 0 < i < |remaining| && Blocked(remaining[i], failed)
    ensures forall j | 0 < j < i :: !LostBy(remaining, j, failed)
  {
    var m :| 0 <= m < |remaining[1..]| && Blocked(remaining[1..][m], failed);
    i := FirstLost(remaining, failed, m + 1);
  }

  lemma ReadyIsReachable<W>(env: Env<W>, principal: string, rest: seq<PlanStep>, kept: map<string, Value>, i: nat)
      returns (cast: set<nat>, outputs: map<string, Value>)
    requires i < |rest| && forall j | 0 <= j < i :: Ready(env, principal, rest[j])
    ensures Reachable(env, principal, rest, kept, cast, outputs, i)
  {
    cast := FirstNumbers(i);
    outputs := map id | id in IdSet(rest) :: OutputWith(Null, "");
    forall j: nat | j < i ensures CanSucceed(env, principal, rest, kept, cast, outputs, j) {
      assert Ready(env, principal, rest[j]) && rest[j].stepId in IdSet(rest);
    }
  }

  lemma AllReadyBefore<W>(s: Story<W>, i: nat)
    requires s.Asked() && s.Granted() && Carried(s)
    requires var remaining, failed := Remaining(s.steps, s.First().results), s.First().failed;
             && i < |remaining| && ReadyUntilLost(s.env, s.resent.principal, remaining, failed)
             && forall j | 0 < j < i :: !LostBy(remaining, j, failed)
    ensures i < |Resumed(s).0| && forall j | 0 <= j < i :: Ready(s.env, s.resent.principal, Resumed(s).0[j])
  {
    var k, arguments := WhereItStopped(s);
    forall j: nat | j < i ensures Ready(s.env, s.resent.principal, Resumed(s).0[j]) {
      RestAt(s.steps, k, arguments, j);
      if j > 0 {
        assert Ready(s.env, s.resent.principal, s.steps[k..][j]);
      }
    }
  }

  lemma UnblockedIsNotLost<W>(s: Story<W>, j: nat, cast: set<nat>, outputs: map<string, Value>)
    requires s.Asked() && Carried(s) && NoneBlocked(Remaining(s.steps, s.First().results)[1..], s.First().failed)
    ensures !LostReachable(s, j, cast, outputs)
  {
    var remaining := Remaining(s.steps, s.First().results);
    if 0 < j < |remaining| {
      assert remaining[1..][j - 1] == remaining[j];
    }
  }

  lemma ReadyIsLost<W>(s: Story<W>) returns (j: nat, cast: set<nat>, outputs: map<string, Value>)
    requires s.Asked() && s.Granted() && Carried(s)
    requires var remaining, failed := Remaining(s.steps, s.First().results), s.First().failed;
             !NoneBlocked(remaining[1..], failed) && ReadyUntilLost(s.env, s.resent.principal, remaining, failed)
    ensures LostReachable(s, j, cast, outputs)
  {
    j := FirstLostOf(Remaining(s.steps, s.First().results), s.First().failed);
    AllReadyBefore(s, j);
    cast, outputs := ReadyIsReachable(s.env, s.resent.principal, Resumed(s).0, Resumed(s).1, j);
  }

  /** Where every step up to the first lost one is ready, the plain condition is exact: no later step waits for a failed
      one. It is always enough. */
  lemma PlainConditionIsExact<W(!new)>(s: Story<W>)
    requires s.Asked() && s.Granted()
    ensures var remaining, failed := Remaining(s.steps, s.First().results), s.First().failed;
            && (NoneBlocked(remaining[1..], failed) ==> KeepsMeaning(s))
            && (ReadyUntilLost(s.env, s.resent.principal, remaining, failed) && KeepsMeaning(s) ==>
                  NoneBlocked(remaining[1..], failed))
  {
    var remaining, failed := Remaining(s.steps, s.First().results), s.First().failed;
    KeepsMeaningWhateverToolsDo(s);
    if NoneBlocked(remaining[1..], failed) {
      forall j: nat, cast, outputs ensures !LostReachable(s, j, cast, outputs) {
        UnblockedIsNotLost(s, j, cast, outputs);
      }
    } else if ReadyUntilLost(s.env, s.resent.principal, remaining, failed) {
      var j, cast, outputs := ReadyIsLost(s);
    }
  }
}
