/** The order of a step's bindings, which encoding a kept plan as JSON with sorted keys changes
    (apps/api/app/institution_data/store.py, `_json`; apps/api/app/agents/bindings.py). */
module BindingOrder {
  import opened Values
  import opened Contracts
  import opened Bindings
  import opened Gateway
  import opened Master

  ghost predicate DifferentNames(bindings: seq<(string, string)>) {
    forall i, j | 0 <= i < j < |bindings| :: bindings[i].0 != bindings[j].0
  }

  /** What the bindings come to, by name. */
  ghost predicate Binds(arguments: Args, bindings: seq<(string, string)>, outputs: map<string, Value>, resolved: Args) {
    && (forall b | b in bindings :: Resolve(b.1, outputs).Ok? && b.0 in resolved
          && resolved[b.0] == Cleaned(Resolve(b.1, outputs).value))
    && forall name | (forall b | b in bindings :: b.0 != name) ::
         (name in resolved <==> name in arguments) && (name in arguments ==> resolved[name] == arguments[name])
  }

  lemma OneMoreBound(arguments: Args, bindings: seq<(string, string)>, outputs: map<string, Value>, resolved: Args)
    requires DifferentNames(bindings) && bindings != [] && Resolve(bindings[0].1, outputs).Ok?
    requires Binds(arguments[bindings[0].0 := Cleaned(Resolve(bindings[0].1, outputs).value)], bindings[1..], outputs,
            resolved)
    ensures Binds(arguments, bindings, outputs, resolved)
  {
    var first, rest := bindings[0], bindings[1..];
    assert forall b | b in rest :: b.0 != first.0;
    forall b ensures b in bindings <==> b == first || b in rest {
      assert bindings == [first] + rest;
    }
  }

  lemma {:induction false} ResolvesByName(arguments: Args, bindings: seq<(string, string)>,
      outputs: map<string, Value>)
    requires DifferentNames(bindings)
    ensures var r := ResolveAll(arguments, bindings, outputs);
            && (r.Ok? <==> forall b | b in bindings :: Resolve(b.1, outputs).Ok?)
            && (r.Ok? ==> Binds(arguments, bindings, outputs, r.value))
    decreases |bindings|
  {
    if bindings != [] {
      var value := Resolve(bindings[0].1, outputs);
      assert bindings == [bindings[0]] + bindings[1..];
      if value.Ok? {
        var more := arguments[bindings[0].0 := Cleaned(value.value)];
        ResolvesByName(more, bindings[1..], outputs);
        var r := ResolveAll(more, bindings[1..], outputs);
        if r.Ok? {
          OneMoreBound(arguments, bindings, outputs, r.value);
        }
      }
    }
  }

  /** Bindings of different names can come in any order: whether they resolve, and what they resolve to, does not depend
      on it. */
  lemma OrderOfBindings(arguments: Args, one: seq<(string, string)>, two: seq<(string, string)>,
      outputs: map<string, Value>)
    requires DifferentNames(one) && multiset(one) == multiset(two)
    ensures var r, s := ResolveAll(arguments, one, outputs), ResolveAll(arguments, two, outputs);
            (r.Ok? <==> s.Ok?) && (r.Ok? ==> r == s)
  {
    SameBindings(one, two);
    ResolvesByName(arguments, one, outputs);
    ResolvesByName(arguments, two, outputs);
    var r, s := ResolveAll(arguments, one, outputs), ResolveAll(arguments, two, outputs);
    if r.Ok? {
      BoundOnce(arguments, one, outputs, r.value, s.value);
    }
  }

  lemma BoundOnce(arguments: Args, bindings: seq<(string, string)>, outputs: map<string, Value>, r: Args, s: Args)
    requires Binds(arguments, bindings, outputs, r) && Binds(arguments, bindings, outputs, s)
    ensures r == s
  {
    forall name ensures (name in r <==> name in s) && (name in r ==> r[name] == s[name]) {
      if b :| b in bindings && b.0 == name {
        assert b.0 in r && b.0 in s;
      }
    }
  }

  lemma SameBindings(one: seq<(string, string)>, two: seq<(string, string)>)
    requires DifferentNames(one) && multiset(one) == multiset(two)
    ensures DifferentNames(two) && forall b :: b in one <==> b in two
  {
    forall b ensures b in one <==> b in two {
      assert b in multiset(one) <==> b in multiset(two);
    }
    forall i, j | 0 <= i < j < |two| ensures two[i].0 != two[j].0 {
      OnceEach(one);
      if two[i].0 == two[j].0 {
        assert two[i] in one && two[j] in one;
        TwiceCounts(two, i, j);
      }
    }
  }

  lemma TwiceCounts(bindings: seq<(string, string)>, i: nat, j: nat)
    requires i < j < |bindings| && bindings[i] == bindings[j]
    ensures multiset(bindings)[bindings[i]] >= 2
  {
    assert bindings == bindings[..i] + [bindings[i]] + bindings[i + 1..j] + [bindings[j]] + bindings[j + 1..];
  }

  lemma {:induction false} OnceEach(bindings: seq<(string, string)>)
    requires DifferentNames(bindings)
    ensures forall b | b in bindings :: multiset(bindings)[b] == 1
    decreases |bindings|
  {
    if bindings != [] {
      OnceEach(bindings[1..]);
      assert bindings == [bindings[0]] + bindings[1..];
      assert bindings[0] !in bindings[1..];
    }
  }

  /** The error that is reported does depend on it. */
  lemma OrderDecidesTheError()
    ensures var one, two := [("a", "x"), ("b", "y")], [("b", "y"), ("a", "x")];
            && multiset(one) == multiset(two)
            && ResolveAll(map[], one, map[]) == Err(InvalidReference("x"))
            && ResolveAll(map[], two, map[]) == Err(InvalidReference("y"))
  {
  }

  // ------------------------------------------------------------------- plans with other orders

  /** The same steps, each with its bindings in some order. */
  ghost predicate Reordered(steps: seq<PlanStep>, other: seq<PlanStep>) {
    |steps| == |other| && forall i | 0 <= i < |steps| :: ReorderedStep(steps[i], other[i])
  }

  ghost predicate ReorderedStep(step: PlanStep, other: PlanStep) {
    && other == step.(bindings := other.bindings)
    && DifferentNames(step.bindings) && multiset(step.bindings) == multiset(other.bindings)
  }

  /** The same but for the reasons given in results. */
  ghost predicate SameButReasons<W>(p: Progress<W>, q: Progress<W>) {
    && q.completed == p.completed && q.failed == p.failed && q.st == p.st && q.stopped == p.stopped
    && SameButReason(p.results, q.results)
  }

  ghost predicate SameButReason(one: seq<StepResult>, two: seq<StepResult>) {
    |one| == |two| && forall i | 0 <= i < |one| :: one[i].(reason := "") == two[i].(reason := "")
  }

  lemma OneMoreResult(one: seq<StepResult>, two: seq<StepResult>, a: StepResult, b: StepResult)
    requires SameButReason(one, two) && a.(reason := "") == b.(reason := "")
    ensures SameButReason(one + [a], two + [b])
  {
  }

  lemma UnresolvedReordered<W>(env: Env<W>, ctx: Context, step: PlanStep, other: PlanStep, p: Progress<W>,
      q: Progress<W>)
    requires other == step.(bindings := other.bindings) && SameButReasons(p, q)
    requires ResolveAll(step.arguments, step.bindings, p.completed).Err?
    requires ResolveAll(step.arguments, other.bindings, p.completed).Err?
    ensures SameButReasons(RunStep(env, ctx, step, p), RunStep(env, ctx, other, q))
  {
    var e := ResolveAll(step.arguments, step.bindings, p.completed).error;
    var e' := ResolveAll(step.arguments, other.bindings, p.completed).error;
    OneMoreResult(p.results, q.results, UnresolvedResult(step, e), UnresolvedResult(other, e'));
  }

  lemma ResolvedReordered<W>(env: Env<W>, ctx: Context, step: PlanStep, other: PlanStep, p: Progress<W>, q: Progress<W>)
    requires other == step.(bindings := other.bindings) && SameButReasons(p, q)
    requires ResolveAll(step.arguments, step.bindings, p.completed).Ok?
    requires ResolveAll(step.arguments, other.bindings, p.completed) ==
            ResolveAll(step.arguments, step.bindings, p.completed)
    ensures SameButReasons(RunStep(env, ctx, step, p), RunStep(env, ctx, other, q))
  {
    var arguments := ResolveAll(step.arguments, step.bindings, p.completed).value;
    var result := ResultOf(step, Invoke(env, ctx, p.st, step.tool, arguments).1);
    assert result == ResultOf(other, Invoke(env, ctx, q.st, other.tool, arguments).1);
    OneMoreResult(p.results, q.results, result, result);
  }

  lemma StepReordered<W>(env: Env<W>, ctx: Context, step: PlanStep, other: PlanStep, p: Progress<W>, q: Progress<W>)
    requires ReorderedStep(step, other) && SameButReasons(p, q)
    ensures SameButReasons(RunStep(env, ctx, step, p), RunStep(env, ctx, other, q))
  {
    OrderOfBindings(step.arguments, step.bindings, other.bindings, p.completed);
    if ResolveAll(step.arguments, step.bindings, p.completed).Ok? {
      ResolvedReordered(env, ctx, step, other, p, q);
    } else {
      UnresolvedReordered(env, ctx, step, other, p, q);
    }
  }

  lemma {:induction false} RunReordered<W>(env: Env<W>, ctx: Context, steps: seq<PlanStep>, other: seq<PlanStep>,
      p: Progress<W>, q: Progress<W>)
    requires Reordered(steps, other) && SameButReasons(p, q)
    ensures SameButReasons(Run(env, ctx, steps, p), Run(env, ctx, other, q))
    decreases |steps|
  {
    if steps != [] && !p.stopped {
      StepReordered(env, ctx, steps[0], other[0], p, q);
      RunReordered(env, ctx, steps[1..], other[1..], RunStep(env, ctx, steps[0], p), RunStep(env, ctx, other[0], q));
    }
  }

  lemma {:induction false} StopReordered(steps: seq<PlanStep>, other: seq<PlanStep>, stoppedAt: string, tool: string)
    requires Reordered(steps, other)
    ensures StopIndex(other, stoppedAt, tool) == StopIndex(steps, stoppedAt, tool)
    decreases |steps|
  {
    if steps != [] {
      assert ReorderedStep(steps[0], other[0]);
      StopReordered(steps[1..], other[1..], stoppedAt, tool);
    }
  }

  lemma RemainingReordered(steps: seq<PlanStep>, other: seq<PlanStep>, k: nat, arguments: Args)
    requires Reordered(steps, other) && k < |steps|
    ensures var remaining, others := [ConfirmedStep(steps[k], arguments)] + steps[k + 1..],
            [ConfirmedStep(other[k], arguments)] + other[k + 1..];
            Reordered(TrimAll(remaining, IdSet(remaining)), TrimAll(others, IdSet(others)))
  {
    var remaining, others := [ConfirmedStep(steps[k], arguments)] + steps[k + 1..],
        [ConfirmedStep(other[k], arguments)] + other[k + 1..];
    forall i | 0 <= i < |remaining| ensures ReorderedStep(remaining[i], others[i]) {
      assert ReorderedStep(steps[k + i], other[k + i]);
    }
    assert IdSet(remaining) == IdSet(others);
  }

  /** However the bindings of a kept plan are ordered, its resumed run does the same: the same calls, records and
      results but for the reason that an unresolved step gives. */
  lemma ReorderedPlanResumesAlike<W>(env: Env<W>, ctx: Context, st: State<W>, row: Approval, kept: Kept,
      other: seq<PlanStep>)
    requires row.resume == Some(kept) && Reordered(kept.steps, other)
    ensures var (steps, earlier) := Resume(row);
            var (steps', earlier') := Resume(row.(resume := Some(kept.(steps := other))));
            SameButReasons(Run(env, ctx, steps, Start(st, earlier)), Run(env, ctx, steps', Start(st, earlier')))
  {
    var k := StopIndex(kept.steps, kept.stoppedAt, row.tool);
    StopReordered(kept.steps, other, kept.stoppedAt, row.tool);
    var (steps, earlier) := Resume(row);
    var (steps', earlier') := Resume(row.(resume := Some(kept.(steps := other))));
    if k < |kept.steps| {
      RemainingReordered(kept.steps, other, k, row.arguments);
      RunReordered(env, ctx, steps, steps', Start(st, earlier), Start(st, earlier'));
    }
  }
}
