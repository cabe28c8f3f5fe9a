/** Resolving "$step.path" references against the outputs of completed steps
    (apps/api/app/agents/bindings.py). */
module Bindings {
  import opened Values
  import opened Decimal

  datatype Segment = Key(name: string) | Every | At(index: nat)

  datatype Reference = Reference(step: string, path: seq<Segment>)

  datatype BindingError =
    | InvalidReference(text: string)
    | UnknownStep(step: string)
    | ReadsScalar(name: string)
    | IndexesNonList

  /** The part of a plan step that bindings work on. Bindings keep their insertion order. */
  datatype Inputs = Inputs(dependsOn: seq<string>, arguments: Args, bindings: seq<(string, string)>)

  // ------------------------------------------------------ reference grammar

  predicate WordChar(c: char) {
    'A' <= c <= 'Z' || 'a' <= c <= 'z' || IsDigit(c) || c == '_'
  }

  predicate StepChar(c: char) { WordChar(c) || c == '-' }

  /** The length of the longest prefix whose characters satisfy `p`. */
  function Span(s: string, p: char -> bool): (n: nat)
    ensures n <= |s| && (forall i | 0 <= i < n :: p(s[i])) && (n < |s| ==> !p(s[n]))
  {
    if s == "" || !p(s[0]) then 0 else 1 + Span(s[1..], p)
  }

  /** The path after the step name; `$` in the pattern also accepts one final newline. */
  function ParsePath(s: string): Option<seq<Segment>>
    decreases |s|
  {
    if s == "" || s == "\n" then Some([])
    else if s[0] == '.' then
      var n := Span(s[1..], WordChar);
      if n == 0 then None else Prepend(Key(s[1..][..n]), ParsePath(s[1..][n..]))
    else if s[0] == '[' then
      if |s| >= 3 && s[1] == '*' && s[2] == ']' then Prepend(Every, ParsePath(s[3..]))
      else
        var n := Span(s[1..], IsDigit);
        if n == 0 || n + 1 >= |s| || s[n + 1] != ']' then None
        else Prepend(At(Number(s[1..][..n])), ParsePath(s[n + 2..]))
    else None
  }

  function Prepend(head: Segment, rest: Option<seq<Segment>>): Option<seq<Segment>> {
    match rest
    case None => None
    case Some(tail) => Some([head] + tail)
  }

  /** The reference pattern matched against a whole string. */
  function ParseReference(s: string): Option<Reference> {
    if s == "" || s[0] != '$' then None
    else
      var n := Span(s[1..], StepChar);
      if n == 0 then None
      else
        match ParsePath(s[1..][n..])
        case None => None
        case Some(path) => Some(Reference(s[1..][..n], path))
  }

  predicate IsReference(value: Value) {
    value.Str? && ParseReference(value.text).Some?
  }

  /** A reference written as "$" + step + path reads back as that step. */
  lemma ReferenceNamesStep(step: string, path: string)
    requires step != "" && forall i | 0 <= i < |step| :: StepChar(step[i])
    requires path != "" && !StepChar(path[0])
    ensures ParseReference("$" + step + path) ==
            (match ParsePath(path) case None => None case Some(p) => Some(Reference(step, p)))
  {
    var s := "$" + step + path;
    var body := s[1..];
    assert body == step + path;
    assert forall i | 0 <= i < |step| :: body[i] == step[i];
    assert body[|step|] == path[0];
    assert Span(body, StepChar) == |step|;
    assert body[..|step|] == step && body[|step|..] == path;
  }

  // -------------------------------------------------------------- resolution

  function Pick(item: Value, key: string): Value {
    if item.Obj? then Get(item.fields, key) else Null
  }

  /** One segment of a path applied to the value reached so far. */
  function Move(current: Value, segment: Segment): Result<Value, BindingError> {
    match segment
    case Key(name) =>
      if current.List? then Ok(List(seq(|current.items|, i requires 0 <= i < |current.items| => Pick(current.items[i],
          name))))
      else if current.Obj? then Ok(Get(current.fields, name))
      else Err(ReadsScalar(name))
    case Every =>
      if current.List? then Ok(current)
      else if current.Null? then Ok(List([]))
      else Ok(List([current]))
    case At(index) =>
      if !current.List? then Err(IndexesNonList)
      else if index < |current.items| then Ok(current.items[index])
      else Ok(Null)
  }

  function Walk(current: Value, path: seq<Segment>): Result<Value, BindingError>
    decreases |path|
  {
    if path == [] then Ok(current)
    else
      match Move(current, path[0])
      case Err(e) => Err(e)
      case Ok(next) => Walk(next, path[1..])
  }

  function Resolve(reference: string, outputs: map<string, Value>): Result<Value, BindingError> {
    match ParseReference(reference)
    case None => Err(InvalidReference(reference))
    case Some(r) =>
      if r.step !in outputs then Err(UnknownStep(r.step)) else Walk(outputs[r.step], r.path)
  }

  function WithoutNulls(items: seq<Value>): seq<Value> {
    if items == [] then [] else (if items[0].Null? then [] else [items[0]]) + WithoutNulls(items[1..])
  }

  function Cleaned(value: Value): Value {
    if value.List? then List(WithoutNulls(value.items)) else value
  }

  /** The bindings resolved, in order, over the arguments collected so far. */
  function ResolveAll(arguments: Args, bindings: seq<(string, string)>, outputs: map<string, Value>): Result<Args,
      BindingError>
    decreases |bindings|
  {
    if bindings == [] then Ok(arguments)
    else
      match Resolve(bindings[0].1, outputs)
      case Err(e) => Err(e)
      case Ok(value) => ResolveAll(arguments[bindings[0].0 := Cleaned(value)], bindings[1..], outputs)
  }

  method ResolveReference(reference: string, outputs: map<string, Value>) returns (r: Result<Value, BindingError>)
    ensures r == Resolve(reference, outputs)
  {
    var parsed := ParseReference(reference);
    if parsed.None? {
      return Err(InvalidReference(reference));
    }
    var Reference(step, path) := parsed.value;
    if step !in outputs {
      return Err(UnknownStep(step));
    }
    var current := outputs[step];
    for i := 0 to |path|
      invariant Walk(outputs[step], path) == Walk(current, path[i..])
    {
      var next := Move(current, path[i]);
      if next.Err? {
        return Err(next.error);
      }
      current := next.value;
    }
    return Ok(current);
  }

  method ResolveArguments(inputs: Inputs, outputs: map<string, Value>) returns (r: Result<Args, BindingError>)
    ensures r == ResolveAll(inputs.arguments, inputs.bindings, outputs)
  {
    var resolved := inputs.arguments;
    for i := 0 to |inputs.bindings|
      invariant ResolveAll(inputs.arguments, inputs.bindings, outputs) ==
              ResolveAll(resolved, inputs.bindings[i..], outputs)
    {
      var (name, reference) := inputs.bindings[i];
      var value := ResolveReference(reference, outputs);
      if value.Err? {
        return Err(value.error);
      }
      resolved := resolved[name := Cleaned(value.value)];
    }
    return Ok(resolved);
  }

  // -------------------------------------------------------- referenced steps

  /** `step` is waited for, or read from, by a plan step. */
  predicate References(inputs: Inputs, step: string) {
    || step in inputs.dependsOn
    || (exists i | 0 <= i < |inputs.bindings| :: Mentions(inputs.bindings[i].1, step))
    || (exists name | name in inputs.arguments ::
        inputs.arguments[name].Str? && Mentions(inputs.arguments[name].text, step))
  }

  predicate Mentions(text: string, step: string) {
    var parsed := ParseReference(text);
    parsed.Some? && parsed.value.step == step
  }

  method ReferencedSteps(inputs: Inputs) returns (found: set<string>)
    ensures forall step :: step in found <==> References(inputs, step)
  {
    found := set d | d in inputs.dependsOn;
    for i := 0 to |inputs.bindings|
      invariant forall step :: step in found <==>
        step in inputs.dependsOn || exists j | 0 <= j < i :: Mentions(inputs.bindings[j].1, step)
    {
      var parsed := ParseReference(inputs.bindings[i].1);
      if parsed.Some? {
        found := found + {parsed.value.step};
      }
    }
    var left := inputs.arguments.Keys;
    while left != {}
      invariant left <= inputs.arguments.Keys
      invariant forall step :: step in found <==>
        || step in inputs.dependsOn
        || (exists j | 0 <= j < |inputs.bindings| :: Mentions(inputs.bindings[j].1, step))
        || (exists name | name in inputs.arguments.Keys - left ::
            inputs.arguments[name].Str? && Mentions(inputs.arguments[name].text, step))
    {
      var name :| name in left;
      left := left - {name};
      if inputs.arguments[name].Str? {
        var parsed := ParseReference(inputs.arguments[name].text);
        if parsed.Some? {
          found := found + {parsed.value.step};
        }
      }
    }
  }

  // ------------------------------------------------------------- properties

  /** Two sets of outputs hold the same thing for every step that `inputs` refers to. */
  ghost predicate AgreeOn(inputs: Inputs, one: map<string, Value>, two: map<string, Value>) {
    forall step | References(inputs, step) ::
      && (step in one <==> step in two)
      && (step in one ==> one[step] == two[step])
  }

  /** Resolving a step reads nothing but the outputs of the steps it refers to. */
  lemma ReadsOnlyReferenced(inputs: Inputs, one: map<string, Value>, two: map<string, Value>)
    requires AgreeOn(inputs, one, two)
    ensures ResolveAll(inputs.arguments, inputs.bindings, one) == ResolveAll(inputs.arguments, inputs.bindings, two)
  {
    ReadsOnlyReferencedFrom(inputs, 0, inputs.arguments, one, two);
  }

  lemma {:induction false} ReadsOnlyReferencedFrom(inputs: Inputs, k: nat, resolved: Args, one: map<string, Value>,
      two: map<string, Value>)
    requires k <= |inputs.bindings|
    requires AgreeOn(inputs, one, two)
    ensures ResolveAll(resolved, inputs.bindings[k..], one) == ResolveAll(resolved, inputs.bindings[k..], two)
    decreases |inputs.bindings| - k
  {
    if k < |inputs.bindings| {
      var (name, reference) := inputs.bindings[k];
      var parsed := ParseReference(reference);
      if parsed.Some? {
        assert Mentions(inputs.bindings[k].1, parsed.value.step);
        assert References(inputs, parsed.value.step);
      }
      assert Resolve(reference, one) == Resolve(reference, two);
      var value := Resolve(reference, one);
      if value.Ok? {
        ReadsOnlyReferencedFrom(inputs, k + 1, resolved[name := Cleaned(value.value)], one, two);
      }
    }
  }

  /** The only way to meet an unknown step is to bind one that has no output. */
  lemma {:induction false} UnknownStepIsMissing(arguments: Args, bindings: seq<(string, string)>, outputs: map<string,
      Value>)
    requires forall i | 0 <= i < |bindings| ::
            ParseReference(bindings[i].1).Some? && ParseReference(bindings[i].1).value.step in outputs
    ensures var r := ResolveAll(arguments, bindings, outputs);
            r.Err? ==> r.error.ReadsScalar? || r.error.IndexesNonList?
    decreases |bindings|
  {
    if bindings != [] {
      var value := Resolve(bindings[0].1, outputs);
      var parsed := ParseReference(bindings[0].1).value;
      WalkErrors(outputs[parsed.step], parsed.path);
      if value.Ok? {
        UnknownStepIsMissing(arguments[bindings[0].0 := Cleaned(value.value)], bindings[1..], outputs);
      }
    }
  }

  lemma {:induction false} WalkErrors(current: Value, path: seq<Segment>)
    ensures var r := Walk(current, path); r.Err? ==> r.error.ReadsScalar? || r.error.IndexesNonList?
    decreases |path|
  {
    if path != [] && Move(current, path[0]).Ok? {
      WalkErrors(Move(current, path[0]).value, path[1..]);
    }
  }
}
