/** What a reference says and what it reads (apps/api/app/agents/bindings.py): the pattern as a way of writing a step
    and a path, and the walk as a relation between values. */
module References {
  import opened Values
  import opened Decimal
  import opened Bindings

  // ------------------------------------------------------------------- writing references

  predicate IsName(name: string) {
    name != "" && forall i | 0 <= i < |name| :: WordChar(name[i])
  }

  /** The text writes the path: `.name`, `[*]` or `[digits]` for each segment, and perhaps a last line feed. */
  ghost predicate Writes(text: string, path: seq<Segment>)
    decreases |path|
  {
    if path == [] then text == "" || text == "\n"
    else
      match path[0]
      case Key(name) => IsName(name) && "." + name <= text && Writes(text[|name| + 1..], path[1..])
      case Every => "[*]" <= text && Writes(text[3..], path[1..])
      case At(index) => exists digits :: IsIndex(digits, index, text) && Writes(text[|digits| + 2..], path[1..])
  }

  predicate IsIndex(digits: string, index: nat, text: string) {
    digits != "" && AllDigits(digits) && Number(digits) == index && "[" + digits + "]" <= text
  }

  predicate IsStepName(name: string) {
    name != "" && forall i | 0 <= i < |name| :: StepChar(name[i])
  }

  /** The text writes the reference. */
  ghost predicate Refers(text: string, reference: Reference) {
    && IsStepName(reference.step) && "$" + reference.step <= text
    && Writes(text[|reference.step| + 1..], reference.path)
  }

  lemma SpanIs(s: string, p: char -> bool, n: nat)
    requires n <= |s| && (forall i | 0 <= i < n :: p(s[i])) && (n < |s| ==> !p(s[n]))
    ensures Span(s, p) == n
  {
  }

  /** What follows a segment is no part of it. */
  lemma PathStarts(text: string, path: seq<Segment>)
    requires Writes(text, path)
    ensures text == "" || text[0] == '.' || text[0] == '[' || text[0] == '\n'
  {
    if path != [] && path[0].At? {
      var digits :| IsIndex(digits, path[0].index, text) && Writes(text[|digits| + 2..], path[1..]);
    }
  }

  lemma KeyIsRead(text: string, name: string)
    requires IsName(name) && "." + name <= text
    requires var rest := text[|name| + 1..]; rest == "" || !WordChar(rest[0])
    ensures ParsePath(text) == Prepend(Key(name), ParsePath(text[|name| + 1..]))
  {
    var rest := text[|name| + 1..];
    assert text == "." + name + rest && text[0] == '.' && text[1..] == name + rest;
    SpanIs(name + rest, WordChar, |name|);
    assert (name + rest)[..|name|] == name && (name + rest)[|name|..] == rest;
  }

  lemma EveryIsRead(text: string)
    requires "[*]" <= text
    ensures ParsePath(text) == Prepend(Every, ParsePath(text[3..]))
  {
    assert text[0] == '[' && text[1] == '*' && text[2] == ']';
  }

  lemma IndexIsRead(text: string, digits: string, index: nat)
    requires IsIndex(digits, index, text)
    ensures ParsePath(text) == Prepend(At(index), ParsePath(text[|digits| + 2..]))
  {
    var rest := text[|digits| + 2..];
    assert text == "[" + digits + "]" + rest && text[0] == '[' && text[1..] == digits + ("]" + rest);
    assert text[1] == digits[0] && IsDigit(digits[0]);
    SpanIs(text[1..], IsDigit, |digits|);
    assert text[1..][..|digits|] == digits && text[|digits| + 1] == ']';
  }

  lemma {:induction false} WrittenIsRead(text: string, path: seq<Segment>)
    requires Writes(text, path)
    ensures ParsePath(text) == Some(path)
    decreases |path|
  {
    if path != [] {
      assert path == [path[0]] + path[1..];
      match path[0] {
        case Key(name) =>
          PathStarts(text[|name| + 1..], path[1..]);
          KeyIsRead(text, name);
          WrittenIsRead(text[|name| + 1..], path[1..]);
        case Every =>
          EveryIsRead(text);
          WrittenIsRead(text[3..], path[1..]);
        case At(index) =>
          var digits :| IsIndex(digits, index, text) && Writes(text[|digits| + 2..], path[1..]);
          IndexIsRead(text, digits, index);
          WrittenIsRead(text[|digits| + 2..], path[1..]);
      }
    }
  }

  lemma {:induction false} ReadIsWritten(text: string)
    ensures ParsePath(text).Some? ==> Writes(text, ParsePath(text).value)
    decreases |text|
  {
    if text == "" || text == "\n" {
    } else if text[0] == '.' {
      KeyWasWritten(text);
    } else if text[0] == '[' && |text| >= 3 && text[1] == '*' && text[2] == ']' {
      ReadIsWritten(text[3..]);
      if ParsePath(text[3..]).Some? {
        Prepended(Every, ParsePath(text[3..]).value);
      }
    } else if text[0] == '[' {
      IndexWasWritten(text);
    }
  }

  lemma Prepended(head: Segment, rest: seq<Segment>)
    ensures ([head] + rest)[0] == head && ([head] + rest)[1..] == rest
  {
  }

  /** The characters that follow the first one of a text. */
  lemma AfterFirst(text: string, n: nat)
    requires n < |text|
    ensures text[1..][..n] == text[1..n + 1] && text[1..][n..] == text[n + 1..]
    ensures text[..1] + text[1..n + 1] <= text && |text[1..n + 1]| == n
    ensures forall i | 0 <= i < n :: text[1..n + 1][i] == text[1..][i]
  {
  }

  lemma KeyIsWritten(text: string, name: string, path: seq<Segment>)
    requires IsName(name) && "." + name <= text && Writes(text[|name| + 1..], path)
    ensures Writes(text, [Key(name)] + path)
  {
    Prepended(Key(name), path);
  }

  lemma KeyWasWritten(text: string)
    requires text != "" && text[0] == '.'
    ensures ParsePath(text).Some? ==> Writes(text, ParsePath(text).value)
    decreases |text|, 0
  {
    var n := Span(text[1..], WordChar);
    if n > 0 {
      AfterFirst(text, n);
      var name, rest := text[1..n + 1], text[n + 1..];
      ReadIsWritten(rest);
      assert ParsePath(text) == Prepend(Key(name), ParsePath(rest));
      if ParsePath(rest).Some? {
        assert text[..1] == ".";
        KeyIsWritten(text, name, ParsePath(rest).value);
      }
    }
  }

  lemma IndexIsWritten(text: string, digits: string, path: seq<Segment>)
    requires AllDigits(digits) && IsIndex(digits, Number(digits), text) && Writes(text[|digits| + 2..], path)
    ensures Writes(text, [At(Number(digits))] + path)
  {
    Prepended(At(Number(digits)), path);
  }

  lemma BracketCloses(text: string, n: nat)
    requires n + 1 < |text| && text[0] == '[' && text[n + 1] == ']'
    ensures "[" + text[1..n + 1] + "]" <= text
  {
    assert "[" + text[1..n + 1] + "]" == text[..n + 2];
  }

  lemma IndexWasWritten(text: string)
    requires text != "" && text[0] == '[' && !(|text| >= 3 && text[1] == '*' && text[2] == ']')
    ensures ParsePath(text).Some? ==> Writes(text, ParsePath(text).value)
    decreases |text|, 0
  {
    var n := Span(text[1..], IsDigit);
    if n > 0 && n + 1 < |text| && text[n + 1] == ']' {
      AfterFirst(text, n);
      BracketCloses(text, n);
      var digits, rest := text[1..n + 1], text[n + 2..];
      assert AllDigits(digits);
      ReadIsWritten(rest);
      assert ParsePath(text) == Prepend(At(Number(digits)), ParsePath(rest));
      if ParsePath(rest).Some? {
        IndexIsWritten(text, digits, ParsePath(rest).value);
      }
    }
  }

  lemma ReferenceIsRead(text: string, reference: Reference)
    requires Refers(text, reference)
    ensures ParseReference(text) == Some(reference)
  {
    var n, rest := |reference.step|, text[|reference.step| + 1..];
    assert text[0] == ("$" + reference.step)[0];
    assert text[1..n + 1] == reference.step by { assert text[..n + 1] == "$" + reference.step; }
    AfterFirst(text, n);
    PathStarts(rest, reference.path);
    StepEnds(text[1..], n, rest);
    WrittenIsRead(rest, reference.path);
  }

  lemma StepEnds(s: string, n: nat, rest: string)
    requires n <= |s| && IsStepName(s[..n]) && s[n..] == rest
    requires rest == "" || rest[0] == '.' || rest[0] == '[' || rest[0] == '\n'
    ensures Span(s, StepChar) == n
  {
    assert forall i | 0 <= i < n :: s[i] == s[..n][i];
    assert n < |s| ==> s[n] == rest[0];
    SpanIs(s, StepChar, n);
  }

  lemma ReferenceWasWritten(text: string)
    requires ParseReference(text).Some?
    ensures Refers(text, ParseReference(text).value)
  {
    var n := Span(text[1..], StepChar);
    AfterFirst(text, n);
    var step, rest := text[1..n + 1], text[n + 1..];
    ReadIsWritten(rest);
    assert ParseReference(text) == Some(Reference(step, ParsePath(rest).value));
    assert text[..1] == "$" && IsStepName(step);
  }

  /** The pattern accepts exactly the texts that write a reference, and takes them apart as it was written. */
  lemma ReadExactlyWhenWritten(text: string, reference: Reference)
    ensures ParseReference(text) == Some(reference) <==> Refers(text, reference)
  {
    if Refers(text, reference) {
      ReferenceIsRead(text, reference);
    }
    if ParseReference(text) == Some(reference) {
      ReferenceWasWritten(text);
    }
  }

  // ------------------------------------------------------------------- reading values

  function FieldOf(v: Value, name: string): Value {
    if v.Obj? && name in v.fields then v.fields[name] else Null
  }

  /** A key reads a field, of an object or of each item of a list. */
  ghost predicate ReadsKey(v: Value, name: string, next: Value) {
    || (v.Obj? && next == FieldOf(v, name))
    || (v.List? && next.List? && |next.items| == |v.items|
        && forall i | 0 <= i < |v.items| :: next.items[i] == FieldOf(v.items[i], name))
  }

  /** `[*]` makes a list of anything: of nothing an empty one. */
  ghost predicate ReadsEvery(v: Value, next: Value) {
    next == if v.List? then v else if v == Null then List([]) else List([v])
  }

  /** An index reads an item of a list, or nothing past its end. */
  ghost predicate ReadsAt(v: Value, index: nat, next: Value) {
    v.List? && next == if index < |v.items| then v.items[index] else Null
  }

  ghost predicate Reads(v: Value, segment: Segment, next: Value) {
    match segment
    case Key(name) => ReadsKey(v, name, next)
    case Every => ReadsEvery(v, next)
    case At(index) => ReadsAt(v, index, next)
  }

  /** A path reads through one value after another. */
  ghost predicate Leads(v: Value, path: seq<Segment>, end: Value)
    decreases |path|
  {
    if path == [] then end == v else exists next :: Reads(v, path[0], next) && Leads(next, path[1..], end)
  }

  lemma MoveReads(v: Value, segment: Segment, next: Value)
    ensures Move(v, segment) == Ok(next) <==> Reads(v, segment, next)
  {
    if segment.Key? && v.List? && next.List? && |next.items| == |v.items| {
      assert (forall i | 0 <= i < |v.items| :: next.items[i] == FieldOf(v.items[i], segment.name)) ==>
          next.items == Move(v, segment).value.items;
    }
  }

  lemma {:induction false} WalkLeads(v: Value, path: seq<Segment>, end: Value)
    ensures Walk(v, path) == Ok(end) <==> Leads(v, path, end)
    decreases |path|
  {
    if path != [] {
      var moved := Move(v, path[0]);
      forall next ensures moved == Ok(next) <==> Reads(v, path[0], next) {
        MoveReads(v, path[0], next);
      }
      if moved.Ok? {
        WalkLeads(moved.value, path[1..], end);
      }
    }
  }

  /** A reference reads a value exactly when its step has an output and its path leads from there to the value. */
  lemma ResolvesExactlyWhen(text: string, outputs: map<string, Value>, end: Value)
    ensures Resolve(text, outputs) == Ok(end) <==>
            exists reference :: Refers(text, reference) && reference.step in outputs
              && Leads(outputs[reference.step], reference.path, end)
  {
    forall reference ensures ParseReference(text) == Some(reference) <==> Refers(text, reference) {
      ReadExactlyWhenWritten(text, reference);
    }
    if ParseReference(text).Some? && ParseReference(text).value.step in outputs {
      var reference := ParseReference(text).value;
      WalkLeads(outputs[reference.step], reference.path, end);
    }
  }

  // ------------------------------------------------------------------- bound lists

  /** What a binding puts into an argument: of a list, the items that are something, in order. */
  ghost predicate Bound(value: Value, bound: Value) {
    if value.List? then
      exists places: seq<nat> ::
        && Increasing(places, |value.items|) && Picks(value.items, places, bound)
        && forall i: nat | i < |value.items| :: value.items[i] != Null <==> i in places
    else bound == value
  }

  ghost predicate Increasing(places: seq<nat>, n: nat) {
    && (forall k | 0 <= k < |places| :: places[k] < n)
    && forall k, l | 0 <= k < l < |places| :: places[k] < places[l]
  }

  ghost predicate Picks(items: seq<Value>, places: seq<nat>, bound: Value) {
    && bound.List? && |bound.items| == |places|
    && forall k | 0 <= k < |places| :: places[k] < |items| && bound.items[k] == items[places[k]]
  }

  function Shifted(places: seq<nat>): (later: seq<nat>)
    ensures |later| == |places| && forall k | 0 <= k < |places| :: later[k] == places[k] + 1
  {
    seq(|places|, k requires 0 <= k < |places| => places[k] + 1)
  }

  lemma IsShifted(places: seq<nat>, i: nat)
    requires i > 0
    ensures i in Shifted(places) <==> i - 1 in places
  {
    if i - 1 in places {
      var k :| 0 <= k < |places| && places[k] == i - 1;
      assert Shifted(places)[k] == i;
    }
  }

  function WithFirst(first: Value, rest: seq<nat>): seq<nat> {
    (if first == Null then [] else [0]) + Shifted(rest)
  }

  lemma FirstIncreases(first: Value, rest: seq<nat>, n: nat)
    requires Increasing(rest, n)
    ensures Increasing(WithFirst(first, rest), n + 1)
  {
  }

  lemma FirstPicks(items: seq<Value>, rest: seq<nat>)
    requires items != [] && Picks(items[1..], rest, List(WithoutNulls(items[1..])))
    ensures Picks(items, WithFirst(items[0], rest), List(WithoutNulls(items)))
  {
    assert forall i | 0 <= i < |items| - 1 :: items[1..][i] == items[i + 1];
  }

  lemma {:induction false} WithoutNullsPicks(items: seq<Value>) returns (places: seq<nat>)
    ensures Increasing(places, |items|) && Picks(items, places, List(WithoutNulls(items)))
    ensures forall i: nat | i < |items| :: items[i] != Null <==> i in places
  {
    if items == [] {
      places := [];
    } else {
      var rest := WithoutNullsPicks(items[1..]);
      places := WithFirst(items[0], rest);
      FirstIncreases(items[0], rest, |items| - 1);
      FirstPicks(items, rest);
      forall i: nat | i < |items| ensures items[i] != Null <==> i in places {
        FirstIsPlaced(items, rest, i);
      }
    }
  }

  lemma FirstIsPlaced(items: seq<Value>, rest: seq<nat>, i: nat)
    requires i < |items| && forall j: nat | j < |items| - 1 :: items[1..][j] != Null <==> j in rest
    ensures items[i] != Null <==> i in WithFirst(items[0], rest)
  {
    if i > 0 {
      assert items[i] == items[1..][i - 1];
      IsShifted(rest, i);
    }
  }

  lemma BindingPicks(value: Value)
    ensures Bound(value, Cleaned(value))
  {
    if value.List? {
      var places := WithoutNullsPicks(value.items);
    }
  }
}
