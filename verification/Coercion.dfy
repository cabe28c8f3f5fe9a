/** Which arguments a tool accepts and what becomes of them (apps/api/app/gateway/spec.py, `validate_arguments` and
    `_coerce`), as a relation between the value given and the value kept. */
module Coercion {
  import opened Values
  import opened Text
  import opened Spec

  // ------------------------------------------------------------------- one value

  predicate Within(p: ParameterSpec, x: real) {
    !(p.minimum.Some? && x < p.minimum.value) && !(p.maximum.Some? && x > p.maximum.value)
  }

  predicate IsNumber(v: Value) {
    v.Int? || v.Num?
  }

  /** `short` is the text without the percent signs at its end. */
  ghost predicate WithoutPercents(text: string, short: string) {
    && short <= text && (forall i | |short| <= i < |text| :: text[i] == '%')
    && (short != "" ==> short[|short| - 1] != '%')
  }

  /** The text, stripped and without percent signs at its end, reads as this. */
  ghost predicate ReadsAs<T(!new)>(text: string, read: string -> Option<T>, n: T) {
    exists short :: WithoutPercents(Strip(text), short) && read(short) == Some(n)
  }

  ghost predicate MeansText(py: Python, p: ParameterSpec, v: Value, c: Value) {
    && (v.Str? || IsNumber(v)) && c == Str(Strip(if v.Str? then v.text else py.str(v)))
    && |c.text| <= p.maxLength
    && (p.allowed == [] || exists a | a in p.allowed :: py.lower(a) == py.lower(c.text))
  }

  ghost predicate MeansInteger(py: Python, p: ParameterSpec, v: Value, c: Value) {
    && c.Int? && Within(p, c.number as real)
    && (v == c || v == Num(c.number as real) || (v.Str? && ReadsAs(v.text, py.parseInt, c.number)))
  }

  ghost predicate MeansNumber(py: Python, p: ParameterSpec, v: Value, c: Value) {
    && c.Num? && Within(p, c.amount)
    && (v == c || (v.Int? && v.number as real == c.amount) || (v.Str? && ReadsAs(v.text, py.parseFloat, c.amount)))
  }

  ghost predicate Says(py: Python, v: Value, words: set<string>) {
    v.Str? && py.lower(Strip(v.text)) in words
  }

  const YES: set<string> := {"true", "yes", "1"}
  const NO: set<string> := {"false", "no", "0"}

  ghost predicate MeansBoolean(py: Python, v: Value, c: Value) {
    c.Bool? && (v == c || (if c.flag then Says(py, v, YES) else Says(py, v, NO)))
  }

  /** The stripped parts of a text between commas, without the blank ones. */
  ghost predicate IsListed(text: string, items: seq<Value>) {
    exists parts :: HasParts(text, parts) && items == Filled(parts)
  }

  ghost predicate HasParts(text: string, parts: seq<string>) {
    parts != [] && Join(",", parts) == text && forall part | part in parts :: ',' !in part
  }

  function Filled(parts: seq<string>): seq<Value> {
    if parts == [] then []
    else (if AllSpace(parts[0]) then [] else [Str(Strip(parts[0]))]) + Filled(parts[1..])
  }

  ghost predicate MeansItem(py: Python, p: ParameterSpec, item: Value, c: Value) {
    match p.itemKind
    case TextItems =>
      && (item.Str? || IsNumber(item)) && c.Str?
      && var text := Strip(if item.Str? then item.text else py.str(item));
        c.text <= text && |c.text| == (if |text| < 500 then |text| else 500)
    case ObjectItems => item.Obj? && c == item
    case AnyItems => c == item
  }

  ghost predicate MeansArray(py: Python, p: ParameterSpec, v: Value, c: Value) {
    && c.List? && |c.items| <= p.maxLength
    && exists given :: (v == List(given) || (v.Str? && IsListed(v.text, given))) && MeansItems(py, p, given, c.items)
  }

  ghost predicate MeansItems(py: Python, p: ParameterSpec, given: seq<Value>, items: seq<Value>) {
    |items| == |given| && forall i | 0 <= i < |items| :: MeansItem(py, p, given[i], items[i])
  }

  ghost predicate MeansObject(p: ParameterSpec, v: Value, c: Value) {
    && v.Obj? && c == v && |v.fields| <= p.maxLength
    && forall key | key in v.fields :: !AllSpace(key) && !v.fields[key].Obj? && !v.fields[key].List?
  }

  /** The value kept stands for the value given, and is of the parameter's type and within its limits. */
  ghost predicate Means(py: Python, p: ParameterSpec, v: Value, c: Value) {
    match p.kind
    case String => MeansText(py, p, v, c)
    case Integer => MeansInteger(py, p, v, c)
    case Number => MeansNumber(py, p, v, c)
    case Boolean => MeansBoolean(py, v, c)
    case Array => MeansArray(py, p, v, c)
    case Object => MeansObject(p, v, c)
    case Unsupported => false
  }

  // ------------------------------------------------------------------- texts of numbers and lists

  lemma {:induction false} PercentsDropped(text: string)
    ensures WithoutPercents(text, DropPercents(text))
  {
    if text != "" && text[|text| - 1] == '%' {
      PercentsDropped(text[..|text| - 1]);
    }
  }

  lemma LongerEndsInPercent(text: string, short: string, longer: string)
    requires WithoutPercents(text, short) && longer <= text && |longer| > |short|
    ensures longer[|longer| - 1] == '%'
  {
    assert longer[|longer| - 1] == text[|longer| - 1];
  }

  lemma OneWithout(text: string, a: string, b: string)
    requires WithoutPercents(text, a) && WithoutPercents(text, b)
    ensures a == b
  {
    if |a| < |b| {
      LongerEndsInPercent(text, a, b);
    } else if |b| < |a| {
      LongerEndsInPercent(text, b, a);
    }
  }

  lemma ReadsExactlyWhen<T(!new)>(text: string, read: string -> Option<T>, n: T)
    ensures ReadsAs(text, read, n) <==> read(DropPercents(Strip(text))) == Some(n)
  {
    PercentsDropped(Strip(text));
    forall short | WithoutPercents(Strip(text), short) ensures short == DropPercents(Strip(text)) {
      OneWithout(Strip(text), short, DropPercents(Strip(text)));
    }
  }

  lemma PartFirst(text: string, n: nat, rest: seq<string>)
    requires n < |text| && text[n] == ',' && rest != [] && Join(",", rest) == text[n + 1..]
    ensures Join(",", [text[..n]] + rest) == text
  {
    assert ([text[..n]] + rest)[1..] == rest;
    assert text == text[..n] + "," + text[n + 1..];
  }

  lemma FilledFirst(part: string, rest: seq<string>)
    ensures Filled([part] + rest) == (if AllSpace(part) then [] else [Str(Strip(part))]) + Filled(rest)
  {
    assert ([part] + rest)[1..] == rest;
  }

  lemma {:induction false} SplitIsListed(text: string) returns (parts: seq<string>)
    ensures HasParts(text, parts) && SplitList(text) == Filled(parts)
    decreases |text|
  {
    var n := CommaAt(text);
    StripEmpty(text[..n]);
    if n == |text| {
      parts := [text[..n]] + [];
      FilledFirst(text[..n], []);
      assert text[..n] == text && parts == [text];
    } else {
      var rest := SplitIsListed(text[n + 1..]);
      parts := [text[..n]] + rest;
      PartFirst(text, n, rest);
      FilledFirst(text[..n], rest);
    }
  }

  lemma {:induction false} CommaIsAt(part: string, rest: string)
    requires ',' !in part
    ensures CommaAt(part) == |part| && CommaAt(part + ("," + rest)) == |part|
    decreases |part|
  {
    var s := part + ("," + rest);
    if part == "" {
      assert s[0] == ',';
    } else {
      assert s[1..] == part[1..] + ("," + rest) && s[0] == part[0];
      CommaIsAt(part[1..], rest);
    }
  }

  lemma {:induction false} ListedIsSplit(text: string, parts: seq<string>)
    requires HasParts(text, parts)
    ensures SplitList(text) == Filled(parts)
    decreases |parts|
  {
    var part, rest := parts[0], parts[1..];
    assert part in parts;
    StripEmpty(part);
    if rest == [] {
      CommaIsAt(part, "");
      assert part[..|part|] == part && Filled(rest) == [];
    } else {
      var more := Join(",", rest);
      assert text == part + ("," + more);
      CommaIsAt(part, more);
      assert text[..|part|] == part && text[|part| + 1..] == more;
      ListedIsSplit(more, rest);
    }
  }

  lemma ListedExactlyWhen(text: string, items: seq<Value>)
    ensures IsListed(text, items) <==> items == SplitList(text)
  {
    var parts := SplitIsListed(text);
    forall others | HasParts(text, others) ensures Filled(others) == SplitList(text) {
      ListedIsSplit(text, others);
    }
  }

  // ------------------------------------------------------------------- coercion

  lemma IntegerMeans(py: Python, p: ParameterSpec, v: Value, c: Value)
    ensures CoerceInteger(py, p, v) == Ok(c) <==> MeansInteger(py, p, v, c)
  {
    if v.Str? && c.Int? {
      ReadsExactlyWhen(v.text, py.parseInt, c.number);
    }
  }

  lemma NumberMeans(py: Python, p: ParameterSpec, v: Value, c: Value)
    ensures CoerceNumber(py, p, v) == Ok(c) <==> MeansNumber(py, p, v, c)
  {
    if v.Str? && c.Num? {
      ReadsExactlyWhen(v.text, py.parseFloat, c.amount);
    }
  }

  lemma BooleanMeans(py: Python, p: ParameterSpec, v: Value, c: Value)
    ensures CoerceBoolean(py, p, v) == Ok(c) <==> MeansBoolean(py, v, c)
  {
  }

  lemma TextMeans(py: Python, p: ParameterSpec, v: Value, c: Value)
    ensures CoerceText(py, p, v) == Ok(c) <==> MeansText(py, p, v, c)
  {
    if v.Str? || IsNumber(v) {
      var text := Strip(py.TextOf(v));
      if OneOf(py, text, p.allowed) {
        var i :| 0 <= i < |p.allowed| && py.lower(text) == py.lower(p.allowed[i]);
        assert p.allowed[i] in p.allowed;
      }
      if a :| a in p.allowed && py.lower(a) == py.lower(text) {
        var i :| 0 <= i < |p.allowed| && p.allowed[i] == a;
      }
    }
  }

  lemma ItemMeans(py: Python, p: ParameterSpec, item: Value, c: Value)
    ensures CoerceItem(py, p, item) == Ok(c) <==> MeansItem(py, p, item, c)
  {
    if c.Str? {
      CutExactlyWhen(Strip(py.TextOf(item)), c.text);
    }
  }

  lemma CutExactlyWhen(text: string, cut: string)
    ensures cut == Cut(text) <==> cut <= text && |cut| == if |text| < 500 then |text| else 500
  {
    if cut <= text {
      assert cut == text[..|cut|];
    }
  }

  lemma ItemsMean(py: Python, p: ParameterSpec, given: seq<Value>, items: seq<Value>)
    ensures CoerceItems(py, p, given) == Ok(items) <==> MeansItems(py, p, given, items)
  {
    ItemsOneByOne(py, p, given, items);
    forall i | 0 <= i < |items| && i < |given|
      ensures CoerceItem(py, p, given[i]) == Ok(items[i]) <==> MeansItem(py, p, given[i], items[i])
    {
      ItemMeans(py, p, given[i], items[i]);
    }
  }

  lemma ArrayMeans(py: Python, p: ParameterSpec, v: Value, c: Value)
    ensures CoerceArraySpec(py, p, v) == Ok(c) <==> MeansArray(py, p, v, c)
  {
    if c.List? {
      forall given ensures (v == List(given) || (v.Str? && IsListed(v.text, given))) <==> ItemsOf(v) == Some(given) {
        if v.Str? {
          ListedExactlyWhen(v.text, given);
        }
      }
      if ItemsOf(v).Some? {
        ItemsMean(py, p, ItemsOf(v).value, c.items);
      }
    }
  }

  /** A value is accepted as another exactly when that is what it means. */
  lemma CoercionMeans(py: Python, p: ParameterSpec, v: Value, c: Value)
    ensures Coerce(py, p, v) == Ok(c) <==> Means(py, p, v, c)
  {
    match p.kind
    case String => TextMeans(py, p, v, c);
    case Integer => IntegerMeans(py, p, v, c);
    case Number => NumberMeans(py, p, v, c);
    case Boolean => BooleanMeans(py, p, v, c);
    case Array => ArrayMeans(py, p, v, c);
    case Object =>
    case Unsupported =>
  }

  // ------------------------------------------------------------------- all arguments

  /** What is kept for a parameter: nothing for a value that is missing, null or empty and need not be there. */
  ghost predicate KeptFor(py: Python, p: ParameterSpec, supplied: Args, kept: Args) {
    var v := if p.name in supplied then supplied[p.name] else p.default;
    if v == Null || v == Str("") then !p.required && p.name !in kept
    else p.name in kept && Means(py, p, v, kept[p.name])
  }

  /** Validation accepts a call, with these arguments, exactly when it names no unknown parameter and they are what the
      given ones, or the defaults, mean. */
  lemma ValidationMeans(py: Python, params: seq<ParameterSpec>, supplied: Args, kept: Args)
    requires UniqueNames(params)
    ensures Validate(py, params, supplied) == Ok(kept) <==>
            && (forall name | name in supplied :: exists i | 0 <= i < |params| :: params[i].name == name)
            && (forall name | name in kept :: exists i | 0 <= i < |params| :: params[i].name == name)
            && forall i | 0 <= i < |params| :: KeptFor(py, params[i], supplied, kept)
  {
    CollectMeaning(py, params, supplied, map[]);
    forall i | 0 <= i < |params|
      ensures Entry(py, params[i], supplied).Ok? && Has(kept, params[i].name, Entry(py, params[i], supplied).value) <==>
              KeptFor(py, params[i], supplied, kept)
    {
      EntryMeans(py, params[i], supplied, kept);
    }
    if (forall i | 0 <= i < |params| :: KeptFor(py, params[i], supplied, kept))
        && forall name | name in kept :: Known(params, name) {
      KeptIsCollected(py, params, supplied, kept);
    }
  }

  lemma EntryMeans(py: Python, p: ParameterSpec, supplied: Args, kept: Args)
    ensures Entry(py, p, supplied).Ok? && Has(kept, p.name, Entry(py, p, supplied).value) <==>
            KeptFor(py, p, supplied, kept)
  {
    var v := Supplied(p, supplied);
    if !Absent(v) {
      if p.name in kept {
        CoercionMeans(py, p, v, kept[p.name]);
      }
    }
  }

  lemma SameWhereKnown(params: seq<ParameterSpec>, entries: seq<Option<Value>>, one: Args, two: Args, name: string)
    requires |entries| == |params| && Known(params, name)
    requires forall i | 0 <= i < |params| :: Has(one, params[i].name, entries[i])
    requires forall i | 0 <= i < |params| :: Has(two, params[i].name, entries[i])
    ensures (name in one <==> name in two) && (name in one ==> one[name] == two[name])
  {
    var i :| 0 <= i < |params| && params[i].name == name;
    assert Has(one, params[i].name, entries[i]) && Has(two, params[i].name, entries[i]);
  }

  /** The validated arguments are determined by what each parameter adds. */
  lemma SameArguments(params: seq<ParameterSpec>, entries: seq<Option<Value>>, one: Args, two: Args)
    requires |entries| == |params|
    requires forall i | 0 <= i < |params| :: Has(one, params[i].name, entries[i])
    requires forall i | 0 <= i < |params| :: Has(two, params[i].name, entries[i])
    requires (forall name | name in one :: Known(params, name)) && forall name | name in two :: Known(params, name)
    ensures one == two
  {
    forall name ensures (name in one <==> name in two) && (name in one ==> one[name] == two[name]) {
      if Known(params, name) {
        SameWhereKnown(params, entries, one, two, name);
      }
    }
  }

  lemma KeptIsCollected(py: Python, params: seq<ParameterSpec>, supplied: Args, kept: Args)
    requires UniqueNames(params)
    requires forall i | 0 <= i < |params| :: Entry(py, params[i], supplied).Ok?
    requires forall i | 0 <= i < |params| :: Has(kept, params[i].name, Entry(py, params[i], supplied).value)
    requires forall name | name in kept :: Known(params, name)
    ensures Collect(py, params, supplied, map[]) == Ok(kept)
  {
    CollectMeaning(py, params, supplied, map[]);
    var entries := seq(|params|, i requires 0 <= i < |params| => Entry(py, params[i], supplied).value);
    SameArguments(params, entries, Collect(py, params, supplied, map[]).value, kept);
  }
}
