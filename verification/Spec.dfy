/** Tool specifications and their closed argument schemas (apps/api/app/gateway/spec.py). */
module Spec {
  import opened Values
  import opened Text

  const ITEM_CHARS: nat := 500

  datatype Risk = Read | Write | HighRisk

  datatype Kind = String | Integer | Number | Boolean | Array | Object | Unsupported

  datatype ItemKind = TextItems | ObjectItems | AnyItems

  datatype ParameterSpec = ParameterSpec(
    name: string,
    kind: Kind,
    required: bool,
    allowed: seq<string>,
    minimum: Option<real>,
    maximum: Option<real>,
    maxLength: nat,
    itemKind: ItemKind,
    default: Value)

  datatype ArgumentError = UnknownArguments | MissingArgument(name: string) | BadValue(name: string)

  /** What Python's own conversions give: `str`, `str.lower`, `int` and `float` of a text. */
  datatype Python = Python(
    str: Value -> string,
    lower: string -> string,
    parseInt: string -> Option<int>,
    parseFloat: string -> Option<real>)
  {
    function TextOf(v: Value): string {
      if v.Str? then v.text else str(v)
    }
  }

  /** Conversions of a Python that reads no numbers. */
  function PlainPython(): Python {
    Python(_ => "", s => s, _ => None, _ => None)
  }

  // ---------------------------------------------------------------- coercion

  predicate InBounds(p: ParameterSpec, x: real) {
    && (p.minimum.Some? ==> p.minimum.value <= x)
    && (p.maximum.Some? ==> x <= p.maximum.value)
  }

  function DropPercents(s: string): string {
    if s == "" || s[|s| - 1] != '%' then s else DropPercents(s[..|s| - 1])
  }

  predicate OneOf(py: Python, text: string, allowed: seq<string>) {
    exists i | 0 <= i < |allowed| :: py.lower(text) == py.lower(allowed[i])
  }

  function CoerceText(py: Python, p: ParameterSpec, v: Value): Result<Value, ArgumentError> {
    if !(v.Str? || v.Int? || v.Num?) then Err(BadValue(p.name))
    else
      var text := Strip(py.TextOf(v));
      if |text| > p.maxLength then Err(BadValue(p.name))
      else if p.allowed != [] && !OneOf(py, text, p.allowed) then Err(BadValue(p.name))
      else Ok(Str(text))
  }

  function CoerceInteger(py: Python, p: ParameterSpec, v: Value): Result<Value, ArgumentError> {
    var number: Option<int> :=
      match v
      case Str(text) => py.parseInt(DropPercents(Strip(text)))
      case Num(x) => if x.Floor as real == x then Some(x.Floor) else None
      case Int(n) => Some(n)
      case _ => None;
    if number.None? || !InBounds(p, number.value as real) then Err(BadValue(p.name)) else Ok(Int(number.value))
  }

  function CoerceNumber(py: Python, p: ParameterSpec, v: Value): Result<Value, ArgumentError> {
    var number: Option<real> :=
      match v
      case Str(text) => py.parseFloat(DropPercents(Strip(text)))
      case Num(x) => Some(x)
      case Int(n) => Some(n as real)
      case _ => None;
    if number.None? || !InBounds(p, number.value) then Err(BadValue(p.name)) else Ok(Num(number.value))
  }

  function CoerceBoolean(py: Python, p: ParameterSpec, v: Value): Result<Value, ArgumentError> {
    if v.Bool? then Ok(v)
    else if v.Str? && py.lower(Strip(v.text)) in ["true", "yes", "1"] then Ok(Bool(true))
    else if v.Str? && py.lower(Strip(v.text)) in ["false", "no", "0"] then Ok(Bool(false))
    else Err(BadValue(p.name))
  }

  /** `[item.strip() for item in text.split(",") if item.strip()]`. */
  function SplitList(text: string): seq<Value> {
    var n := CommaAt(text);
    var head := Strip(text[..n]);
    (if head == "" then [] else [Str(head)]) + (if n == |text| then [] else SplitList(text[n + 1..]))
  }

  function CommaAt(text: string): (n: nat)
    ensures n <= |text| && ',' !in text[..n] && (n < |text| ==> text[n] == ',')
  {
    if text == "" || text[0] == ',' then 0
    else
      var n := CommaAt(text[1..]);
      assert text[..1 + n] == [text[0]] + text[1..][..n];
      1 + n
  }

  function Cut(text: string): string {
    Clip(text, ITEM_CHARS)
  }

  function CoerceItem(py: Python, p: ParameterSpec, item: Value): Result<Value, ArgumentError> {
    match p.itemKind
    case TextItems => if item.Str? || item.Int? || item.Num? then Ok(Str(Cut(Strip(py.TextOf(item)))))
        else Err(BadValue(p.name))
    case ObjectItems => if item.Obj? then Ok(item) else Err(BadValue(p.name))
    case AnyItems => Ok(item)
  }

  function CoerceItems(py: Python, p: ParameterSpec, items: seq<Value>): Result<seq<Value>, ArgumentError> {
    if items == [] then Ok([])
    else
      match CoerceItems(py, p, items[..|items| - 1])
      case Err(e) => Err(e)
      case Ok(front) =>
        match CoerceItem(py, p, items[|items| - 1])
        case Err(e) => Err(e)
        case Ok(last) => Ok(front + [last])
  }

  function ItemsOf(v: Value): Option<seq<Value>> {
    if v.Str? then Some(SplitList(v.text)) else if v.List? then Some(v.items) else None
  }

  function CoerceArraySpec(py: Python, p: ParameterSpec, v: Value): Result<Value, ArgumentError> {
    var items := ItemsOf(v);
    if items.None? || |items.value| > p.maxLength then Err(BadValue(p.name))
    else
      match CoerceItems(py, p, items.value)
      case Err(e) => Err(e)
      case Ok(coerced) => Ok(List(coerced))
  }

  predicate FlatEntry(key: string, item: Value) {
    !AllSpace(key) && !item.Obj? && !item.List?
  }

  function CoerceObjectSpec(p: ParameterSpec, v: Value): Result<Value, ArgumentError> {
    if v.Obj? && |v.fields| <= p.maxLength && forall key | key in v.fields :: FlatEntry(key, v.fields[key]) then Ok(v)
    else Err(BadValue(p.name))
  }

  function Coerce(py: Python, p: ParameterSpec, v: Value): Result<Value, ArgumentError> {
    match p.kind
    case String => CoerceText(py, p, v)
    case Integer => CoerceInteger(py, p, v)
    case Number => CoerceNumber(py, p, v)
    case Boolean => CoerceBoolean(py, p, v)
    case Array => CoerceArraySpec(py, p, v)
    case Object => CoerceObjectSpec(p, v)
    case Unsupported => Err(BadValue(p.name))
  }

  method CoerceArray(py: Python, p: ParameterSpec, v: Value) returns (r: Result<Value, ArgumentError>)
    ensures r == CoerceArraySpec(py, p, v)
  {
    var given := ItemsOf(v);
    if given.None? || |given.value| > p.maxLength {
      return Err(BadValue(p.name));
    }
    var all := given.value;
    var items: seq<Value> := [];
    for i := 0 to |all|
      invariant CoerceItems(py, p, all[..i]) == Ok(items)
    {
      OneMoreItem(py, p, all, i, items);
      var item := CoerceItem(py, p, all[i]);
      if item.Err? {
        FailedPrefix(py, p, all, i + 1);
        return Err(item.error);
      }
      items := items + [item.value];
    }
    assert all[..|all|] == all;
    return Ok(List(items));
  }

  lemma OneMoreItem(py: Python, p: ParameterSpec, all: seq<Value>, i: nat, items: seq<Value>)
    requires i < |all| && CoerceItems(py, p, all[..i]) == Ok(items)
    ensures var item := CoerceItem(py, p, all[i]);
            CoerceItems(py, p, all[..i + 1]) == if item.Err? then Err(item.error) else Ok(items + [item.value])
  {
    assert all[..i + 1][..i] == all[..i];
  }

  lemma {:induction false} FailedPrefix(py: Python, p: ParameterSpec, all: seq<Value>, k: nat)
    requires k <= |all| && CoerceItems(py, p, all[..k]).Err?
    ensures CoerceItems(py, p, all) == CoerceItems(py, p, all[..k])
    decreases |all| - k
  {
    if k < |all| {
      assert all[..k + 1][..k] == all[..k];
      FailedPrefix(py, p, all, k + 1);
    } else {
      assert all[..k] == all;
    }
  }

  method CoerceObject(p: ParameterSpec, v: Value) returns (r: Result<Value, ArgumentError>)
    ensures r == CoerceObjectSpec(p, v)
  {
    if !v.Obj? || |v.fields| > p.maxLength {
      return Err(BadValue(p.name));
    }
    var result: Args := map[];
    var left := v.fields.Keys;
    while left != {}
      invariant left <= v.fields.Keys
      invariant result.Keys == v.fields.Keys - left
      invariant forall key | key in result :: result[key] == v.fields[key] && FlatEntry(key, result[key])
    {
      var key :| key in left;
      left := left - {key};
      if !FlatEntry(key, v.fields[key]) {
        return Err(BadValue(p.name));
      }
      result := result[key := v.fields[key]];
    }
    assert result == v.fields;
    return Ok(Obj(result));
  }

  method CoerceValue(py: Python, p: ParameterSpec, v: Value) returns (r: Result<Value, ArgumentError>)
    ensures r == Coerce(py, p, v)
  {
    match p.kind
    case Array => r := CoerceArray(py, p, v);
    case Object => r := CoerceObject(p, v);
    case _ => r := Coerce(py, p, v);
  }

  // -------------------------------------------------------------- validation

  /** `value is None or value == ""`. */
  predicate Absent(v: Value) {
    v == Null || v == Str("")
  }

  function Supplied(p: ParameterSpec, supplied: Args): Value {
    if p.name in supplied then supplied[p.name] else p.default
  }

  /** What one parameter adds to the validated arguments. */
  function Entry(py: Python, p: ParameterSpec, supplied: Args): Result<Option<Value>, ArgumentError> {
    var v := Supplied(p, supplied);
    if Absent(v) then (if p.required then Err(MissingArgument(p.name)) else Ok(None))
    else
      match Coerce(py, p, v)
      case Err(e) => Err(e)
      case Ok(c) => Ok(Some(c))
  }

  function Collect(py: Python, params: seq<ParameterSpec>, supplied: Args, result: Args): Result<Args, ArgumentError>
    decreases |params|
  {
    if params == [] then Ok(result)
    else
      match Entry(py, params[0], supplied)
      case Err(e) => Err(e)
      case Ok(None) => Collect(py, params[1..], supplied, result)
      case Ok(Some(c)) => Collect(py, params[1..], supplied, result[params[0].name := c])
  }

  predicate Known(params: seq<ParameterSpec>, name: string) {
    exists i | 0 <= i < |params| :: params[i].name == name
  }

  function Validate(py: Python, params: seq<ParameterSpec>, supplied: Args): Result<Args, ArgumentError> {
    if exists name | name in supplied :: !Known(params, name) then Err(UnknownArguments)
    else Collect(py, params, supplied, map[])
  }

  method ValidateArguments(py: Python, params: seq<ParameterSpec>, supplied: Args)
      returns (r: Result<Args, ArgumentError>)
    ensures r == Validate(py, params, supplied)
  {
    if exists name | name in supplied :: !Known(params, name) {
      return Err(UnknownArguments);
    }
    var result: Args := map[];
    for i := 0 to |params|
      invariant Collect(py, params, supplied, map[]) == Collect(py, params[i..], supplied, result)
    {
      var p := params[i];
      assert params[i..][0] == p && params[i..][1..] == params[i + 1..];
      var value := if p.name in supplied then supplied[p.name] else p.default;
      if Absent(value) {
        if p.required {
          return Err(MissingArgument(p.name));
        }
      } else {
        var coerced := CoerceValue(py, p, value);
        if coerced.Err? {
          return Err(coerced.error);
        }
        result := result[p.name := coerced.value];
      }
    }
    return Ok(result);
  }

  predicate UniqueNames(params: seq<ParameterSpec>) {
    forall i, j | 0 <= i < j < |params| :: params[i].name != params[j].name
  }

  /** The arguments hold what the parameter adds to them. */
  predicate Has(arguments: Args, name: string, entry: Option<Value>) {
    if entry.Some? then name in arguments && arguments[name] == entry.value else name !in arguments
  }

  /** Validation succeeds exactly when every parameter does, and gives each parameter its own entry. */
  lemma {:induction false} CollectMeaning(py: Python, params: seq<ParameterSpec>, supplied: Args, result: Args)
    requires UniqueNames(params)
    requires forall i | 0 <= i < |params| :: params[i].name !in result
    ensures var r := Collect(py, params, supplied, result);
            && (r.Ok? <==> forall i | 0 <= i < |params| :: Entry(py, params[i], supplied).Ok?)
            && (r.Ok? ==>
                  && (forall i | 0 <= i < |params| ::
                      Has(r.value, params[i].name, Entry(py, params[i], supplied).value))
                  && (forall name | name in r.value :: name in result || Known(params, name))
                  && (forall name | name in result :: name in r.value && r.value[name] == result[name]))
    decreases |params|
  {
    if params != [] {
      var p, rest := params[0], params[1..];
      FirstAndRest(params);
      var e := Entry(py, p, supplied);
      if e.Ok? {
        var next := if e.value.Some? then result[p.name := e.value.value] else result;
        CollectMeaning(py, rest, supplied, next);
        var r := Collect(py, rest, supplied, next);
        assert Collect(py, params, supplied, result) == r;
        if r.Ok? {
          FirstKept(rest, p.name, e.value, result, next, r.value);
        }
      }
    }
  }

  lemma FirstAndRest(params: seq<ParameterSpec>)
    requires params != [] && UniqueNames(params)
    ensures UniqueNames(params[1..]) && !Known(params[1..], params[0].name)
    ensures forall name :: Known(params, name) <==> params[0].name == name || Known(params[1..], name)
    ensures forall i | 1 <= i < |params| :: params[i] == params[1..][i - 1]
  {
    var rest := params[1..];
    assert forall i | 0 <= i < |rest| :: rest[i] == params[i + 1];
    forall name ensures Known(params, name) <==> params[0].name == name || Known(rest, name) {
      if Known(rest, name) {
        var i :| 0 <= i < |rest| && rest[i].name == name;
        assert params[i + 1].name == name;
      }
    }
  }

  /** What the first parameter adds is not touched by the others. */
  lemma FirstKept(rest: seq<ParameterSpec>, name: string, entry: Option<Value>, result: Args, next: Args, r: Args)
    requires next == (if entry.Some? then result[name := entry.value] else result)
    requires name !in result && !Known(rest, name)
    requires forall other | other in r :: other in next || Known(rest, other)
    requires forall other | other in next :: other in r && r[other] == next[other]
    ensures Has(r, name, entry)
  {
  }

  // -------------------------------------------------------------- idempotence

  /** A text item that is cut at the limit right after whitespace loses that whitespace when read again. */
  predicate CutAfterSpace(text: string) {
    |text| > ITEM_CHARS && IsSpace(text[ITEM_CHARS - 1])
  }

  /** Whether the validated value of a parameter survives being validated again, told from the value given. */
  predicate Settles(py: Python, p: ParameterSpec, v: Value) {
    if Absent(v) then Absent(p.default)
    else
      && (p.kind.String? ==> !AllSpace(py.TextOf(v)))
      && (p.kind.Array? && p.itemKind.TextItems? && ItemsOf(v).Some? ==>
            forall item | item in ItemsOf(v).value :: !CutAfterSpace(Strip(py.TextOf(item))))
  }

  lemma CutAgain(text: string)
    requires Trimmed(text)
    ensures Cut(Strip(Cut(text))) == Cut(text) <==> !CutAfterSpace(text)
  {
    var cut := Cut(text);
    if CutAfterSpace(text) {
      StripKeepsText(cut);
      assert cut[|cut| - 1] == text[ITEM_CHARS - 1];
    } else {
      StripTrimmed(cut);
    }
  }

  /** Coercing a list is coercing each item. */
  lemma {:induction false} ItemsOneByOne(py: Python, p: ParameterSpec, items: seq<Value>, c: seq<Value>)
    ensures CoerceItems(py, p, items) == Ok(c) <==>
            |c| == |items| && forall i | 0 <= i < |items| :: CoerceItem(py, p, items[i]) == Ok(c[i])
  {
    if items == [] {
    } else if c == [] {
      assert forall front, last :: front + [last] != c;
    } else {
      var n := |items| - 1;
      var front, last := c[..|c| - 1], c[|c| - 1];
      assert c == front + [last];
      ItemsOneByOne(py, p, items[..n], front);
      var f := CoerceItems(py, p, items[..n]);
      var l := CoerceItem(py, p, items[n]);
      if f.Ok? && l.Ok? {
        assert (f.value + [l.value])[..|f.value|] == f.value;
        assert f.value + [l.value] == c <==> f.value == front && l.value == last;
      }
      assert CoerceItems(py, p, items) == Ok(c) <==> f == Ok(front) && l == Ok(last);
    }
  }

  lemma ItemAgain(py: Python, p: ParameterSpec, item: Value)
    requires CoerceItem(py, p, item).Ok?
    ensures var c := CoerceItem(py, p, item).value;
            CoerceItem(py, p, c) == Ok(c) <==> (p.itemKind.TextItems? ==> !CutAfterSpace(Strip(py.TextOf(item))))
  {
    StripKeepsText(py.TextOf(item));
    CutAgain(Strip(py.TextOf(item)));
  }

  lemma ItemsAgain(py: Python, p: ParameterSpec, items: seq<Value>)
    requires CoerceItems(py, p, items).Ok?
    ensures var c := CoerceItems(py, p, items).value;
            && |c| == |items|
            && (CoerceItems(py, p, c) == Ok(c) <==>
                  (p.itemKind.TextItems? ==> forall item | item in items :: !CutAfterSpace(Strip(py.TextOf(item)))))
  {
    var c := CoerceItems(py, p, items).value;
    ItemsOneByOne(py, p, items, c);
    ItemsOneByOne(py, p, c, c);
    forall i | 0 <= i < |items|
      ensures CoerceItem(py, p, c[i]) == Ok(c[i]) <==>
              (p.itemKind.TextItems? ==> !CutAfterSpace(Strip(py.TextOf(items[i]))))
    {
      ItemAgain(py, p, items[i]);
    }
  }

  /** One parameter: its validated value is kept by a second validation exactly when it settles. */
  lemma CoerceAgain(py: Python, p: ParameterSpec, v: Value)
    requires !Absent(v) && Coerce(py, p, v).Ok?
    ensures var c := Coerce(py, p, v).value;
            !Absent(c) && Coerce(py, p, c) == Ok(c) <==> Settles(py, p, v)
  {
    if p.kind.String? {
      TextAgain(py, p, v);
    } else if p.kind.Array? {
      ItemsAgain(py, p, ItemsOf(v).value);
      ListAgain(py, p, v);
    } else {
      ScalarAgain(py, p, v);
    }
  }

  lemma ListAgain(py: Python, p: ParameterSpec, v: Value)
    requires CoerceArraySpec(py, p, v).Ok? && p.kind.Array?
    requires var items := ItemsOf(v).value;
             CoerceItems(py, p, items).Ok? && |CoerceItems(py, p, items).value| == |items|
    ensures var c := CoerceItems(py, p, ItemsOf(v).value).value;
            && CoerceArraySpec(py, p, v) == Ok(List(c)) && !Absent(List(c))
            && (Coerce(py, p, List(c)) == Ok(List(c)) <==> CoerceItems(py, p, c) == Ok(c))
  {
  }

  lemma ScalarAgain(py: Python, p: ParameterSpec, v: Value)
    requires Coerce(py, p, v).Ok? && !p.kind.String? && !p.kind.Array?
    ensures var c := Coerce(py, p, v).value; !Absent(c) && Coerce(py, p, c) == Ok(c)
  {
    if p.kind.Boolean? {
      BooleanAgain(py, p, v);
    }
  }

  lemma BooleanAgain(py: Python, p: ParameterSpec, v: Value)
    requires CoerceBoolean(py, p, v).Ok?
    ensures var c := CoerceBoolean(py, p, v).value; c.Bool? && CoerceBoolean(py, p, c) == Ok(c)
  {
  }

  lemma TextAgain(py: Python, p: ParameterSpec, v: Value)
    requires CoerceText(py, p, v).Ok?
    ensures var c := CoerceText(py, p, v).value;
            (c == Str("") <==> AllSpace(py.TextOf(v))) && CoerceText(py, p, c) == Ok(c)
  {
    var s := Strip(py.TextOf(v));
    assert Strip(s) == s by {
      StripKeepsText(py.TextOf(v));
      StripTrimmed(s);
    }
    StripEmpty(py.TextOf(v));
    assert CoerceText(py, p, v) == Ok(Str(s));
    assert py.TextOf(Str(s)) == s;
  }

  /** Validating a validated call again succeeds unchanged exactly when every parameter settles:
      an absent value has no default to come back as, no text is all whitespace, and no array
      text is cut right after whitespace. */
  lemma ValidationIsIdempotent(py: Python, params: seq<ParameterSpec>, supplied: Args)
    requires UniqueNames(params)
    requires Validate(py, params, supplied).Ok?
    ensures var r := Validate(py, params, supplied).value;
            Validate(py, params, r) == Ok(r) <==>
            forall i | 0 <= i < |params| :: Settles(py, params[i], Supplied(params[i], supplied))
  {
    var r := Validate(py, params, supplied).value;
    CollectMeaning(py, params, supplied, map[]);
    forall i | 0 <= i < |params|
      ensures Keeps(py, params[i], r) <==> Settles(py, params[i], Supplied(params[i], supplied))
    {
      EntryAgain(py, params[i], supplied, r);
    }
    KeptExactlyWhen(py, params, r);
  }

  /** Arguments that hold known parameters only are their own validation exactly when it keeps each parameter. */
  lemma KeptExactlyWhen(py: Python, params: seq<ParameterSpec>, r: Args)
    requires UniqueNames(params) && forall name | name in r :: Known(params, name)
    ensures Validate(py, params, r) == Ok(r) <==> forall i | 0 <= i < |params| :: Keeps(py, params[i], r)
  {
    CollectMeaning(py, params, r, map[]);
    if forall i | 0 <= i < |params| :: Keeps(py, params[i], r) {
      AllKept(py, params, r);
    } else {
      var i :| 0 <= i < |params| && !Keeps(py, params[i], r);
      assert Validate(py, params, r).Ok? ==> Entry(py, params[i], r).Ok?;
    }
  }

  lemma AllKept(py: Python, params: seq<ParameterSpec>, r: Args)
    requires UniqueNames(params) && forall name | name in r :: Known(params, name)
    requires forall i | 0 <= i < |params| :: Keeps(py, params[i], r)
    ensures Validate(py, params, r) == Ok(r)
  {
    CollectMeaning(py, params, r, map[]);
    var again := Validate(py, params, r).value;
    forall name | name in r ensures name in again && again[name] == r[name] {
      var i :| 0 <= i < |params| && params[i].name == name;
      assert Keeps(py, params[i], r);
    }
    forall name | name in again ensures name in r {
      var i :| 0 <= i < |params| && params[i].name == name;
      assert Keeps(py, params[i], r);
    }
    assert again == r;
  }

  /** The second validation gives this parameter the entry the first one gave. */
  predicate Keeps(py: Python, p: ParameterSpec, r: Args) {
    Entry(py, p, r) == Ok(if p.name in r then Some(r[p.name]) else None)
  }

  lemma EntryAgain(py: Python, p: ParameterSpec, supplied: Args, r: Args)
    requires var e := Entry(py, p, supplied);
             && e.Ok?
             && (if e.value.Some? then p.name in r && r[p.name] == e.value.value else p.name !in r)
    ensures Keeps(py, p, r) <==> Settles(py, p, Supplied(p, supplied))
  {
    var v := Supplied(p, supplied);
    if Absent(v) {
      assert p.name !in r && Supplied(p, r) == p.default;
    } else {
      CoerceAgain(py, p, v);
    }
  }

  /** The condition in the caller's terms: no null or blank value or default, and short array texts. */
  lemma PlainCallsSettle(py: Python, params: seq<ParameterSpec>, supplied: Args)
    requires UniqueNames(params)
    requires Validate(py, params, supplied).Ok?
    requires forall i | 0 <= i < |params| :: Plain(py, params[i], Supplied(params[i], supplied))
    ensures Validate(py, params, Validate(py, params, supplied).value) == Validate(py, params, supplied)
  {
    ValidationIsIdempotent(py, params, supplied);
  }

  predicate Plain(py: Python, p: ParameterSpec, v: Value) {
    && (Absent(v) ==> v == p.default)
    && (p.kind.String? ==> !AllSpace(py.TextOf(v)))
    && (p.kind.Array? && ItemsOf(v).Some? ==> forall item | item in ItemsOf(v).value ::
        |Strip(py.TextOf(item))| <= ITEM_CHARS)
  }

  /** An explicit null is taken as "not given" once, and as the default the next time. */
  lemma NullComesBackAsDefault(py: Python)
    ensures var p := ParameterSpec("limit", Integer, false, [], None, None, 500, TextItems, Int(10));
            && Validate(py, [p], map["limit" := Null]) == Ok(map[])
            && Validate(py, [p], map[]) == Ok(map["limit" := Int(10)])
  {
    var p := ParameterSpec("limit", Integer, false, [], None, None, 500, TextItems, Int(10));
    var given: Args := map["limit" := Null];
    assert [p][0].name == "limit";
    assert [p][1..] == [];
    assert Entry(py, p, given) == Ok(None);
    assert Entry(py, p, map[]) == Ok(Some(Int(10)));
    assert Collect(py, [p], given, map[]) == Collect(py, [], given, map[]);
    assert Collect(py, [p], map[], map[]) == Collect(py, [], map[], map["limit" := Int(10)]);
  }

  /** A blank text is taken as an empty one, and the next time as "not given". */
  lemma BlankIsDroppedNext(py: Python)
    ensures var p := ParameterSpec("note", String, false, [], None, None, 500, TextItems, Null);
            && Validate(py, [p], map["note" := Str(" ")]) == Ok(map["note" := Str("")])
            && Validate(py, [p], map["note" := Str("")]) == Ok(map[])
  {
    var p := ParameterSpec("note", String, false, [], None, None, 500, TextItems, Null);
    assert [p][0].name == "note" && [p][1..] == [];
    assert Strip(" ") == "";
    assert Entry(py, p, map["note" := Str(" ")]) == Ok(Some(Str("")));
    assert Entry(py, p, map["note" := Str("")]) == Ok(None);
    var given: Args := map["note" := Str(" ")];
    assert Collect(py, [p], given, map[]) == Collect(py, [], given, map["note" := Str("")]);
    var again: Args := map["note" := Str("")];
    assert Collect(py, [p], again, map[]) == Collect(py, [], again, map[]);
  }

  lemma OneArgument(py: Python, p: ParameterSpec, v: Value)
    requires !Absent(v) && Coerce(py, p, v).Ok?
    ensures Validate(py, [p], map[p.name := v]).Ok?
  {
    var given: Args := map[p.name := v];
    assert [p][0] == p && [p][1..] == [];
    assert Entry(py, p, given) == Ok(Some(Coerce(py, p, v).value));
    assert Collect(py, [p], given, map[]) == Collect(py, [], given, map[p.name := Coerce(py, p, v).value]);
  }

  lemma OneItem(py: Python, p: ParameterSpec, text: string)
    requires p.kind.Array? && p.itemKind.TextItems? && p.maxLength >= 1
    ensures Coerce(py, p, List([Str(text)])).Ok?
  {
    ItemsOneByOne(py, p, [Str(text)], [Str(Cut(Strip(text)))]);
  }

  /** A long item that is cut right after a space loses the space the next time. */
  lemma CutItemIsShortenedNext(py: Python, p: ParameterSpec, text: string)
    requires p.kind.Array? && p.itemKind.TextItems? && p.maxLength >= 1
    requires Trimmed(text) && CutAfterSpace(text)
    ensures var r := Validate(py, [p], map[p.name := List([Str(text)])]);
            r.Ok? && Validate(py, [p], r.value) != r
  {
    var v := List([Str(text)]);
    CutItemIsAccepted(py, p, text, v);
    UnsettledChanges(py, p, v);
  }

  lemma CutItemIsAccepted(py: Python, p: ParameterSpec, text: string, v: Value)
    requires p.kind.Array? && p.itemKind.TextItems? && p.maxLength >= 1
    requires Trimmed(text) && CutAfterSpace(text) && v == List([Str(text)])
    ensures Validate(py, [p], map[p.name := v]).Ok? && !Settles(py, p, v)
  {
    OneItem(py, p, text);
    OneArgument(py, p, v);
    StripTrimmed(text);
    CutItemUnsettles(py, p, [Str(text)], Str(text));
  }

  lemma CutItemUnsettles(py: Python, p: ParameterSpec, items: seq<Value>, item: Value)
    requires p.kind.Array? && p.itemKind.TextItems? && item in items && CutAfterSpace(Strip(py.TextOf(item)))
    ensures !Settles(py, p, List(items))
  {
  }

  lemma UnsettledChanges(py: Python, p: ParameterSpec, v: Value)
    requires var given: Args := map[p.name := v]; Validate(py, [p], given).Ok? && !Settles(py, p, v)
    ensures var r := Validate(py, [p], map[p.name := v]); Validate(py, [p], r.value) != r
  {
    var given: Args := map[p.name := v];
    assert [p][0] == p && Supplied(p, given) == v;
    ValidationIsIdempotent(py, [p], given);
  }

  /** There are such items. */
  lemma ItemsAreCutAfterSpaces(text: string)
    requires |text| == ITEM_CHARS + 1 && IsSpace(text[ITEM_CHARS - 1])
    requires !IsSpace(text[0]) && !IsSpace(text[ITEM_CHARS])
    ensures Trimmed(text) && CutAfterSpace(text)
  {
  }
}
