/** The JSON-like values that tools, plans and model replies exchange. */
module Values {

  datatype Option<+T> = None | Some(value: T)

  datatype Result<+T, +E> = Ok(value: T) | Err(error: E)

  /** A Python value as the assistant sees it; `Num` is a float, taken as a real number. */
  datatype Value =
    | Null
    | Bool(flag: bool)
    | Int(number: int)
    | Num(amount: real)
    | Str(text: string)
    | List(items: seq<Value>)
    | Obj(fields: map<string, Value>)

  /** Keyword arguments of a tool call. */
  type Args = map<string, Value>

  /** `mapping.get(key)`. */
  function Get(fields: map<string, Value>, key: string): Value {
    if key in fields then fields[key] else Null
  }
}
