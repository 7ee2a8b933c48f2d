/** The decoded JSON values the integration handles, with the two pieces of
    Python semantics the source relies on: truthiness and `dict.get`. */
module Json {

  /** A JSON scalar as decoded by Python: a number, a string or `null` (`None`).
      Python's `None` returned by a failed `dict.get` is also `Null`. */
  datatype Value = Num(n: real) | Str(s: string) | Null

  /** The exception Python raises when arithmetic meets a string. */
  datatype Error = TypeError

  /** Python truthiness: `0`, the empty string and `None` are falsy. */
  predicate Truthy(v: Value)
  {
    match v
    case Num(x) => x != 0.0
    case Str(s) => |s| > 0
    case Null => false
  }

  /** `m.get(key, default)` on a Python dict. */
  function Get(m: map<string, Value>, key: string, default: Value): Value
  {
    if key in m then m[key] else default
  }
}
