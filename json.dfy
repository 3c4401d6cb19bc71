/** The JSON values the handlers store in application records. */
module Json {
  import opened Wrappers

  /** A JSON scalar: null, an integer or a string. */
  datatype Value = Null | Int(n: int) | Str(s: string)

  /** A JSON object, such as an application record or a request body. */
  type Record = map<string, Value>

  /** `r.get(key)`: the value, or null when the key is absent. */
  function Get(r: Record, key: string): Value
  {
    if key in r then r[key] else Null
  }

  /** `r.get(key, default)`. */
  function GetOr(r: Record, key: string, default: Value): Value
  {
    if key in r then r[key] else default
  }

  /** Python's falsy scalars: None, 0 and "". */
  predicate Falsy(v: Value)
  {
    v == Null || v == Int(0) || v == Str("")
  }

  /** A stored optional string as JSON: None is null. */
  function FromOption(o: Option<string>): Value
  {
    match o
    case None => Null
    case Some(s) => Str(s)
  }
}
