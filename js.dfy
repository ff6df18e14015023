/** JavaScript values as the formatter sees them: `undefined` as `None`,
    JSON-serialisable bodies as `Json`, and the truthiness tests that decide
    whether an optional clause is emitted. */
module Js {

  datatype Option<+T> = None | Some(value: T)

  /** A JSON-serialisable JavaScript value (a request body). */
  datatype Json =
    | JNull
    | JBool(b: bool)
    | JNumber(n: real)
    | JNaN
    | JString(s: string)
    | JArray(items: seq<Json>)
    | JObject(members: seq<(string, Json)>)

  /** JavaScript truthiness of a value that may be `undefined`:
      `undefined`, `null`, `false`, `0`, `NaN` and `""` are falsy,
      everything else (including empty arrays and objects) is truthy. */
  function Truthy(v: Option<Json>): (r: bool)
    ensures !r <==> v in {None, Some(JNull), Some(JBool(false)), Some(JNumber(0.0)), Some(JNaN), Some(JString(""))}
  {
    match v
    case None => false
    case Some(j) =>
      match j
      case JNull => false
      case JBool(b) => b
      case JNumber(n) => n != 0.0
      case JNaN => false
      case JString(s) => s != ""
      case JArray(_) => true
      case JObject(_) => true
  }

  /** Truthiness of a string that may be `undefined`: the same test as on
      the corresponding JavaScript value. */
  function TruthyString(v: Option<string>): (r: bool)
    ensures r == Truthy(if v.Some? then Some(JString(v.value)) else None)
  {
    v.Some? && v.value != ""
  }
}
