/** The Python value semantics both integrations rely on: decoded JSON values,
    Python truthiness, `a or b`, `dict.get` and `str()`.

    Python's `None` is identified with JSON `null` throughout, so a field that
    the source annotates as `str | None` is a `JsonValue` here: a packet may carry
    any JSON value under `"serial"`, and the source stores it unchanged. */
module Json {

  datatype Option<+T> = None | Some(value: T)

  /** A value `json.loads` can produce. Numbers are opaque readings: the model
      does no arithmetic on them and only needs to know whether they are zero. */
  datatype JsonValue =
    | JNull
    | JBool(b: bool)
    | JNum(n: real)
    | JStr(s: string)
    | JArr(items: seq<JsonValue>)
    | JObj(fields: Object)

  /** A decoded JSON object: a Python dict with string keys. */
  type Object = map<string, JsonValue>

  /** Python truthiness of a decoded value. */
  predicate Truthy(v: JsonValue) {
    match v
    case JNull => false
    case JBool(b) => b
    case JNum(n) => n != 0.0
    case JStr(s) => |s| > 0
    case JArr(items) => |items| > 0
    case JObj(fields) => |fields| > 0
  }

  /** Python's `a or b`. */
  function Or(a: JsonValue, b: JsonValue): JsonValue {
    if Truthy(a) then a else b
  }

  /** Python's `d.get(k)`: the value under `k`, or None. */
  function Get(d: Object, k: string): JsonValue {
    if k in d then d[k] else JNull
  }

  /** The text `str(v)` (or an f-string) produces. A Python string renders as
      itself; every other value goes through `str`, which is left uninterpreted. */
  function Render(str: JsonValue -> string, v: JsonValue): string {
    if v.JStr? then v.s else str(v)
  }
}
