/**
 * Values produced by `json.loads` on a model response, with Python's
 * truthiness, `dict.get` and the texts of the exceptions the pipeline's
 * code can raise when a value has an unexpected type.
 */
module Json {
  import opened Wrappers

  datatype Json =
    | JNull
    | JBool(b: bool)
    | JNum(n: int)
    | JStr(s: string)
    | JArr(items: seq<Json>)
    | JObj(fields: map<string, Json>)

  const EmptyObj: Json := JObj(map[])

  /** A decoded JSON object, the `dict[str, Any]` every stage exchanges. */
  type Record = map<string, Json>

  newtype byte = b: int | 0 <= b < 256

  /** The contents of a downloaded PDF. */
  type Bytes = seq<byte>

  /** `bool(v)` in Python. */
  predicate Truthy(v: Json)
  {
    match v
    case JNull => false
    case JBool(b) => b
    case JNum(n) => n != 0
    case JStr(s) => |s| > 0
    case JArr(items) => |items| > 0
    case JObj(fields) => |fields| > 0
  }

  /** `type(v).__name__`. */
  function TypeName(v: Json): string
  {
    match v
    case JNull => "NoneType"
    case JBool(_) => "bool"
    case JNum(_) => "int"
    case JStr(_) => "str"
    case JArr(_) => "list"
    case JObj(_) => "dict"
  }

  /** Text of the `AttributeError` raised by `v.<attr>` on a value that lacks it. */
  function AttrError(v: Json, attr: string): string
  {
    "'" + TypeName(v) + "' object has no attribute '" + attr + "'"
  }

  /** Text of the `KeyError` raised by `d[key]` for a missing key. */
  function KeyError(key: string): string
  {
    "'" + key + "'"
  }

  /** Text of the `TypeError` raised by `len(v)`, or None when `v` has a length. */
  function LenError(v: Json): (r: Option<string>)
    ensures r.None? <==> v.JStr? || v.JArr? || v.JObj?
  {
    if v.JStr? || v.JArr? || v.JObj? then None
    else Some("object of type '" + TypeName(v) + "' has no len()")
  }

  /** `m.get(key, default)`. */
  function GetOr(m: map<string, Json>, key: string, default: Json): (r: Json)
    ensures key in m ==> r == m[key]
    ensures key !in m ==> r == default
  {
    if key in m then m[key] else default
  }

  /**
   * `v.get(key, default)` on a value that may not be a dict: any other
   * type raises `AttributeError`.
   */
  function Get(v: Json, key: string, default: Json): (r: Result<Json, string>)
    ensures v.JObj? <==> r.Ok?
    ensures v.JObj? ==> r.value == GetOr(v.fields, key, default)
  {
    if v.JObj? then Ok(GetOr(v.fields, key, default)) else Err(AttrError(v, "get"))
  }
}
