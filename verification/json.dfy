/**
 * Decoded JSON as the program sees it after `response.json()` or `json.loads`, with the
 * pieces of Python's object semantics that the parsers depend on: truthiness, `in`,
 * and `str()`.
 */
module Json {
  import opened Common
  import opened Text

  /** A JSON value. Objects are dicts (a repeated key keeps its last value, as Python's
      decoder does); numbers are kept as reals, covering both `int` and `float`. */
  datatype Json =
    | JNull
    | JBool(b: bool)
    | JNum(n: real)
    | JStr(s: string)
    | JArr(items: seq<Json>)
    | JObj(fields: map<string, Json>)

  /** Python's `bool(v)`: `None`, `False`, zero and empty containers are false. */
  predicate Truthy(v: Json) {
    match v
    case JNull => false
    case JBool(b) => b
    case JNum(n) => n != 0.0
    case JStr(s) => |s| > 0
    case JArr(xs) => |xs| > 0
    case JObj(m) => |m| > 0
  }

  /** Python's `key in v` for a string key: substring test on a string, element test on
      a list, key test on a dict; on `None`, a boolean or a number it raises `TypeError`. */
  function PyIn(key: string, v: Json): (r: Result<bool, string>)
    ensures r.Failure? <==> (v.JNull? || v.JBool? || v.JNum?)
    ensures v.JObj? ==> r == Success(key in v.fields)
    ensures v.JStr? ==> r == Success(Contains(v.s, key))
  {
    match v
    case JStr(s) => Success(Contains(s, key))
    case JArr(xs) => Success(JStr(key) in xs)
    case JObj(m) => Success(key in m)
    case _ => Failure("argument of type is not iterable")
  }

  /** Python's `str(v)`. A string is its own text; every other value is rendered by
      `show`, which stands for Python's `repr`-style formatting of lists, dicts and scalars. */
  function PyStr(v: Json, show: Json -> string): (r: string)
    ensures v.JStr? ==> r == v.s
  {
    if v.JStr? then v.s else show(v)
  }

  /** Python's `d.get(key, default)` on a dict. */
  function Get(m: map<string, Json>, key: string, default: Json): (r: Json)
    ensures key in m ==> r == m[key]
    ensures key !in m ==> r == default
  {
    if key in m then m[key] else default
  }
}
