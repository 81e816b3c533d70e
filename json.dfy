/**
 * The value `json.load` hands the importer, together with the handful of
 * Python semantics the importer leans on: truthiness (which drives every
 * `a or b` fallback), `dict.get`, `isinstance(v, int)` (which `bool` also
 * satisfies), hashability and `str()`.
 */
module Json {
  import opened Base

  /**
   * A parsed JSON document. A float keeps its real value and the text Python's
   * `str()` prints for it; formatting floats is not part of this model.
   */
  datatype Value =
    | Null
    | Bool(b: bool)
    | Int(i: int)
    | Float(r: real, text: string)
    | Str(s: string)
    | List(items: seq<Value>)
    | Dict(fields: map<string, Value>)

  /** Python truthiness: None, False, zero and empty containers are false. */
  predicate Truthy(v: Value) {
    match v
    case Null => false
    case Bool(b) => b
    case Int(i) => i != 0
    case Float(r, _) => r != 0.0
    case Str(s) => s != ""
    case List(items) => items != []
    case Dict(fields) => fields != map[]
  }

  /** `d.get(key)`: a missing key reads as None. */
  function Get(d: map<string, Value>, key: string): Value {
    if key in d then d[key] else Null
  }

  /** Python's `a or b`: `a` when it is truthy, otherwise `b` whatever it is. */
  function Or(a: Value, b: Value): Value {
    if Truthy(a) then a else b
  }

  /**
   * `isinstance(v, int)` together with the integer Python then uses: `bool` is
   * a subclass of `int`, so True and False are the integers 1 and 0 (also as
   * dictionary keys).
   */
  function AsInt(v: Value): (r: Option<int>)
    ensures r.Some? <==> v.Int? || v.Bool?
    ensures v.Int? ==> r == Some(v.i)
    ensures v.Bool? ==> r == Some(if v.b then 1 else 0)
  {
    match v
    case Int(i) => Some(i)
    case Bool(b) => Some(if b then 1 else 0)
    case _ => None
  }

  /** `int(x)` of a finite float: truncation toward zero. */
  function Truncate(r: real): (n: int)
    ensures r >= 0.0 ==> 0 <= n && n as real <= r < n as real + 1.0
    ensures r < 0.0 ==> n <= 0 && n as real - 1.0 < r <= n as real
  {
    if r >= 0.0 then r.Floor else -((-r).Floor)
  }

  /** Lists and dicts cannot be dictionary keys (`dict.get` raises TypeError). */
  predicate Hashable(v: Value) {
    !v.List? && !v.Dict?
  }

  /** Python's `str(v)` (equally an f-string `{v}`) for a hashable value. */
  function PyStr(v: Value): string
    requires Hashable(v)
  {
    match v
    case Null => "None"
    case Bool(b) => if b then "True" else "False"
    case Int(i) => IntToString(i)
    case Float(_, text) => text
    case Str(s) => s
  }
}
