/** The decoded JSON values that flow between the device, the store and the
    dashboard. Python's int and float are both `Num` (an exact real); JSON
    objects are unordered maps. */
module Json {
  import opened Wrappers
  import Text

  datatype Value =
    | Null
    | Bool(b: bool)
    | Num(r: real)
    | Str(s: string)
    | List(items: seq<Value>)
    | Obj(fields: map<string, Value>)

  /** Python truthiness (`if v:`). */
  predicate Truthy(v: Value) {
    match v
    case Null => false
    case Bool(b) => b
    case Num(r) => r != 0.0
    case Str(s) => s != ""
    case List(xs) => xs != []
    case Obj(m) => m != map[]
  }

  /** `d.get(k)`: the stored value, or None (Null) when the key is missing. */
  function Get(d: map<string, Value>, k: string): (r: Value)
    ensures k in d ==> r == d[k]
    ensures k !in d ==> r == Null
  {
    if k in d then d[k] else Null
  }

  /** `d.get(k, default)`. */
  function GetOr(d: map<string, Value>, k: string, default: Value): (r: Value)
    ensures k in d ==> r == d[k]
    ensures k !in d ==> r == default
  {
    if k in d then d[k] else default
  }

  /** Python `float(v)` on a decoded JSON value: numbers as they are, booleans
      as 1.0 and 0.0, strings through the decimal-literal parser; None, lists
      and objects raise (None here). */
  function ToFloat(v: Value): (r: Option<real>)
    ensures v.Num? ==> r == Some(v.r)
    ensures v.Null? || v.List? || v.Obj? ==> r == None
  {
    match v
    case Num(x) => Some(x)
    case Bool(b) => Some(if b then 1.0 else 0.0)
    case Str(s) => Text.ParseDecimal(s)
    case _ => None
  }
}
