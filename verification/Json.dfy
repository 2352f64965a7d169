/** Saved JSON criteria and the Python reading of them. */
module Json {
  import opened Options

  datatype Json =
    | JNull
    | JBool(flag: bool)
    | JInt(whole: int)
    | JReal(number: real)
    | JNan
    | JInfinite(negative: bool)
    | JString(text: string)
    | JList(items: seq<Json>)
    | JObject(fields: map<string, Json>)

  function Get(j: Json, key: string, default: Json): Json
    requires j.JObject?
  {
    if key in j.fields then j.fields[key] else default
  }

  predicate Truthy(j: Json) {
    match j
    case JNull => false
    case JBool(b) => b
    case JInt(i) => i != 0
    case JReal(r) => r != 0.0
    case JNan => true
    case JInfinite(_) => true
    case JString(s) => s != ""
    case JList(items) => items != []
    case JObject(fields) => fields != map[]
  }

  /** A finite instance of int or float; a boolean is an int. */
  function Number(j: Json): Option<real> {
    match j
    case JBool(b) => Some(if b then 1.0 else 0.0)
    case JInt(i) => Some(i as real)
    case JReal(r) => Some(r)
    case _ => None
  }

  /** `isinstance(j, (int, float)) and j <= 0`; no comparison with NaN holds. */
  predicate IsNonPositive(j: Json) {
    if j.JInfinite? then j.negative else Number(j).Some? && Number(j).value <= 0.0
  }

  function Ceiling(r: real): (c: int)
    ensures (c as real) - 1.0 < r <= c as real
  {
    -((-r).Floor)
  }

  /** The integer part, towards zero. */
  function Truncate(r: real): (t: int)
    ensures r >= 0.0 ==> t as real <= r < (t as real) + 1.0
    ensures r < 0.0 ==> (t as real) - 1.0 < r <= t as real
  {
    if r < 0.0 then Ceiling(r) else r.Floor
  }

  /** `int(value)`: `parse` is the reading of numeric strings; anything else raises. */
  function AsInt(j: Json, parse: string -> Option<int>): Option<int> {
    match j
    case JBool(b) => Some(if b then 1 else 0)
    case JInt(i) => Some(i)
    case JReal(r) => Some(Truncate(r))
    case JString(s) => parse(s)
    case _ => None
  }
}
