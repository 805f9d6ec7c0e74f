/** The JavaScript values a JSON5 parse can produce, and the two reflective
    operations the converter applies to them: `typeof` and `Object.keys`. */
module Json {
  import opened Wrappers
  import Decimal

  /** A parsed JSON5 value. An object lists its own properties in the order
      `Object.entries` reports them, each name once, as a parse yields them
      (a repeated name keeps its last value). The type itself does not enforce
      distinct names. Numbers are only tagged: the converter never looks at
      their magnitude. */
  datatype JsonValue =
    | JNull
    | JBool(b: bool)
    | JNumber
    | JString(s: string)
    | JArray(elems: seq<JsonValue>)
    | JObject(members: seq<(string, JsonValue)>)

  /** The result of JavaScript's `typeof`; `None` stands for `undefined`. */
  function TypeOf(v: Option<JsonValue>): (r: string)
    ensures r in {"undefined", "object", "boolean", "number", "string"}
    ensures r == "undefined" <==> v.None?
    ensures r == "object" <==> v.Some? && (v.value.JNull? || v.value.JArray? || v.value.JObject?)
    ensures r == "boolean" <==> v.Some? && v.value.JBool?
    ensures r == "number" <==> v.Some? && v.value.JNumber?
    ensures r == "string" <==> v.Some? && v.value.JString?
  {
    match v
    case None => "undefined"
    case Some(JNull) => "object"
    case Some(JBool(_)) => "boolean"
    case Some(JNumber) => "number"
    case Some(JString(_)) => "string"
    case Some(JArray(_)) => "object"
    case Some(JObject(_)) => "object"
  }

  /** The property names "0", "1", ... of an array-like value of length `n`. */
  function IndexKeys(n: nat): (ks: seq<string>)
    ensures |ks| == n
    ensures forall i :: 0 <= i < n ==> ks[i] == Decimal.NatToString(i)
  {
    seq(n, i requires 0 <= i < n => Decimal.NatToString(i))
  }

  /** `Object.keys(v)`: `None` when it throws, which happens for `null` only.
      Arrays and strings have their indices as keys; numbers and booleans none.
      String length counts characters here (see README for UTF-16). */
  function ObjectKeys(v: JsonValue): (r: Option<seq<string>>)
    ensures r.None? <==> v.JNull?
  {
    match v
    case JNull => None
    case JBool(_) => Some([])
    case JNumber => Some([])
    case JString(s) => Some(IndexKeys(|s|))
    case JArray(es) => Some(IndexKeys(|es|))
    case JObject(ms) => Some(seq(|ms|, i requires 0 <= i < |ms| => ms[i].0))
  }
}
