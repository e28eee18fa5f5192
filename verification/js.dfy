/** The JavaScript values that request bodies and form fields carry, with the
    coercions the handlers apply to them: truthiness, `String(v)` and
    property access. Numbers are integers here. */
module Js {
  import opened Wrappers
  import opened Strings

  datatype Json =
    | JNull
    | JBool(b: bool)
    | JNum(n: int)
    | JStr(s: string)
    | JArr(items: seq<Json>)
    | JObj(fields: map<string, Json>)

  /** The empty object `{}`, which `request.json().catch(() => ({}))` yields on a bad body. */
  const EmptyObject: Json := JObj(map[])

  /** JavaScript truthiness (`if (v)`, `v || w`, `filter(Boolean)`). */
  predicate Truthy(v: Json) {
    match v
    case JNull => false
    case JBool(b) => b
    case JNum(n) => n != 0
    case JStr(s) => s != []
    case JArr(_) => true
    case JObj(_) => true
  }

  /** Truthiness of a value that may be `undefined` (None). */
  predicate TruthyOpt(v: Option<Json>) {
    v.Some? && Truthy(v.value)
  }

  /** `String(v)`: arrays join their elements with "," (null elements render empty). */
  function ToStr(v: Json): (r: string)
    ensures v.JStr? ==> r == v.s
    decreases v
  {
    match v
    case JNull => "null"
    case JBool(b) => if b then "true" else "false"
    case JNum(n) => IntToString(n)
    case JStr(s) => s
    case JArr(items) => Join(ElementStrs(items), ",")
    case JObj(_) => "[object Object]"
  }

  function ElementStrs(items: seq<Json>): (r: seq<string>)
    ensures |r| == |items|
    decreases items
  {
    if items == [] then []
    else [if items[0].JNull? then "" else ToStr(items[0])] + ElementStrs(items[1..])
  }

  /** `String(v)` is empty only for "" itself, an array that prints empty. */
  lemma ToStrEmpty(v: Json)
    requires ToStr(v) == []
    ensures v == JStr([]) || v.JArr?
  {
  }

  /** The outcome of reading `obj.key` in JavaScript. */
  datatype Access = Value(v: Option<Json>) | Throws

  /** `(v as any).key`: reading a property of null throws a TypeError; a
      property missing from an object, or read from a primitive, is undefined. */
  function Get(v: Json, key: string): (r: Access)
    ensures r.Throws? <==> v.JNull?
    ensures v.JObj? && key in v.fields ==> r == Value(Some(v.fields[key]))
  {
    match v
    case JNull => Throws
    case JObj(fields) => if key in fields then Value(Some(fields[key])) else Value(None)
    case _ => Value(None)
  }

  /** `v?.key`: optional chaining, which yields undefined for null. */
  function GetOpt(v: Json, key: string): (r: Option<Json>)
    ensures v.JNull? ==> r.None?
    ensures Get(v, key).Value? ==> r == Get(v, key).v
  {
    if v.JNull? then None else Get(v, key).v
  }

  /** `a ?? b` where `a` may be undefined or null. */
  function Coalesce(a: Option<Json>, b: Json): (r: Json)
    ensures a.Some? && !a.value.JNull? ==> r == a.value
    ensures a.None? || a.value.JNull? ==> r == b
  {
    if a.Some? && !a.value.JNull? then a.value else b
  }
}
