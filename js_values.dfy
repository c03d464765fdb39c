/**
 * The JavaScript values the client's server replies decode to, and the few
 * language operations the client applies to them: truthiness, property reads,
 * the `in` operator, `??`, `String(v)`, and thrown values.
 */
module JsValues {
  import opened Wrappers
  import opened Text

  /** A value produced by `JSON.parse`. Numbers are integral in this model. */
  datatype Json =
    | JNull
    | JBool(b: bool)
    | JNum(n: int)
    | JStr(s: string)
    | JArr(elems: seq<Json>)
    | JObj(fields: map<string, Json>)

  /** JavaScript truthiness: `null`, `false`, `0` and `""` are falsy, every array and object is truthy. */
  predicate Truthy(v: Json) {
    match v
    case JNull => false
    case JBool(b) => b
    case JNum(n) => n != 0
    case JStr(s) => s != ""
    case JArr(_) => true
    case JObj(_) => true
  }

  /**
   * `v.key` (or `v?.key`) on a decoded value; `None` is `undefined`. Only
   * objects have own properties among the keys the client reads (`user`,
   * `message`, `error`, `accessToken`, `token`, `expiresIn`); on `null` this is
   * the optional-chaining reading.
   */
  function Prop(v: Json, key: string): (r: Option<Json>)
    ensures r.Some? <==> v.JObj? && key in v.fields
    ensures r.Some? ==> r.value == v.fields[key]
  {
    if v.JObj? && key in v.fields then Some(v.fields[key]) else None
  }

  /**
   * `key in v`: `None` when the operator throws a TypeError (the right-hand
   * side is `null` or a primitive), otherwise whether the key is present.
   * Arrays have none of the keys the client asks about.
   */
  function HasKey(v: Json, key: string): (r: Option<bool>)
    ensures r.None? <==> !(v.JObj? || v.JArr?)
    ensures r == Some(true) <==> v.JObj? && key in v.fields
  {
    match v
    case JObj(fields) => Some(key in fields)
    case JArr(_) => Some(false)
    case _ => None
  }

  /** `a ?? b`, where `a` may be `undefined` (`None`). */
  function Coalesce(a: Option<Json>, b: Json): (r: Json)
    ensures a.Some? && a.value != JNull ==> r == a.value
    ensures a.None? || a == Some(JNull) ==> r == b
  {
    if a.Some? && a.value != JNull then a.value else b
  }

  /** `a || b`, where `a` may be `undefined` (`None`): `a` when it is truthy, else `b`. */
  function Or(a: Option<Json>, b: Json): (r: Json)
    ensures a.Some? && Truthy(a.value) ==> r == a.value
    ensures !(a.Some? && Truthy(a.value)) ==> r == b
  {
    if a.Some? && Truthy(a.value) then a.value else b
  }

  /** `Array.prototype.join(",")` over already converted elements. */
  function JoinComma(parts: seq<string>): string {
    if |parts| == 0 then "" else if |parts| == 1 then parts[0] else parts[0] + "," + JoinComma(parts[1..])
  }

  /** `String(v)`: the text a value becomes in a template literal, `setItem` or `new Error(v)`. */
  function JsString(v: Json): string {
    match v
    case JNull => "null"
    case JBool(b) => if b then "true" else "false"
    case JNum(n) => IntToString(n)
    case JStr(s) => s
    case JArr(elems) =>
      JoinComma(seq(|elems|, i requires 0 <= i < |elems| => if elems[i] == JNull then "" else JsString(elems[i])))
    case JObj(_) => "[object Object]"
  }

  /** A value thrown by JavaScript code: an `Error` with its message, the `SyntaxError` of a failed `JSON.parse`, or a non-`Error` value. */
  datatype Thrown =
    | ErrorWith(message: string)
    | JsonSyntaxError
    | NonErrorValue

  /** `e instanceof Error`. */
  predicate IsErrorInstance(e: Thrown) {
    !e.NonErrorValue?
  }

  /** How an operation finished: with a value, or by throwing (a rejected promise for an async function). */
  datatype Completion<T> = Normal(value: T) | Abrupt(thrown: Thrown)
}
