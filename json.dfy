/**
 * JSON values as the server sees them after `JSON.parse` (or after Mongo's
 * `lean()` read), together with the two JavaScript idioms the routes apply to
 * them: property access that yields `undefined` on anything but an object, and
 * truthiness (`x || default`, `!x`).
 */
module JsonData {
  import opened Wrappers

  datatype Json =
    | JNull
    | JBool(b: bool)
    | JNum(n: real)
    | JStr(s: string)
    | JArr(elems: seq<Json>)
    | JObj(fields: map<string, Json>)

  /** `obj[key]`: `None` plays the part of `undefined`, so a key that is
      present with value `null` is `Some(JNull)`. Arrays, strings, numbers,
      booleans and `null` have none of the keys the routes read. */
  function Get(j: Json, key: string): (r: Option<Json>)
    ensures r.Some? <==> j.JObj? && key in j.fields
    ensures r.Some? ==> r.value == j.fields[key]
  {
    if j.JObj? && key in j.fields then Some(j.fields[key]) else None
  }

  /** JavaScript truthiness of a JSON value (JSON has no NaN, so `0` is the
      only falsy number). */
  predicate Truthy(j: Json) {
    match j
    case JNull => false
    case JBool(b) => b
    case JNum(n) => n != 0.0
    case JStr(s) => s != ""
    case JArr(_) => true
    case JObj(_) => true
  }

  /** `x ?? null`: the value unless it is undefined (or already null). */
  function OrNull(v: Option<Json>): (r: Json)
    ensures r == JNull <==> v.None? || v.value == JNull
    ensures v.Some? ==> r == v.value
  {
    match v
    case Some(x) => x
    case None => JNull
  }

  /** `x || null`: the value when it is truthy, and null otherwise. */
  function TruthyOrNull(v: Option<Json>): (r: Json)
    ensures r == JNull || (v.Some? && r == v.value)
    ensures r != JNull <==> v.Some? && Truthy(v.value)
  {
    if v.Some? && Truthy(v.value) then v.value else JNull
  }
}
