/** JSON values as the two edge handlers receive them from `req.json()`,
    and the JavaScript operations the handlers apply to them: property
    access (plain, which throws on `null`/`undefined`, and optional
    chaining, which does not), truthiness, `??`, and `Array.isArray`.

    A property that is absent reads as `undefined`; here that is `None`,
    so a JavaScript value is a `Val`, an `Option<Json>`. Numbers are
    `real`: JSON has no NaN or infinities. */
module JsValues {
  import opened Base

  datatype Json =
    | JNull
    | JBool(b: bool)
    | JNum(n: real)
    | JStr(s: string)
    | JArr(items: seq<Json>)
    | JObj(fields: map<string, Json>)

  type Val = Option<Json>

  /** The result of an access that may throw a `TypeError`. */
  datatype Access = Got(v: Val) | Threw

  /** `j.key` on a value that is neither `null` nor `undefined`: an
      object's own field, or the `length` of an array or a string;
      anything else reads as `undefined`. */
  function Field(j: Json, key: string): (r: Val)
    ensures j.JObj? ==> (r.Some? <==> key in j.fields) && (key in j.fields ==> r == Some(j.fields[key]))
    ensures j.JArr? ==> (r.Some? <==> key == "length") && (key == "length" ==> r == Some(JNum(|j.items| as real)))
    ensures j.JStr? ==> (r.Some? <==> key == "length") && (key == "length" ==> r == Some(JNum(|j.s| as real)))
    ensures j.JNull? || j.JBool? || j.JNum? ==> r.None?
  {
    match j
    case JObj(m) => if key in m then Some(m[key]) else None
    case JArr(a) => if key == "length" then Some(JNum(|a| as real)) else None
    case JStr(s) => if key == "length" then Some(JNum(|s| as real)) else None
    case _ => None
  }

  predicate Nullish(v: Val) {
    v.None? || v.value.JNull?
  }

  /** `v.key`: a `TypeError` on `null` or `undefined`. */
  function Get(v: Val, key: string): (r: Access)
    ensures r.Threw? <==> Nullish(v)
    ensures !Nullish(v) ==> r == Got(Field(v.value, key))
  {
    if Nullish(v) then Threw else Got(Field(v.value, key))
  }

  /** `v?.key`: `undefined` on `null` or `undefined`. */
  function OptGet(v: Val, key: string): (r: Val)
    ensures Nullish(v) ==> r.None?
    ensures !Nullish(v) ==> r == Field(v.value, key)
  {
    if Nullish(v) then None else Field(v.value, key)
  }

  /** JavaScript truthiness: `undefined`, `null`, `false`, `0` and `''`
      are falsy; every array and object is truthy. */
  predicate Truthy(v: Val) {
    match v
    case None => false
    case Some(JNull) => false
    case Some(JBool(b)) => b
    case Some(JNum(n)) => n != 0.0
    case Some(JStr(s)) => s != ""
    case Some(_) => true
  }

  /** `v ?? d`. */
  function OrElse(v: Val, d: Json): (r: Json)
    ensures Nullish(v) ==> r == d
    ensures !Nullish(v) ==> r == v.value
  {
    if Nullish(v) then d else v.value
  }

  predicate IsArray(v: Val) {
    v.Some? && v.value.JArr?
  }
}
