/** JavaScript values as the service receives them in a parsed JSON request body or a query string,
    with the truthiness rules the handlers test them by. */
module JsValues {

  /** A JSON value, plus `undefined` for a missing property. Numbers are kept as reals;
      NaN is not representable. */
  datatype Json =
    | Undefined
    | Null
    | Bool(b: bool)
    | Num(n: real)
    | Str(s: string)
    | Arr(elems: seq<Json>)
    | Obj(fields: map<string, Json>)

  /** The settled state of an awaited call: a value, or a thrown error. */
  datatype Result<T> = Ok(value: T) | Thrown

  /** `v == null` in JavaScript's loose sense: reading a property of such a value throws. */
  predicate IsNullish(v: Json) {
    v.Undefined? || v.Null?
  }

  /** JavaScript truthiness: `!v` is false exactly for these values. */
  predicate Truthy(v: Json)
    ensures Truthy(v) ==> !IsNullish(v)
  {
    match v
    case Undefined => false
    case Null => false
    case Bool(b) => b
    case Num(n) => n != 0.0
    case Str(s) => s != ""
    case Arr(_) => true
    case Obj(_) => true
  }

  /** Reading `key` of an object given as its property map; a missing key reads as undefined. */
  function Field(m: map<string, Json>, key: string): (r: Json)
    ensures key !in m ==> r == Undefined
    ensures r != Undefined ==> key in m && r == m[key]
  {
    if key in m then m[key] else Undefined
  }

  /** The property read `v.key` on a value that is neither undefined nor null. Strings and
      arrays answer `length`; index properties of strings and arrays are never read by the
      service and are not modelled. */
  function Prop(v: Json, key: string): (r: Json)
    requires !IsNullish(v)
    ensures v.Obj? ==> r == Field(v.fields, key)
    ensures v.Arr? && key == "length" ==> r == Num(|v.elems| as real)
    ensures v.Str? && key == "length" ==> r == Num(|v.s| as real)
    ensures !v.Obj? && key != "length" ==> r == Undefined
    ensures v.Bool? || v.Num? ==> r == Undefined
  {
    match v
    case Obj(m) => Field(m, key)
    case Str(s) => if key == "length" then Num(|s| as real) else Undefined
    case Arr(e) => if key == "length" then Num(|e| as real) else Undefined
    case _ => Undefined
  }

  /** The optional-chaining read `v?.length`. */
  function OptionalLength(v: Json): (r: Json)
    ensures IsNullish(v) ==> r == Undefined
    ensures v.Arr? ==> (Truthy(r) <==> |v.elems| > 0)
    ensures v.Str? ==> (Truthy(r) <==> v.s != "")
  {
    if IsNullish(v) then Undefined else Prop(v, "length")
  }

  /** The expression `a || b`. */
  function Or(a: Json, b: Json): (r: Json)
    ensures r == a || r == b
    ensures Truthy(r) <==> Truthy(a) || Truthy(b)
    ensures Truthy(a) ==> r == a
  {
    if Truthy(a) then a else b
  }

  /** The expression `v || null`: a truthy value or null, never another falsy value. */
  function OrNull(v: Json): (r: Json)
    ensures Truthy(r) || r == Null
    ensures r == Null <==> !Truthy(v)
    ensures Truthy(v) ==> r == v
  {
    Or(v, Null)
  }

  /** Applying `|| null` a second time changes nothing. */
  lemma OrNullIdempotent(v: Json)
    ensures OrNull(OrNull(v)) == OrNull(v)
  {
  }
}
