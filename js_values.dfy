/**
 * The JavaScript values that reach the modelled code untyped: a thrown error,
 * a parsed response body, a block delivered by the CMS.
 */
module JsValues {

  /** Numbers are integers here: NaN, infinities and fractions are not modelled. */
  datatype Js =
    | Undefined
    | Null
    | Bool(b: bool)
    | Num(n: int)
    | Str(s: string)
    | Arr(items: seq<Js>)
    | Obj(fields: map<string, Js>)

  predicate IsNullish(v: Js) {
    v.Undefined? || v.Null?
  }

  /** `!!v`: the falsy values are undefined, null, false, 0 and "". */
  predicate Truthy(v: Js)
    ensures Truthy(v) ==> !IsNullish(v)
  {
    match v
    case Undefined => false
    case Null => false
    case Bool(b) => b
    case Num(n) => n != 0
    case Str(s) => s != ""
    case Arr(_) => true
    case Obj(_) => true
  }

  /**
   * The property read `v.k`. Reading a property of null or undefined throws,
   * hence the precondition; a primitive or an array has none of the keys the
   * modelled code reads, so the read gives undefined.
   */
  function Get(v: Js, k: string): (r: Js)
    requires !IsNullish(v)
    ensures r != Undefined ==> v.Obj? && k in v.fields && r == v.fields[k]
  {
    if v.Obj? && k in v.fields then v.fields[k] else Undefined
  }

  /** What a `catch` clause can receive and still read a property of. */
  type Thrown = v: Js | !IsNullish(v) witness Obj(map[])
}
