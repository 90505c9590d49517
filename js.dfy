/** The few JavaScript value rules the request handlers depend on. */
module Js {

  /** A JavaScript value as it can appear in a parsed JSON request body.
      Numbers are modelled as mathematical integers. */
  datatype JsValue =
    | Undefined
    | Null
    | Bool(b: bool)
    | Num(n: int)
    | Str(s: string)
    | Object

  /** JavaScript truthiness: `undefined`, `null`, `false`, `0` and `""` are falsy,
      every other value (every object included) is truthy. */
  predicate Truthy(v: JsValue)
  {
    match v
    case Undefined => false
    case Null => false
    case Bool(b) => b
    case Num(n) => n != 0
    case Str(s) => s != ""
    case Object => true
  }

  /** `typeof v === 'number'` */
  predicate IsNumber(v: JsValue)
  {
    v.Num?
  }
}
