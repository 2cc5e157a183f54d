/**
 * The values a field of a parsed JSON request body can hold, with JavaScript's
 * truthiness (`!x`, `x || y`) and string conversion (`x.toString()`, `String(x)`).
 * Numbers in a request body are modelled as integers; arrays and objects are not modelled.
 */
module JsValues {
  import JsStrings

  datatype JsValue = Undefined | Null | Bool(b: bool) | Num(n: int) | Str(s: string)

  /** JavaScript truthiness: `undefined`, `null`, `false`, `0` and `""` are falsy. */
  predicate Truthy(v: JsValue) {
    match v
    case Undefined => false
    case Null => false
    case Bool(b) => b
    case Num(n) => n != 0
    case Str(s) => s != ""
  }

  /** `String(v)`, which is `v.toString()` on every value but `undefined` and `null`. */
  function ToText(v: JsValue): string {
    match v
    case Undefined => "undefined"
    case Null => "null"
    case Bool(b) => if b then "true" else "false"
    case Num(n) => JsStrings.IntToString(n)
    case Str(s) => s
  }

  /** `v || fallback`. */
  function OrElse(v: JsValue, fallback: JsValue): (r: JsValue)
    ensures Truthy(v) ==> r == v
    ensures !Truthy(v) ==> r == fallback
  {
    if Truthy(v) then v else fallback
  }
}
