/**
 * The JavaScript values that the settings helpers pass around, as far as those
 * helpers look into them.
 */
module JsValues {

  /**
   * A JavaScript value.
   * - `Unassigned` is the wrapper's private `Symbol('unassigned')` sentinel.
   * - `Obj` is a plain object: its own enumerable properties and the enumerable
   *   properties it inherits through its prototype chain (both seen by `for…in`).
   * - `Other` stands for any value of another built-in type (a function, a
   *   `Date`, …), identified by an opaque tag. Instances of classes are `Obj`.
   */
  datatype JsValue =
    | Undefined
    | Null
    | Unassigned
    | Bool(b: bool)
    | Num(n: int)
    | Str(s: string)
    | Arr(elems: seq<JsValue>)
    | Obj(own: map<string, JsValue>, inherited: map<string, JsValue>)
    | Other(tag: string, id: int)

  /** JavaScript truthiness (`NaN` and `-0` are not modelled: numbers are integers). */
  predicate Truthy(v: JsValue) {
    match v
    case Undefined => false
    case Null => false
    case Bool(b) => b
    case Num(n) => n != 0
    case Str(s) => s != ""
    case _ => true
  }

  /** Property read `obj[key]` on a property bag: a missing key reads as `undefined`. */
  function Get(m: map<string, JsValue>, key: string): JsValue {
    if key in m then m[key] else Undefined
  }
}
