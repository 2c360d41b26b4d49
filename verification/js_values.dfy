/** The JavaScript values the helpers receive, with the language's truthiness. Numbers are
    integers here; NaN is the one non-integer number the helpers can meet. */
module JsValues {
  datatype JsValue =
    | Undefined
    | Null
    | Bool(b: bool)
    | Num(n: int)
    | NaN
    | Str(s: string)
    | Obj(fields: map<string, JsValue>)
  {
    /** `!!value`: false, 0, NaN, the empty string, null and undefined are falsy; every
        object is truthy. */
    predicate Truthy() {
      match this
      case Undefined => false
      case Null => false
      case Bool(b) => b
      case Num(n) => n != 0
      case NaN => false
      case Str(s) => s != ""
      case Obj(_) => true
    }

    /** Property access `value?.key` on a plain value: an own key of an object, undefined
        for anything else (primitives and null/undefined carry no such keys). */
    function Get(key: string): (r: JsValue)
      ensures !Obj? ==> r == Undefined
      ensures Obj? && key !in fields ==> r == Undefined
      ensures Obj? && key in fields ==> r == fields[key]
    {
      if Obj? && key in fields then fields[key] else Undefined
    }
  }
}
