/** The two query-string coercions. Their declared parameter is an optional string,
    number or boolean. */
module Parsers {
  import opened JsValues

  /** The values the declared parameter type admits. */
  predicate ParserInput(v: JsValue) {
    v.Undefined? || v.Bool? || v.Num? || v.NaN? || v.Str?
  }

  /** `parseBoolean`: a falsy value is false; otherwise only the string 'true', the number 1
      and the boolean true are true. */
  function ParseBoolean(v: JsValue): (r: bool)
    ensures !v.Truthy() ==> !r
    ensures r <==> v == Str("true") || v == Num(1) || v == Bool(true)
  {
    if !v.Truthy() then false
    else v == Str("true") || v == Num(1) || v == Bool(true)
  }

  /** Other truthy spellings are not accepted. */
  lemma ParseBooleanRejectsLookalikes()
    ensures !ParseBoolean(Str("false")) && !ParseBoolean(Str("1"))
    ensures !ParseBoolean(Str("TRUE")) && !ParseBoolean(Num(2))
    ensures !ParseBoolean(Undefined) && !ParseBoolean(Str("")) && !ParseBoolean(Num(0))
    ensures !ParseBoolean(Bool(false))
  {
  }

  /** What `parseNumber` returns: a number, or the result of `Number()` on a non-empty
      string, which is float parsing and is not modelled further. */
  datatype NumberResult = Int(n: int) | FromString(s: string)

  /** `parseNumber`: 0 for a falsy value, the number itself for a non-zero number, 1 for true. */
  function ParseNumber(v: JsValue): (r: NumberResult)
    requires ParserInput(v)
    ensures !v.Truthy() ==> r == Int(0)
    ensures v.Num? ==> r == Int(v.n)
    ensures v == Bool(true) ==> r == Int(1)
    ensures r.FromString? <==> v.Str? && v.s != ""
    ensures r.FromString? ==> r.s == v.s
  {
    if !v.Truthy() then Int(0)
    else match v
      case Num(n) => Int(n)
      case Str(s) => FromString(s)
      case Bool(_) => Int(1)
  }
}
