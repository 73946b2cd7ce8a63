/** The JavaScript values the configuration layer inspects, and their truthiness. */
module JsValues {

  /** A JavaScript number as the configuration layer sees it: an integer or NaN.
      Fractions, infinities and the sign of zero are not represented; -0 is Num(0),
      which has the same truthiness and the same decimal text. */
  datatype Number = Num(value: int) | NaN

  /** `!n` for a number: NaN and zero are falsy. */
  predicate FalsyNumber(n: Number) {
    n == NaN || n == Num(0)
  }

  /** A value of TypeScript type `unknown`, as given for a TLS `cert` or `key`.
      `Object` stands for every object (arrays, buffers, functions included). */
  datatype JsValue =
    | Undefined
    | Null
    | Bool(b: bool)
    | Numeric(n: Number)
    | Str(s: string)
    | Object

  /** `!v`: the falsy values are undefined, null, false, 0, NaN and "". */
  predicate Falsy(v: JsValue) {
    match v
    case Undefined => true
    case Null => true
    case Bool(b) => !b
    case Numeric(n) => FalsyNumber(n)
    case Str(s) => s == ""
    case Object => false
  }
}
