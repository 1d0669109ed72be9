/** Small value types that stand for JavaScript notions used throughout the
    application: optional values (`undefined`/`null`) and integers that may be
    `NaN` because they came out of `parseInt`. */
module Js {

  /** An optional value; `None` stands for `undefined` or `null`. */
  datatype Option<+T> = None | Some(value: T) {
    function GetOr(default: T): T {
      match this
      case Some(v) => v
      case None => default
    }
  }

  /** An integral JavaScript number, or `NaN`. */
  datatype JsInt = Int(i: int) | NaN

  /** JavaScript truthiness of an optional string: `undefined` and `""` are falsy. */
  predicate TruthyString(s: Option<string>) {
    s.Some? && s.value != ""
  }

  /** `s || undefined` for a string `s`: the empty string becomes absent. */
  function NonEmpty(s: string): (r: Option<string>)
    ensures r.None? <==> s == ""
    ensures r.Some? ==> r.value == s
  {
    if s == "" then None else Some(s)
  }

  /** `Math.floor(a / b)` for a positive divisor (Dafny's division with a
      positive divisor already rounds down). */
  function FloorDiv(a: int, b: int): (q: int)
    requires b > 0
    ensures q * b <= a < q * b + b
  {
    a / b
  }

  /** `a % b` for a positive divisor: the remainder of division truncated
      toward zero, which takes the sign of `a`. */
  function Rem(a: int, b: int): (r: int)
    requires b > 0
    ensures -b < r < b
    ensures a >= 0 ==> 0 <= r && r == a % b
    ensures a < 0 ==> r <= 0 && -r == (-a) % b
  {
    if a >= 0 then a % b else -((-a) % b)
  }
}
