/**
 * JavaScript numbers as the demos meet them: integers, and the NaN that arithmetic on
 * `undefined` (a missing array element) produces.
 */
module JsNumbers {
  datatype Number = Num(n: int) | NaN

  /** `a + b`; NaN absorbs. */
  function Add(a: Number, b: Number): Number {
    if a.Num? && b.Num? then Num(a.n + b.n) else NaN
  }

  /** `a - b`; NaN absorbs. */
  function Sub(a: Number, b: Number): Number {
    if a.Num? && b.Num? then Num(a.n - b.n) else NaN
  }

  /** `xs[i]` read as a number: an index outside the array gives `undefined`, which turns
      into NaN as soon as it takes part in arithmetic. */
  function At(xs: seq<int>, i: int): Number {
    if 0 <= i < |xs| then Num(xs[i]) else NaN
  }
}
