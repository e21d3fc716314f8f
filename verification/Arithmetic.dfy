/** Integer arithmetic that wheels and size classes share. */
module Arithmetic {

  /** Division as the source's language does it: truncated towards zero. */
  function GoDiv(a: int, b: int): (r: int)
    requires b > 0
  {
    if a >= 0 then a / b else -((-a) / b)
  }

  /** What is left over is less than the divisor and has the sign of the dividend. */
  lemma GoDivMeaning(a: int, b: int)
    requires b > 0
    ensures var left := a - GoDiv(a, b) * b; -b < left < b && (a >= 0 ==> left >= 0) && (a <= 0 ==> left <= 0)
  {
  }

  lemma MulMonotone(a: int, b: int, c: int)
    requires a <= b && 0 <= c
    ensures a * c <= b * c
  {
  }
}
