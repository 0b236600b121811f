/**
 * Percentages kept as exact fractions. Every rate in the system is `part / whole * 100`
 * behind a guard that answers 0 when `whole` is 0; the floating-point value and its
 * `toFixed`/`Math.round` formatting are not modelled, only the fraction it approximates.
 */
module Ratios {
  /** The rational number `numerator / denominator`. */
  datatype Ratio = Ratio(numerator: int, denominator: int)

  /** `whole > 0 ? part / whole * 100 : 0`, written for any non-zero `whole` like `$cond` does. */
  function PercentOf(part: int, whole: int): (r: Ratio)
    ensures r.denominator != 0
    ensures whole == 0 ==> r.numerator == 0
    ensures whole != 0 ==> r.numerator * whole == 100 * part * r.denominator
  {
    if whole == 0 then Ratio(0, 1) else Ratio(100 * part, whole)
  }

  /** A part of a positive whole is between 0 and 100 percent of it. */
  lemma PercentInRange(part: int, whole: int)
    requires 0 <= part <= whole
    ensures var r := PercentOf(part, whole);
      r.denominator > 0 && 0 <= r.numerator <= 100 * r.denominator
  {
  }
}
