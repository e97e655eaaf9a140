/**
 * Exact fractions for the source's floating-point ratios. A `Ratio(num, den)`
 * stands for num / den; comparisons are done by cross-multiplication, so
 * boundary cases are decided exactly rather than as IEEE doubles.
 */
module Ratios {
  datatype Ratio = Ratio(num: nat, den: nat)

  /** num / den >= p / q, for positive denominators. */
  predicate AtLeast(r: Ratio, p: nat, q: nat)
    requires r.den > 0 && q > 0
  {
    r.num * q >= p * r.den
  }
}
