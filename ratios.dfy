/**
 * Facts about the exact ratios the metrics compute: a count divided by a
 * positive total lies in [0, 1], and the like.
 */
module Ratios {

  /** A part over a positive whole lies in [0, 1]. */
  lemma FractionInUnitInterval(n: nat, d: nat)
    requires n <= d && d > 0
    ensures 0.0 <= n as real / d as real <= 1.0
  {
  }

  /** A positive whole over itself is 1. */
  lemma WholeFraction(n: nat)
    requires n > 0
    ensures n as real / n as real == 1.0
  {
  }

  /** Dividing by the same positive total keeps the order of the counts. */
  lemma DivideMonotone(a: nat, b: nat, d: nat)
    requires a <= b && d > 0
    ensures a as real / d as real <= b as real / d as real
  {
  }

  /** A ratio in [0, 1] scaled by a factor in [0, 1] stays between 0 and the factor. */
  lemma ScaledRatioBound(ratio: real, penalty: real)
    requires 0.0 <= ratio <= 1.0 && 0.0 <= penalty <= 1.0
    ensures 0.0 <= ratio * penalty <= penalty
  {
  }

  /** A positive total over a positive count is positive. */
  lemma QuotientPositive(x: real, n: nat)
    requires x > 0.0 && n > 0
    ensures x / n as real > 0.0
  {
  }
}
