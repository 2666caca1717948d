/** Rounding up, and order under a positive factor. */
module Reals {

  function Ceiling(x: real): int { -(-x).Floor }

  lemma Scaled(x: real, y: real, k: real)
    requires k > 0.0 && x <= y
    ensures x * k <= y * k
  {
    assert (y - x) * k >= 0.0;
  }
}
