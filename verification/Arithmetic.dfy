/** Products and quotients: the few facts about them that several modules need. */
module Arithmetic {

  lemma FractionMonotone(x: real, x': real, y: real)
    requires x <= x' && 0.0 < y
    ensures x / y <= x' / y
  {
  }

  lemma ShareRange(x: real, y: real)
    requires 0.0 <= x <= y && 0.0 < y
    ensures 0.0 <= x / y <= 1.0
  {
    FractionMonotone(0.0, x, y);
    FractionMonotone(x, y, y);
    assert 0.0 / y == 0.0 && y / y == 1.0;
  }

  /** A positive factor can be cancelled. */
  lemma CancelLess(k: int, a: int, b: int)
    requires k > 0 && k * a < k * b
    ensures a < b
  {
    assert k * (b - a) == k * b - k * a;
  }

  lemma ScaledLe(a: nat, b: nat, k: nat)
    requires a <= b
    ensures a * k <= b * k
  {
  }
}
