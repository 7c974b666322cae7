/** Facts about products and quotients of reals, each small enough to stand on its own. */
module Reals {
  lemma PositiveProduct(x: real, y: real)
    requires 0.0 < x && 0.0 < y
    ensures 0.0 < x * y
  {
  }

  lemma NonNegativeProduct(x: real, y: real)
    requires 0.0 <= x && 0.0 <= y
    ensures 0.0 <= x * y
  {
  }

  lemma UnitQuotient(u: real, t: real)
    requires 0.0 <= u <= t && 0.0 < t
    ensures 0.0 <= u / t <= 1.0
  {
  }

  lemma QuotientMonotone(a: real, b: real, t: real)
    requires a < b && 0.0 < t
    ensures a / t < b / t
  {
  }

  lemma Complement(x: real, y: real, b: real)
    requires y == 1.0 - x
    ensures y * b == b - x * b
  {
  }

  lemma ProductShrinks(x: real, b: real)
    requires 0.0 <= x <= 1.0 && 0.0 <= b
    ensures 0.0 <= x * b <= b
  {
    var y := 1.0 - x;
    NonNegativeProduct(x, b);
    NonNegativeProduct(y, b);
    Complement(x, y, b);
  }

  lemma Distributes(x: real, y: real, t: real)
    ensures (x - y) * t == x * t - y * t && (y - x) * t == y * t - x * t
  {
  }
}
