/** Products of reals, with the few facts about them the model needs proved
    once, each over a product of two separate factors. */
module RealArith {
  function Product(a: real, b: real): real {
    a * b
  }

  lemma ProductOfPositives(a: real, b: real)
    requires a > 0.0 && b > 0.0
    ensures Product(a, b) > 0.0
  {
  }

  lemma ProductOfNegatives(a: real, b: real)
    requires a < 0.0 && b < 0.0
    ensures Product(a, b) > 0.0
  {
  }

  lemma ProductOfNonNegatives(a: real, b: real)
    requires a >= 0.0 && b >= 0.0
    ensures Product(a, b) >= 0.0
  {
  }

  lemma ProductWithZero(a: real, b: real)
    requires a == 0.0 || b == 0.0
    ensures Product(a, b) == 0.0
  {
  }

  /** Both factors distribute over a difference. */
  lemma ProductSubtracts(a: real, b: real, c: real)
    ensures Product(a, b) - Product(a, c) == Product(a, b - c)
    ensures Product(b, a) - Product(c, a) == Product(b - c, a)
  {
  }

  /** Multiplying by 1 or by a constant factor. */
  lemma ProductByOne(a: real)
    ensures Product(a, 1.0) == a && Product(1.0, a) == a
  {
  }

  /** A non-negative factor keeps the order of the other. */
  lemma ProductMonotone(a: real, b: real, c: real)
    requires a <= b && c >= 0.0
    ensures Product(a, c) <= Product(b, c)
  {
    ProductOfNonNegatives(b - a, c);
    ProductSubtracts(c, b, a);
  }

  /** A positive factor keeps the strict order of the other. */
  lemma ProductStrictlyMonotone(a: real, b: real, c: real)
    requires a < b && c > 0.0
    ensures Product(a, c) < Product(b, c)
  {
    ProductOfPositives(b - a, c);
    ProductSubtracts(c, b, a);
  }

  /** Dividing by a non-zero factor undoes multiplying by it. */
  lemma QuotientTimes(p: real, t: real)
    requires t != 0.0
    ensures Product(p / t, t) == p
    ensures Product(p, t) / t == p
  {
  }

  /** A positive factor can be cancelled from both sides of an inequality. */
  lemma ProductCancels(a: real, b: real, c: real)
    requires c > 0.0 && Product(a, c) <= Product(b, c)
    ensures a <= b
  {
  }
}
