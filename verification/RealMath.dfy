/** The few facts about products of reals the proofs need, one at a time. */
module RealMath {
  lemma NonNegative(x: real, y: real)
    requires x >= 0.0 && y >= 0.0
    ensures x * y >= 0.0
  {
  }

  lemma Positive(x: real, y: real)
    requires x > 0.0 && y > 0.0
    ensures x * y > 0.0
  {
  }

  lemma Distribute(x: real, y: real, z: real)
    ensures (x + y) * z == x * z + y * z
  {
  }

  lemma TimesOne(x: real, one: real)
    requires one == 1.0
    ensures x * one == x && one * x == x
  {
  }

  lemma Reassociate(x: real, y: real, z: real)
    ensures x * (y * z) == x * y * z
  {
  }

  lemma Scale(x: real, y: real, z: real)
    requires x <= y && z >= 0.0
    ensures x * z <= y * z
  {
    NonNegative(y - x, z);
    Distribute(y - x, x, z);
  }

  lemma ScaleStrict(x: real, y: real, z: real)
    requires x < y && z > 0.0
    ensures x * z < y * z
  {
    Positive(y - x, z);
    Distribute(y - x, x, z);
  }

  lemma Cancel(x: real, y: real, z: real)
    requires z > 0.0
    ensures x * z <= y * z <==> x <= y
    ensures x * z < y * z <==> x < y
  {
    if x < y {
      ScaleStrict(x, y, z);
    } else if x > y {
      ScaleStrict(y, x, z);
    }
  }

  lemma Shrink(x: real, y: real)
    requires x <= 1.0 && y >= 0.0
    ensures x * y <= y
  {
    NonNegative(1.0 - x, y);
  }

  lemma ProductInUnit(x: real, y: real)
    requires x >= 0.0 && y >= 0.0 && x <= 1.0 && y <= 1.0
    ensures x * y >= 0.0 && x * y <= 1.0
  {
    NonNegative(x, y);
    Shrink(x, y);
  }

  lemma Quotient(x: real, d: real)
    requires d > 0.0
    ensures x / d * d == x
  {
  }

  lemma QuotientOrder(x: real, y: real, d: real)
    requires d > 0.0
    ensures x / d <= y / d <==> x <= y
    ensures x / d < y / d <==> x < y
  {
    Quotient(x, d);
    Quotient(y, d);
    Cancel(x / d, y / d, d);
  }

  lemma QuotientSum(x: real, y: real, d: real)
    requires d > 0.0
    ensures (x + y) / d == x / d + y / d
  {
  }

  /** A quotient against a bound, without the division. */
  lemma QuotientBound(x: real, d: real, s: real)
    requires d > 0.0
    ensures x / d <= s <==> x <= s * d
    ensures s <= x / d <==> s * d <= x
    ensures x / d < s <==> x < s * d
  {
    Quotient(x, d);
    Cancel(x / d, s, d);
    Cancel(s, x / d, d);
  }
}
