/** Facts about remainders by a positive number that the solver does not find alone. */
module Modulo {

  lemma ProductGap(p: int, q: int, d: int)
    requires 0 < d && p < q
    ensures p * d + d <= q * d
  {
    assert (q - p) * d == q * d - p * d;
    assert (q - p - 1) * d >= 0;
  }

  lemma NonPositiveProduct(k: int, d: int)
    requires k <= 0 < d
    ensures k * d <= 0
  {
  }

  lemma QuotientAndRemainder(x: int, d: int)
    requires 0 < d
    ensures x == (x / d) * d + x % d
  {
  }

  lemma UniqueRemainder(x: int, q: int, r: int, d: int)
    requires 0 < d && x == q * d + r && 0 <= r < d
    ensures x % d == r
  {
    QuotientAndRemainder(x, d);
    if q < x / d {
      ProductGap(q, x / d, d);
    } else if x / d < q {
      ProductGap(x / d, q, d);
    }
  }

  lemma AddMultiple(x: int, k: int, d: int)
    requires 0 < d
    ensures (x + k * d) % d == x % d
  {
    QuotientAndRemainder(x, d);
    assert x + k * d == (x / d + k) * d + x % d;
    UniqueRemainder(x + k * d, x / d + k, x % d, d);
  }

  /** Two numbers with the same remainder are a whole number of steps apart. */
  lemma SameRemainderGap(x: int, y: int, d: int)
    requires 0 < d && x < y && x % d == y % d
    ensures x + d <= y
  {
    QuotientAndRemainder(x, d);
    QuotientAndRemainder(y, d);
    if y / d < x / d {
      ProductGap(y / d, x / d, d);
    } else if x / d < y / d {
      ProductGap(x / d, y / d, d);
    }
  }

  lemma ZeroRemainderIsMultiple(x: int, d: int) returns (k: int)
    requires 0 < d && x % d == 0
    ensures x == k * d && (0 <= x ==> 0 <= k)
  {
    QuotientAndRemainder(x, d);
    k := x / d;
  }

  lemma UniqueQuotient(x: int, q: int, r: int, d: int)
    requires 0 < d && x == q * d + r && 0 <= r < d
    ensures x / d == q
  {
    QuotientAndRemainder(x, d);
    if q < x / d {
      ProductGap(q, x / d, d);
    } else if x / d < q {
      ProductGap(x / d, q, d);
    }
  }

  /** Two numbers with the same remainder differ by a multiple. */
  lemma SameRemainderMultiple(x: int, y: int, d: int) returns (k: int)
    requires 0 < d && x % d == y % d
    ensures y == x + k * d
  {
    QuotientAndRemainder(x, d);
    QuotientAndRemainder(y, d);
    k := y / d - x / d;
    assert k * d == (y / d) * d - (x / d) * d;
  }

  /** The smallest multiple of d that is at least x, in steps of d. */
  function RoundUp(x: int, d: int): int
    requires 0 < d
  {
    (x + d - 1) / d
  }

  lemma RoundUpBounds(x: int, d: int)
    requires 0 < d
    ensures x <= RoundUp(x, d) * d < x + d
  {
    QuotientAndRemainder(x + d - 1, d);
  }

  lemma RoundUpIsUnique(x: int, k: int, d: int)
    requires 0 < d && x <= k * d < x + d
    ensures k == RoundUp(x, d)
  {
    UniqueQuotient(x + d - 1, k, x + d - 1 - k * d, d);
  }
}
