/** Minimum, maximum, and facts about products, quotients and rounding down, shared by the whole project. */
module Arithmetic {

  function Min(x: int, y: int): int {
    if x <= y then x else y
  }

  function Max(x: int, y: int): int {
    if x <= y then y else x
  }

  lemma ProductNonNegative(x: int, y: int)
    requires 0 <= x && 0 <= y
    ensures 0 <= x * y
  {
  }

  lemma MultiplyLeft(k: int, x: int, y: int)
    requires 0 <= k && x <= y
    ensures k * x <= k * y
  {
  }

  lemma Cancel(x: int, y: int, d: int)
    requires 0 < d && x * d <= y * d
    ensures x <= y
  {
    if y < x {
      MultiplyMonotone(y + 1, x, d);
      MultiplyMonotone(y, y, d);
    }
  }

  lemma DivisionBounds(x: int, d: int)
    requires 0 <= x && 0 < d
    ensures 0 <= x / d
    ensures x / d * d <= x < x / d * d + d
    ensures d <= x ==> 1 <= x / d
  {
  }

  lemma MultiplyMonotone(x: int, y: int, d: int)
    requires 0 < d && x <= y
    ensures x * d <= y * d
    ensures (x + 1) * d == x * d + d
  {
  }

  lemma MultiplesDivide(k: int, d: int)
    requires 0 < d
    ensures k * d / d == k
    ensures (k + 1) * d == k * d + d && (k - 1) * d == k * d - d
  {
    var q := k * d / d;
    assert q * d <= k * d < q * d + d;
    if q < k {
      MultiplyMonotone(q + 1, k, d);
    } else {
      MultiplyMonotone(k, q, d);
      if k < q {
        MultiplyMonotone(k + 1, q, d);
      }
    }
  }

  lemma QuotientMonotone(x: int, y: int, d: int)
    requires 0 < d && x <= y
    ensures x / d <= y / d
  {
    if y / d < x / d {
      MultiplyMonotone(y / d + 1, x / d, d);
    }
  }

  /** A rounded-down quotient is below a whole number exactly when the quotient is. */
  lemma FloorIsBelow(x: int, limit: int, d: int)
    requires 0 < d
    ensures x / d < limit <==> x < limit * d
  {
    if x / d < limit {
      MultiplyMonotone(x / d + 1, limit, d);
    } else {
      MultiplyMonotone(limit, x / d, d);
    }
  }

  lemma QuotientBounds(x: int, q: int, d: int)
    requires 0 < d && 0 <= x <= q * d
    ensures 0 <= x / d <= q
  {
    QuotientMonotone(x, q * d, d);
    QuotientMonotone(0, x, d);
    MultiplesDivide(q, d);
  }

  /** `q` is the quotient when its multiple is the last one not above `x`. */
  lemma QuotientIs(x: int, d: int, q: int)
    requires 0 < d && q * d <= x < q * d + d
    ensures x / d == q
  {
    var r := x / d;
    if r < q {
      MultiplyMonotone(r + 1, q, d);
      MultiplyMonotone(r, q, d);
    } else if q < r {
      MultiplyMonotone(q + 1, r, d);
      MultiplyMonotone(q, r, d);
    }
  }

  lemma MultipleBelow(x: int, y: int, d: int)
    requires 0 < d && x * d < y * d + d
    ensures x <= y && x * d <= y * d
  {
    if y < x {
      MultiplyMonotone(y, x - 1, d);
      MultiplyMonotone(y + 1, x, d);
    } else {
      MultiplyMonotone(x, y, d);
    }
  }

  /** Rounding down twice, to a divisor first, is rounding down once. */
  lemma FloorsNest(x: int, d: int, k: int)
    requires 0 < d && 0 < k && 0 < k * d
    ensures x / d * d / (k * d) == x / (k * d)
  {
    var q, p := x / (k * d), x / d;
    assert q * (k * d) == (q * k) * d;
    MultipleBelow(q * k, p, d);
    QuotientIs(p * d, k * d, q);
  }
}
