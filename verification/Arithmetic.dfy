/** Products and quotients of integers, one step at a time. */
module Arithmetic {
  lemma MulMono(x: int, y: int, k: int)
    requires x <= y && 0 <= k
    ensures x * k <= y * k
  {
    assert (y - x) * k >= 0;
  }

  lemma Distribute(q: int, y: int)
    ensures (q + 1) * y == q * y + y
  {
  }

  /** One more times `x`. */
  lemma TimesNext(k: int, next: int, x: int)
    requires next == k + 1
    ensures next * x == k * x + x && x * next == x * k + x
  {
  }

  lemma MinusTimes(x: int, y: int)
    ensures (-x) * y == -(x * y)
  {
  }

  lemma DifferenceTimes(x: int, y: int, k: int)
    ensures (x - y) * k == x * k - y * k
  {
  }

  lemma DivMod(a: int, b: int)
    requires b > 0
    ensures a == (a / b) * b + a % b && 0 <= a % b < b
  {
  }

  lemma PositiveProduct(x: int, y: int)
    requires x > 0 && y > 0
    ensures x * y > 0
  {
  }

  /** Euclidean division, for a positive divisor. */
  lemma DivBounds(a: int, b: int)
    requires b > 0
    ensures (a / b) * b <= a < (a / b) * b + b
    ensures a >= 0 ==> a / b >= 0
  {
    assert a == (a / b) * b + a % b;
  }

  /** A quotient of a number between two multiples lies between their factors. */
  lemma QuotientBetween(s: int, n: int, q: int, lo: int, hi: int)
    requires n > 0 && lo * n <= s <= hi * n && q * n <= s < q * n + n
    ensures lo <= q <= hi
  {
    Distribute(q, n);
    Distribute(hi, n);
    if q < lo {
      MulMono(q + 1, lo, n);
    }
    if q > hi {
      MulMono(hi + 1, q, n);
    }
  }

  lemma AboveQuotient(x: int, y: int, q: int, limit: int)
    requires y > 0 && q * y <= limit < q * y + y
    ensures x > q <==> x * y > limit
  {
    Distribute(q, y);
    if x > q {
      MulMono(q + 1, x, y);
    } else {
      MulMono(x, q, y);
    }
  }

  lemma SmallerFactor(p: int, q: int, d: int, a: int, b: int)
    requires d > 0 && a + d <= b && p * d <= a && b < q * d + d
    ensures p < q
  {
    if q <= p {
      MulMono(q, p, d);
    }
  }

  lemma QuotientLess(a: int, b: int, d: int)
    requires d > 0 && a + d <= b
    ensures a / d < b / d
  {
    DivBounds(a, d);
    DivBounds(b, d);
    SmallerFactor(a / d, b / d, d, a, b);
  }
}
