/** Go's 64-bit integer arithmetic, written out over the unbounded `int`.

    `Wrap` is what an int64 operator stores, `Quo` is Go's truncating `/`, and
    the `Safe*` functions are the overflow-checking helpers of
    types/validator_set.go. */
module Int64 {
  import Arithmetic

  const MAX: int := 0x7FFF_FFFF_FFFF_FFFF
  const MIN: int := -0x8000_0000_0000_0000
  const MODULUS: int := 0x1_0000_0000_0000_0000

  predicate InRange(x: int) {
    MIN <= x <= MAX
  }

  /** The int64 congruent to `x` modulo 2^64. */
  function Wrap(x: int): (r: int)
    ensures InRange(r)
    ensures r == x <==> InRange(x)
  {
    (x - MIN) % MODULUS + MIN
  }

  /** Go's `/`: truncation toward zero. */
  function Quo(a: int, b: int): int
    requires b != 0
  {
    if a >= 0 then a / b else -((-a) / b)
  }

  /** Saturation to the int64 range. */
  function Clamp(x: int): int {
    if x < MIN then MIN else if x > MAX then MAX else x
  }

  function SafeAdd(a: int, b: int): (int, bool) {
    if b > 0 && a > MAX - b then (-1, true)
    else if b < 0 && a < MIN - b then (-1, true)
    else (Wrap(a + b), false)
  }

  function SafeSub(a: int, b: int): (int, bool) {
    if b > 0 && a < MIN + b then (-1, true)
    else if b < 0 && a > MAX + b then (-1, true)
    else (Wrap(a - b), false)
  }

  function SafeAddClip(a: int, b: int): (r: int)
    ensures InRange(r)
    ensures InRange(a) && InRange(b) ==> r == Clamp(a + b)
  {
    var (c, overflow) := SafeAdd(a, b);
    if overflow then (if b < 0 then MIN else MAX) else c
  }

  function SafeSubClip(a: int, b: int): (r: int)
    ensures InRange(r)
    ensures InRange(a) && InRange(b) ==> r == Clamp(a - b)
  {
    var (c, overflow) := SafeSub(a, b);
    if overflow then (if b > 0 then MIN else MAX) else c
  }

  /** The absolute values wrap as Go's do: -MIN is MIN again. */
  function SafeMul(a: int, b: int): (int, bool)
    requires InRange(a) && InRange(b)
  {
    if a == 0 || b == 0 then (0, false)
    else
      var absOfB := if b < 0 then Wrap(-b) else b;
      var absOfA := if a < 0 then Wrap(-a) else a;
      if absOfA > Quo(MAX, absOfB) then (0, true) else (Wrap(a * b), false)
  }

  /** `x > MAX / y` is `x * y > MAX` for positive operands. */
  lemma AbsProduct(x: int, y: int)
    requires x > 0 && y > 0
    ensures x > Quo(MAX, y) <==> x * y > MAX
  {
    Arithmetic.DivBounds(MAX, y);
    Arithmetic.AboveQuotient(x, y, MAX / y, MAX);
  }

  lemma SignedProduct(a: int, b: int, absA: int, absB: int)
    requires absA == (if a < 0 then -a else a) && absB == (if b < 0 then -b else b)
    ensures a * b == absA * absB || a * b == -(absA * absB)
  {
    assert (-a) * (-b) == a * b && (-a) * b == -(a * b) && a * (-b) == -(a * b);
  }

  /** MinInt64 times anything but 0 and 1 leaves the int64 range, and times 1 stays at
      its end. */
  lemma MinTimes(b: int)
    requires b != 0
    ensures InRange(MIN * b) <==> b == 1
    ensures !(MIN < MIN * b <= MAX)
  {
  }

  lemma FlagOfOrdinary(a: int, b: int)
    requires InRange(a) && InRange(b) && a != 0 && b != 0 && a != MIN && b != MIN
    ensures SafeMul(a, b).1 <==> !(MIN < a * b <= MAX)
  {
    var absA := if a < 0 then -a else a;
    var absB := if b < 0 then -b else b;
    AbsProduct(absA, absB);
    SignedProduct(a, b, absA, absB);
    Arithmetic.PositiveProduct(absA, absB);
  }

  lemma QuotientOfMax(b: int)
    requires b != 0
    ensures -MAX <= Quo(MAX, b) <= MAX && -MAX <= Quo(MAX, -b) <= MAX
  {
  }

  /** The flag is raised exactly when the left operand is not MinInt64 and the product is
      not strictly above MinInt64 and at most MaxInt64. */
  lemma SafeMulFlag(a: int, b: int)
    requires InRange(a) && InRange(b)
    ensures SafeMul(a, b).1 <==> a != MIN && !(MIN < a * b <= MAX)
  {
    if a != 0 && b != 0 {
      if b == MIN {
        assert Quo(MAX, MIN) == 0;
        MinTimes(a);
        assert a * MIN == MIN * a;
      } else if a != MIN {
        FlagOfOrdinary(a, b);
      } else {
        assert Quo(MAX, b) >= -MAX && Quo(MAX, -b) >= -MAX by {
          QuotientOfMax(b);
        }
      }
    }
  }

  /** The overflow flag of SafeMul is trustworthy exactly when the left operand
      is not MinInt64, or the right one is 0 or 1: -MinInt64 wraps to a negative
      number, so the comparison that should catch the overflow never fires. And it is
      a false alarm exactly when the product is MinInt64 and the left operand is not. */
  lemma SafeMulExact(a: int, b: int)
    requires InRange(a) && InRange(b)
    ensures var (c, overflow) := SafeMul(a, b);
            && ((overflow || c == a * b) <==> (a != MIN || b == 0 || b == 1))
            && (overflow <==> a != MIN && !(MIN < a * b <= MAX))
            && (overflow && InRange(a * b) <==> a != MIN && a * b == MIN)
  {
    SafeMulFlag(a, b);
    if a == MIN && b != 0 {
      MinTimes(b);
    }
  }
}
