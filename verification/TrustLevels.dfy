/** Trust levels (libs/math/fraction.go, light/verifier.go) and the voting power they
    ask for (types/validation.go). */
module TrustLevels {
  import opened Common
  import Arithmetic
  import Int64

  const UINT64: nat := 0x1_0000_0000_0000_0000

  /** Two uint64 numbers. */
  datatype Fraction = Fraction(numerator: nat, denominator: nat)

  datatype LevelError = ZeroDenominator | PowerOverflow

  predicate IsFraction(f: Fraction) {
    f.numerator < UINT64 && f.denominator < UINT64
  }

  /** A uint64 read as an int64. */
  function AsInt64(x: nat): (r: int)
    requires x < UINT64
    ensures Int64.InRange(r)
    ensures r == if x <= Int64.MAX then x else x - UINT64
  {
    Int64.Wrap(x)
  }

  /** The power needed under a trust level: int64 product and truncating quotient
      of the uint64 numbers read as int64. */
  function NeededPower(total: int, level: Fraction): Result<int, LevelError>
    requires Int64.InRange(total) && IsFraction(level)
  {
    if level.denominator == 0 then Err(ZeroDenominator)
    else
      var (product, overflow) := Int64.SafeMul(total, AsInt64(level.numerator));
      if overflow then Err(PowerOverflow)
      else Ok(Int64.Wrap(Int64.Quo(product, AsInt64(level.denominator))))
  }

  /** ValidateTrustLevel: the uint64 product wraps around. */
  predicate Allowed(level: Fraction)
    requires IsFraction(level)
  {
    !(|| (level.numerator * 3) % UINT64 < level.denominator
      || level.numerator >= level.denominator
      || level.denominator == 0)
  }

  lemma TripleWraps(n: nat)
    requires n < UINT64
    ensures (n * 3) % UINT64 == if 3 * n < UINT64 then 3 * n
                                else if 3 * n < 2 * UINT64 then 3 * n - UINT64 else 3 * n - 2 * UINT64
  {
  }

  /** What is allowed lies in [1/3, 1), wrap-around or not; and of that range exactly what
      is left when three times the numerator fits in 64 bits, or the denominator is not
      above what it wraps to. */
  lemma AllowedRange(level: Fraction)
    requires IsFraction(level)
    ensures var (n, d) := (level.numerator, level.denominator);
            && (Allowed(level) ==> 0 < n)
            && (Allowed(level) <==> n < d <= 3 * n && (3 * n < UINT64 || d <= 3 * n - UINT64 < UINT64))
  {
    TripleWraps(level.numerator);
  }

  /** So 6/7 is refused when written with large enough numbers. */
  lemma SixSeventhsRefused()
    ensures var (level, small) := (Fraction(0x6000_0000_0000_0000, 0x7000_0000_0000_0000), Fraction(6, 7));
            && IsFraction(level) && !Allowed(level) && Allowed(small)
            && level.numerator * small.denominator == small.numerator * level.denominator
  {
  }

  lemma Quotient(a: int, d: int, q: int, r: int)
    requires a >= 0 && d > 0 && a == q * d + r && 0 <= r < d
    ensures 0 <= q <= a && (q >= 1 <==> a >= d)
  {
    if q >= 1 {
      Arithmetic.MulMono(1, q, d);
      Arithmetic.MulMono(1, d, q);
    } else {
      Arithmetic.MulMono(q, 0, d);
      if q <= -1 {
        Arithmetic.MulMono(q, -1, d);
      }
    }
  }

  lemma FloorBounds(a: int, d: int)
    requires a >= 0 && d > 0
    ensures 0 <= a / d <= a && (a / d >= 1 <==> a >= d)
  {
    Quotient(a, d, a / d, a % d);
  }

  lemma SameQuotient(d: int, p: int, q: int, r: int, s: int)
    requires d > 0 && p * d + r == q * d + s && 0 <= r < d && 0 <= s < d
    ensures p == q
  {
    assert (p - q) * d == s - r;
    if p - q >= 1 { Arithmetic.MulMono(1, p - q, d); }
    if p - q <= -1 { Arithmetic.MulMono(p - q, -1, d); }
  }

  lemma QuoNegative(a: int, d: int)
    requires a >= 0 && d > 0
    ensures a / (-d) == -(a / d)
  {
    var (p, q) := (a / d, -(a / (-d)));
    assert (-q) * (-d) == q * d;
    SameQuotient(d, p, q, a % d, a % (-d));
  }

  lemma Regroup(num: int, more: int)
    ensures (3 * num) * more == (3 * more) * num
  {
  }

  lemma AboveThird(total: nat, num: nat, den: nat, needed: int, r: int)
    requires 0 < num && den <= 3 * num && needed >= 0
    requires total * num == needed * den + r && r < den
    ensures 3 * (needed + 1) > total
  {
    var more := needed + 1;
    Arithmetic.TimesNext(needed, more, den);
    Arithmetic.MulMono(den, 3 * num, more);
    Regroup(num, more);
    if 3 * more <= total {
      Arithmetic.MulMono(3 * more, total, num);
    }
  }

  /** Both numbers below 2^63: the floor of total * level. */
  lemma Ordinary(total: nat, level: Fraction)
    requires total <= Int64.MAX && IsFraction(level) && level.numerator < level.denominator <= Int64.MAX
    requires NeededPower(total, level).Ok?
    ensures NeededPower(total, level).value == total * level.numerator / level.denominator
  {
    Int64.SafeMulExact(total, level.numerator);
    FloorBounds(total * level.numerator, level.denominator);
  }

  /** Only the denominator above: the quotient comes out negative. */
  lemma NegativeDenominator(total: nat, level: Fraction)
    requires total <= Int64.MAX && IsFraction(level) && level.numerator <= Int64.MAX < level.denominator
    requires NeededPower(total, level).Ok?
    ensures NeededPower(total, level).value == -(total * level.numerator / (UINT64 - level.denominator))
  {
    Int64.SafeMulExact(total, level.numerator);
    FloorBounds(total * level.numerator, UINT64 - level.denominator);
    QuoNegative(total * level.numerator, UINT64 - level.denominator);
  }

  lemma QuotientAbove(a: int, d: int, k: int, q: int, r: int)
    requires d > 0 && a == q * d + r && r < d && k * d <= a
    ensures k <= q
  {
    assert (q + 1) * d == q * d + d;
    if q < k {
      Arithmetic.MulMono(q + 1, k, d);
    }
  }

  lemma AtLeastTotal(total: nat, n: int, d: int)
    requires 0 < d < n
    ensures total <= total * n / d <= total * n
  {
    var a := total * n;
    Arithmetic.MulMono(d, n, total);
    assert d * total == total * d;
    FloorBounds(a, d);
    QuotientAbove(a, d, total, a / d, a % d);
  }

  lemma NegativeProduct(total: nat, n: int)
    requires 0 < n <= Int64.MAX && total <= Int64.MAX && !Int64.SafeMul(total, -n).1
    ensures Int64.SafeMul(total, -n).0 == -(total * n) && total * n <= Int64.MAX
  {
    Int64.SafeMulExact(total, -n);
    assert total * (-n) == -(total * n);
    if total > 0 {
      Int64.AbsProduct(total, n);
    }
  }

  lemma QuoOfNegatives(a: int, d: int)
    requires 0 <= a && 0 < d
    ensures Int64.Quo(-a, -d) == a / d
  {
    QuoNegative(a, d);
  }

  lemma MinFactor(total: nat)
    requires total <= Int64.MAX && !Int64.SafeMul(total, Int64.MIN).1
    ensures total == 0
  {
    assert Int64.Quo(Int64.MAX, Int64.MIN) == 0;
  }

  /** Both above: a quotient of at least one. */
  lemma BothNegative(total: nat, level: Fraction)
    requires total <= Int64.MAX && IsFraction(level) && Int64.MAX < level.numerator < level.denominator
    requires NeededPower(total, level).Ok?
    ensures NeededPower(total, level).value >= total
  {
    var (n, d) := (UINT64 - level.numerator, UINT64 - level.denominator);
    if n <= Int64.MAX {
      NegativeProduct(total, n);
      QuoOfNegatives(total * n, d);
      AtLeastTotal(total, n, d);
    } else {
      MinFactor(total);
    }
  }

  lemma FloorThird(total: nat, num: nat, den: nat)
    requires 0 < num && 0 < den <= 3 * num
    ensures total * num / den >= 0 && 3 * (total * num / den + 1) > total
  {
    var a := total * num;
    assert a >= 0;
    Arithmetic.DivBounds(a, den);
    Arithmetic.DivMod(a, den);
    AboveThird(total, num, den, a / den, a % den);
  }

  lemma OrdinaryThird(total: nat, level: Fraction)
    requires total <= Int64.MAX && IsFraction(level)
    requires 0 < level.numerator < level.denominator <= 3 * level.numerator && level.denominator <= Int64.MAX
    requires NeededPower(total, level).Ok?
    ensures NeededPower(total, level).value >= 0 && 3 * (NeededPower(total, level).value + 1) > total
  {
    Ordinary(total, level);
    FloorThird(total, level.numerator, level.denominator);
  }

  lemma NegativeThird(total: nat, level: Fraction)
    requires total <= Int64.MAX && IsFraction(level)
    requires level.numerator <= Int64.MAX < level.denominator <= 3 * level.numerator
    requires NeededPower(total, level).Ok?
    ensures 3 * (NeededPower(total, level).value + 1) > total <==> total * level.numerator < UINT64 - level.denominator
    ensures NeededPower(total, level).value < 0 <==> total * level.numerator >= UINT64 - level.denominator
  {
    NegativeDenominator(total, level);
    var a := total * level.numerator;
    FloorBounds(a, UINT64 - level.denominator);
    if total >= 3 {
      Arithmetic.MulMono(3, total, level.numerator);
    }
  }

  /** The denominator is below 2^63, or both numbers are not, or the set is too weak for
      the negative quotient to show. */
  predicate ReadsRight(level: Fraction, total: int) {
    || level.denominator <= Int64.MAX
    || level.numerator > Int64.MAX
    || total * level.numerator < UINT64 - level.denominator
  }

  /** The trusting check asks for more than a third of the power exactly for the levels
      that read right, and else for a negative power. */
  lemma AsksForAThird(total: nat, level: Fraction)
    requires total <= Int64.MAX && IsFraction(level) && Allowed(level)
    requires NeededPower(total, level).Ok?
    ensures 3 * (NeededPower(total, level).value + 1) > total <==> ReadsRight(level, total)
    ensures NeededPower(total, level).value < 0 <==> !ReadsRight(level, total)
  {
    AllowedRange(level);
    if level.denominator <= Int64.MAX {
      OrdinaryThird(total, level);
    } else if level.numerator > Int64.MAX {
      BothNegative(total, level);
    } else {
      NegativeThird(total, level);
    }
  }

  /** A level of almost exactly a third, for which no power at all is asked. */
  lemma AsksForNothing()
    ensures var level := Fraction(0x5555_5555_5555_5555, 0xFFFF_FFFF_FFFF_FFFF);
            && IsFraction(level) && Allowed(level)
            && NeededPower(1, level).Ok? && NeededPower(1, level).value < 0
  {
    var level := Fraction(0x5555_5555_5555_5555, 0xFFFF_FFFF_FFFF_FFFF);
    Int64.SafeMulExact(1, level.numerator);
    NegativeDenominator(1, level);
  }
}
