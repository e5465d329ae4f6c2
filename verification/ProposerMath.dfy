/** The arithmetic of proposer rotation, on plain lists of numbers.

    One round adds to every priority the validator's voting power and then takes
    the total power `T` from a validator whose priority is largest.  The results
    here are about any number of such rounds: the sum never changes, no priority
    falls below -2T, and the priorities of any `k` of the `n` validators average
    at most `T * (2 + H(n) - H(k))`, where `H` is the harmonic sum. */
module ProposerMath {
  import opened Common
  import Arithmetic

  /** One round from priorities `p` to `q` in which validator `m` is elected. */
  ghost predicate Elected(p: seq<int>, v: seq<int>, m: int, q: seq<int>) {
    && |p| == |v| == |q|
    && 0 <= m < |p|
    && (forall i :: 0 <= i < |p| ==> p[i] + v[i] <= p[m] + v[m])
    && (forall i :: 0 <= i < |p| ==> q[i] == p[i] + v[i] - (if i == m then Sum(v) else 0))
  }

  /** Rounds `states[0]`, `states[1]`, ...; `elected[j]` wins round `j`. */
  ghost predicate Rounds(v: seq<int>, states: seq<seq<int>>, elected: seq<int>) {
    && |states| == |elected| + 1
    && |states[0]| == |v|
    && forall j :: 0 <= j < |elected| ==> Elected(states[j], v, elected[j], states[j + 1])
  }

  /** Priorities as the rescale-and-centre step leaves them: spread at most 2T
      and a sum between 0 and the number of validators. */
  ghost predicate Centred(p: seq<int>, T: int) {
    && (forall i, j :: 0 <= i < |p| && 0 <= j < |p| ==> p[i] - p[j] <= 2 * T)
    && 0 <= Sum(p)
    && (|p| > 0 ==> Sum(p) < |p|)
  }

  ghost predicate Positive(v: seq<int>) {
    forall i :: 0 <= i < |v| ==> v[i] > 0
  }

  // ----- the sum is conserved

  lemma SumConserved(p: seq<int>, v: seq<int>, m: int, q: seq<int>)
    requires Elected(p, v, m, q)
    ensures Sum(q) == Sum(p)
  {
    var u := seq(|p|, i requires 0 <= i < |p| => p[i] + v[i]);
    SumPointwise(p, v, u);
    assert q == u[m := u[m] - Sum(v)];
    SumUpdate(u, m, u[m] - Sum(v));
  }

  // ----- the lower bound

  lemma {:induction false} SumAtMost(u: seq<int>, hi: int)
    requires forall i :: 0 <= i < |u| ==> u[i] <= hi
    ensures Sum(u) <= hi * |u|
  {
    if u != [] {
      SumAtMost(u[..|u| - 1], hi);
    }
  }

  /** A list of integers with a positive sum has a positive entry. */
  lemma MaxIsPositive(u: seq<int>, m: int)
    requires 0 <= m < |u| && forall i :: 0 <= i < |u| ==> u[i] <= u[m]
    requires Sum(u) > 0
    ensures u[m] > 0
  {
    if u[m] <= 0 {
      SumAtMost(u, 0);
    }
  }

  lemma {:induction false} SumAtLeast(u: seq<int>, lo: int)
    requires forall i :: 0 <= i < |u| ==> lo <= u[i]
    ensures lo * |u| <= Sum(u)
  {
    if u != [] {
      SumAtLeast(u[..|u| - 1], lo);
    }
  }

  /** The elected validator had a positive priority before paying `T`, so it
      keeps more than -T; the others only rise. */
  lemma RoundLowerBound(p: seq<int>, v: seq<int>, m: int, q: seq<int>, lo: int)
    requires Elected(p, v, m, q) && Positive(v)
    requires Sum(p) >= 0 && lo <= -Sum(v)
    requires forall i :: 0 <= i < |p| ==> lo <= p[i]
    ensures q[m] > -Sum(v)
    ensures forall i :: 0 <= i < |q| ==> lo <= q[i]
  {
    var u := seq(|p|, i requires 0 <= i < |p| => p[i] + v[i]);
    SumPointwise(p, v, u);
    SumEntry(v, m);
    MaxIsPositive(u, m);
  }

  lemma NegativeTimes(x: int, n: int)
    requires x < 0 && n > 0
    ensures x * n < 0
  {
  }

  lemma AtLeastOnce(x: int, n: int)
    requires x >= 1 && n >= 0
    ensures x * n >= n
  {
    assert (x - 1) * n >= 0;
  }

  lemma CentredBounds(p: seq<int>, T: int)
    requires p != [] && Centred(p, T) && T > 0
    ensures forall i :: 0 <= i < |p| ==> -2 * T <= p[i] <= 2 * T
  {
    forall i | 0 <= i < |p| ensures -2 * T <= p[i] <= 2 * T {
      if p[i] < -2 * T {
        SumAtMost(p, p[i] + 2 * T);
        NegativeTimes(p[i] + 2 * T, |p|);
      }
      if p[i] > 2 * T {
        SumAtLeast(p, p[i] - 2 * T);
        AtLeastOnce(p[i] - 2 * T, |p|);
      }
    }
  }

  // ----- the harmonic upper bound

  function H(n: nat): real {
    if n == 0 then 0.0 else H(n - 1) + 1.0 / n as real
  }

  lemma {:induction false} HMonotone(m: nat, n: nat)
    requires m <= n
    ensures H(m) <= H(n)
  {
    if m < n {
      HMonotone(m, n - 1);
    }
  }

  /** The sum of the entries of `p` at the positions in `a`. */
  ghost function SumIn(p: seq<int>, a: set<int>): int {
    if p == [] then 0
    else SumIn(p[..|p| - 1], a) + (if |p| - 1 in a then p[|p| - 1] else 0)
  }

  ghost predicate Positions(a: set<int>, n: int) {
    forall i :: i in a ==> 0 <= i < n
  }

  /** What `k` of `n` validators may hold on average, in units of `T`. */
  ghost function Allowance(n: nat, k: nat): real {
    2.0 + H(n) - H(k)
  }

  /** What `k` of `n` validators may hold together. */
  ghost function Holding(T: int, n: nat, k: nat): real {
    k as real * (T as real * Allowance(n, k))
  }

  ghost predicate SubsetBound(p: seq<int>, T: int, a: set<int>) {
    SumIn(p, a) as real <= Holding(T, |p|, |a|)
  }

  ghost predicate HarmonicBound(p: seq<int>, T: int) {
    forall a: set<int> :: Positions(a, |p|) && a != {} ==> SubsetBound(p, T, a)
  }

  lemma {:induction false} SumInIrrelevant(p: seq<int>, a: set<int>, b: set<int>)
    requires forall i :: 0 <= i < |p| ==> (i in a <==> i in b)
    ensures SumIn(p, a) == SumIn(p, b)
  {
    if p != [] {
      SumInIrrelevant(p[..|p| - 1], a, b);
    }
  }

  lemma {:induction false} SumInAdd(p: seq<int>, a: set<int>, m: int)
    requires 0 <= m < |p| && m !in a
    ensures SumIn(p, a + {m}) == SumIn(p, a) + p[m]
  {
    var n := |p| - 1;
    if m < n {
      SumInAdd(p[..n], a, m);
    } else {
      SumInIrrelevant(p[..n], a, a + {m});
    }
  }

  /** Sums over positions add up pointwise. */
  lemma {:induction false} SumInPointwise(p: seq<int>, v: seq<int>, q: seq<int>, a: set<int>)
    requires |p| == |v| == |q|
    requires forall i :: 0 <= i < |p| && i in a ==> q[i] == p[i] + v[i]
    ensures SumIn(q, a) == SumIn(p, a) + SumIn(v, a)
  {
    if p != [] {
      var n := |p| - 1;
      SumInPointwise(p[..n], v[..n], q[..n], a);
    }
  }

  lemma {:induction false} SumInAtMost(p: seq<int>, a: set<int>, hi: int)
    requires Positions(a, |p|)
    requires forall i :: 0 <= i < |p| && i in a ==> p[i] <= hi
    ensures SumIn(p, a) <= |a| * hi
    decreases |p|
  {
    if p == [] {
      assert forall i :: i in a ==> 0 <= i < 0;
      assert a == {};
    } else {
      var n := |p| - 1;
      var b := a - {n};
      SumInIrrelevant(p[..n], a, b);
      SumInAtMost(p[..n], b, hi);
      if n in a {
        assert a == b + {n};
        Arithmetic.TimesNext(|b|, |a|, hi);
      } else {
        assert a == b;
      }
    }
  }

  /** Leaving positions out of a list of non-negative numbers only loses. */
  lemma {:induction false} SumInAtMostSum(v: seq<int>, a: set<int>)
    requires forall i :: 0 <= i < |v| ==> v[i] >= 0
    ensures 0 <= SumIn(v, a) <= Sum(v)
  {
    if v != [] {
      SumInAtMostSum(v[..|v| - 1], a);
    }
  }

  /** More positions of a list of non-negative numbers hold at least as much. */
  lemma {:induction false} SumInSubset(v: seq<int>, a: set<int>, b: set<int>)
    requires forall i :: 0 <= i < |v| ==> v[i] >= 0
    requires forall i :: 0 <= i < |v| && i in a ==> i in b
    ensures SumIn(v, a) <= SumIn(v, b)
  {
    if v != [] {
      SumInSubset(v[..|v| - 1], a, b);
    }
  }

  /** Two sets of positions hold together what their union and overlap do. */
  lemma {:induction false} SumInOverlap(v: seq<int>, a: set<int>, b: set<int>)
    ensures SumIn(v, a) + SumIn(v, b) == SumIn(v, a + b) + SumIn(v, a * b)
  {
    if v != [] {
      SumInOverlap(v[..|v| - 1], a, b);
    }
  }

  lemma {:induction false} SumInEmpty(p: seq<int>)
    ensures SumIn(p, {}) == 0
  {
    if p != [] {
      SumInEmpty(p[..|p| - 1]);
    }
  }

  lemma {:induction false} SumInSingle(p: seq<int>, i: int)
    requires 0 <= i < |p|
    ensures SumIn(p, {i}) == p[i]
  {
    SumInAdd(p, {}, i);
    SumInEmpty(p);
    assert {} + {i} == {i};
  }

  lemma StrictlyMore(k: real, x: real, y: real)
    requires k > 0.0 && x < y
    ensures k * x < k * y
  {
    assert k * (y - x) > 0.0;
  }

  lemma CancelLeft(k: real, x: real, y: real)
    requires k > 0.0 && k * x <= k * y
    ensures x <= y
  {
    if y < x {
      StrictlyMore(k, y, x);
    }
  }

  /** The step from `k + 1` to `k` validators, as pure arithmetic: `x` is what
      the `k` hold after the round and `y` what the elected one held before
      paying. */
  lemma AverageStep(x: real, y: real, k: real, b: real, c: real, t: real)
    requires k >= 1.0
    requires x <= k * y
    requires x + y <= (k + 1.0) * b + t
    requires c == b + t / (k + 1.0)
    ensures x <= k * c
  {
    assert (k + 1.0) * x <= k * (x + y);
    assert k * (x + y) <= k * ((k + 1.0) * b + t);
    assert (k + 1.0) * c == (k + 1.0) * b + t;
    assert (k + 1.0) * x <= k * ((k + 1.0) * c);
    assert k * ((k + 1.0) * c) == (k + 1.0) * (k * c);
    CancelLeft(k + 1.0, x, k * c);
  }

  lemma AllowanceStep(n: nat, k: nat, t: real)
    ensures t * Allowance(n, k) == t * Allowance(n, k + 1) + t / (k + 1) as real
  {
    assert H(k + 1) == H(k) + 1.0 / (k + 1) as real;
    var w := 1.0 / (k + 1) as real;
    assert Allowance(n, k) == Allowance(n, k + 1) + w;
    assert t * (Allowance(n, k + 1) + w) == t * Allowance(n, k + 1) + t * w;
  }

  /** Holders that include the elected validator hold no more than before. */
  lemma ElectedInside(p: seq<int>, v: seq<int>, m: int, q: seq<int>, a: set<int>)
    requires Elected(p, v, m, q) && Positive(v) && m in a
    ensures SumIn(q, a) <= SumIn(p, a)
  {
    var b := a - {m};
    assert a == b + {m};
    SumInPointwise(p, v, q, b);
    SumInAdd(q, b, m);
    SumInAdd(p, b, m);
    SumInAdd(v, b, m);
    SumInAtMostSum(v, a);
  }

  /** Holders without the elected validator each hold at most what it held, and
      together with it gained at most `T`. */
  lemma ElectedOutside(p: seq<int>, v: seq<int>, m: int, q: seq<int>, a: set<int>)
    requires Elected(p, v, m, q) && Positive(v) && m !in a && Positions(a, |p|)
    ensures SumIn(q, a) <= |a| * (p[m] + v[m])
    ensures SumIn(q, a) + (p[m] + v[m]) <= SumIn(p, a + {m}) + Sum(v)
  {
    SumInPointwise(p, v, q, a);
    SumInAdd(p, a, m);
    SumInAdd(v, a, m);
    SumInAtMostSum(v, a + {m});
    SumInAtMost(q, a, p[m] + v[m]);
  }

  /** ElectedOutside read as a bound on averages. */
  lemma FewerHolders(x: int, y: int, z: int, T: int, n: nat, k: nat)
    requires k >= 1
    requires x <= k * y && x + y <= z + T
    requires z as real <= Holding(T, n, k + 1)
    ensures x as real <= Holding(T, n, k)
  {
    var t := T as real;
    AllowanceStep(n, k, t);
    assert (k * y) as real == k as real * y as real;
    AverageStep(x as real, y as real, k as real, t * Allowance(n, k + 1), t * Allowance(n, k), t);
  }

  /** Every round keeps the harmonic bound of every subset. */
  lemma RoundKeepsSubsetBound(p: seq<int>, v: seq<int>, m: int, q: seq<int>, a: set<int>)
    requires Elected(p, v, m, q) && Positive(v)
    requires HarmonicBound(p, Sum(v))
    requires Positions(a, |p|) && a != {}
    ensures SubsetBound(q, Sum(v), a)
  {
    if m in a {
      ElectedInside(p, v, m, q, a);
      assert SubsetBound(p, Sum(v), a);
    } else {
      ElectedOutside(p, v, m, q, a);
      assert |a + {m}| == |a| + 1;
      assert SubsetBound(p, Sum(v), a + {m});
      FewerHolders(SumIn(q, a), p[m] + v[m], SumIn(p, a + {m}), Sum(v), |p|, |a|);
    }
  }

  lemma NotLess(k: real, x: real, y: real)
    requires k >= 0.0 && x <= y
    ensures k * x <= k * y
  {
    assert k * (y - x) >= 0.0;
  }

  lemma AtLeastTwice(x: real, k: real, t: real, twice: real, c: real)
    requires k >= 0.0 && t >= 0.0 && c >= 2.0 && twice == 2.0 * t && x <= k * twice
    ensures x <= k * (t * c)
  {
    NotLess(t, 2.0, c);
    NotLess(k, twice, t * c);
  }

  lemma CastProduct(x: int, y: int)
    ensures (x * y) as real == x as real * y as real
  {
  }

  lemma CastTwice(x: int, k: int, twice: int)
    requires x <= k * twice
    ensures x as real <= k as real * twice as real
  {
    CastProduct(k, twice);
  }

  lemma TwiceIsAllowed(x: int, T: int, n: nat, k: nat)
    requires x <= k * (2 * T) && T > 0 && H(k) <= H(n)
    ensures x as real <= Holding(T, n, k)
  {
    CastTwice(x, k, 2 * T);
    AtLeastTwice(x as real, k as real, T as real, (2 * T) as real, Allowance(n, k));
  }

  lemma {:induction false} PositionsAtMost(a: set<int>, n: nat)
    requires Positions(a, n)
    ensures |a| <= n
  {
    if n == 0 {
      assert forall i :: i in a ==> 0 <= i < 0;
      assert a == {};
    } else {
      PositionsAtMost(a - {n - 1}, n - 1);
    }
  }

  /** Centred priorities start within the bound. */
  lemma CentredHarmonic(p: seq<int>, T: int)
    requires p != [] && Centred(p, T) && T > 0
    ensures HarmonicBound(p, T)
  {
    CentredBounds(p, T);
    forall a: set<int> | Positions(a, |p|) && a != {} ensures SubsetBound(p, T, a) {
      SumInAtMost(p, a, 2 * T);
      PositionsAtMost(a, |p|);
      HMonotone(|a|, |p|);
      TwiceIsAllowed(SumIn(p, a), T, |p|, |a|);
    }
  }

  /** The most a single priority can reach. */
  ghost function Cap(T: int, n: nat): real {
    T as real * (1.0 + H(n))
  }

  /** A single priority is at most (1 + H(n)) * T. */
  lemma SinglePriority(p: seq<int>, T: int, n: nat, i: int)
    requires HarmonicBound(p, T) && n == |p| && 0 <= i < n
    ensures p[i] as real <= Cap(T, n)
  {
    assert Positions({i}, |p|) && SubsetBound(p, T, {i});
    SumInSingle(p, i);
    assert H(1) == 1.0;
  }

  // ----- whole runs

  /** Everything known about a run that starts from centred priorities, at every
      point of the run. */
  lemma {:induction false} RunBounds(v: seq<int>, states: seq<seq<int>>, elected: seq<int>, j: int)
    requires Positive(v) && v != []
    requires Rounds(v, states, elected) && Centred(states[0], Sum(v))
    requires 0 <= j < |states|
    ensures |states[j]| == |v|
    ensures Sum(states[j]) == Sum(states[0])
    ensures HarmonicBound(states[j], Sum(v))
    ensures forall i :: 0 <= i < |v| ==> -2 * Sum(v) <= states[j][i]
  {
    SumEntry(v, 0);
    if j == 0 {
      CentredHarmonic(states[0], Sum(v));
      CentredBounds(states[0], Sum(v));
    } else {
      RunBounds(v, states, elected, j - 1);
      var (p, m, q) := (states[j - 1], elected[j - 1], states[j]);
      assert Elected(p, v, m, q);
      SumConserved(p, v, m, q);
      RoundLowerBound(p, v, m, q, -2 * Sum(v));
      forall a: set<int> | Positions(a, |q|) && a != {} ensures SubsetBound(q, Sum(v), a) {
        RoundKeepsSubsetBound(p, v, m, q, a);
      }
    }
  }

  /** Every priority of a run lies in [-2T, (1 + H(n)) * T]. */
  lemma RunPriority(v: seq<int>, states: seq<seq<int>>, elected: seq<int>, j: int, i: int)
    requires Positive(v) && v != []
    requires Rounds(v, states, elected) && Centred(states[0], Sum(v))
    requires 0 <= j < |states| && 0 <= i < |v|
    ensures |states[j]| == |v|
    ensures -2 * Sum(v) <= states[j][i]
    ensures states[j][i] as real <= Cap(Sum(v), |v|)
  {
    RunBounds(v, states, elected, j);
    SinglePriority(states[j], Sum(v), |v|, i);
  }

  /** No addition of a run leaves [-2T, (2 + H(n)) * T]. */
  lemma RunStaysWithin(v: seq<int>, states: seq<seq<int>>, elected: seq<int>, j: int, i: int)
    requires Positive(v) && v != []
    requires Rounds(v, states, elected) && Centred(states[0], Sum(v))
    requires 0 <= j < |states| && 0 <= i < |v|
    ensures |states[j]| == |v|
    ensures -2 * Sum(v) <= states[j][i] + v[i]
    ensures (states[j][i] + v[i]) as real <= Cap(Sum(v), |v|) + Sum(v) as real
  {
    RunPriority(v, states, elected, j, i);
    SumEntry(v, i);
  }

  // ----- fairness

  function Count(elected: seq<int>, i: int): nat {
    if elected == [] then 0
    else Count(elected[..|elected| - 1], i) + (if elected[|elected| - 1] == i then 1 else 0)
  }

  lemma RoundsPrefix(v: seq<int>, states: seq<seq<int>>, elected: seq<int>)
    requires Rounds(v, states, elected) && elected != []
    ensures Rounds(v, states[..|elected|], elected[..|elected| - 1])
  {
    var k := |elected|;
    forall j | 0 <= j < k - 1
      ensures Elected(states[..k][j], v, elected[..k - 1][j], states[..k][j + 1])
    {
      assert Elected(states[j], v, elected[j], states[j + 1]);
    }
  }

  lemma RoundsSnoc(v: seq<int>, states: seq<seq<int>>, elected: seq<int>, m: int, q: seq<int>)
    requires Rounds(v, states, elected) && Elected(states[|elected|], v, m, q)
    ensures Rounds(v, states + [q], elected + [m])
  {
    forall j | 0 <= j < |elected| + 1
      ensures Elected((states + [q])[j], v, (elected + [m])[j], (states + [q])[j + 1])
    {
      if j < |elected| {
        assert Elected(states[j], v, elected[j], states[j + 1]);
      }
    }
  }

  lemma BalanceStep(T: int, c: int, k: int, w: int, won: bool)
    ensures T * (c + (if won then 1 else 0)) == T * c + (if won then T else 0)
    ensures k * w == (k - 1) * w + w
  {
  }

  /** What a validator gains in `k` rounds it either keeps or pays: c wins cost
      c * T. */
  lemma {:induction false} Balance(v: seq<int>, states: seq<seq<int>>, elected: seq<int>, i: int)
    requires Rounds(v, states, elected) && 0 <= i < |v|
    ensures |states[|elected|]| == |v|
    ensures Sum(v) * Count(elected, i) == |elected| * v[i] + states[0][i] - states[|elected|][i]
  {
    var k := |elected|;
    if k > 0 {
      RoundsPrefix(v, states, elected);
      Balance(v, states[..k], elected[..k - 1], i);
      assert Elected(states[k - 1], v, elected[k - 1], states[k]);
      BalanceStep(Sum(v), Count(elected[..k - 1], i), k, v[i], elected[k - 1] == i);
    }
  }

  lemma Share(paid: int, gained: int, first: int, last: int, T: int, cap: real)
    requires paid == gained + first - last
    requires -2 * T <= first <= 2 * T && -2 * T <= last && last as real <= cap
    ensures paid <= gained + 4 * T
    ensures gained as real <= paid as real + cap + 2.0 * T as real
  {
  }

  /** A validator of power `v[i]` wins its proportional share of the rounds, up
      to 4 too many or 3 + H(n) too few. */
  lemma Fairness(v: seq<int>, states: seq<seq<int>>, elected: seq<int>, i: int)
    requires Positive(v) && v != []
    requires Rounds(v, states, elected) && Centred(states[0], Sum(v))
    requires 0 <= i < |v|
    ensures Sum(v) * Count(elected, i) <= |elected| * v[i] + 4 * Sum(v)
    ensures (|elected| * v[i]) as real
            <= (Sum(v) * Count(elected, i)) as real + Cap(Sum(v), |v|) + 2.0 * Sum(v) as real
  {
    Balance(v, states, elected, i);
    SumEntry(v, i);
    CentredBounds(states[0], Sum(v));
    RunPriority(v, states, elected, |elected|, i);
    Share(Sum(v) * Count(elected, i), |elected| * v[i], states[0][i], states[|elected|][i], Sum(v), Cap(Sum(v), |v|));
  }

  /** Each round elects exactly one validator. */
  lemma {:induction false} CountsAddUp(n: nat, elected: seq<int>)
    requires forall j :: 0 <= j < |elected| ==> 0 <= elected[j] < n
    ensures Sum(seq(n, i requires 0 <= i < n => Count(elected, i))) == |elected|
  {
    var counts := seq(n, i requires 0 <= i < n => Count(elected, i));
    if elected == [] {
      SumBounds(counts, 0, 0);
    } else {
      var last := |elected| - 1;
      var shorter := seq(n, i requires 0 <= i < n => Count(elected[..last], i));
      CountsAddUp(n, elected[..last]);
      var m := elected[last];
      assert counts == shorter[m := shorter[m] + 1];
      SumUpdate(shorter, m, shorter[m] + 1);
    }
  }

  // ----- how large H is

  /** The `d` terms after the `m`-th are each below 1/m. */
  lemma {:induction false} HBlock(m: nat, d: nat)
    requires m > 0
    ensures m as real * (H(m + d) - H(m)) <= d as real
  {
    if d > 0 {
      HBlock(m, d - 1);
      var (w, sum) := (1.0 / (m + d) as real, H(m + d - 1) - H(m));
      assert m as real * w <= 1.0 by {
        assert (m + d) as real * w == 1.0 && d as real * w >= 0.0;
      }
      assert H(m + d) - H(m) == sum + w;
      assert m as real * (sum + w) == m as real * sum + m as real * w;
    }
  }

  /** From `c` blocks of `q` terms to `c + 1` blocks, H grows by at most 1/c. */
  lemma NextBlock(c: nat, q: nat, m: nat)
    requires c > 0 && q > 0 && m == c * q
    ensures c as real * (H(m + q) - H(m)) <= 1.0
  {
    HBlock(m, q);
    var d := H(m + q) - H(m);
    assert m as real == q as real * c as real;
    assert q as real * (c as real * d) == (q as real * c as real) * d;
    CancelLeft(q as real, c as real * d, 1.0);
  }

  /** Doubling n raises H(n) by at most 1/4 + 1/5 + 1/6 + 1/7. */
  lemma Doubling(n: nat)
    requires n > 0 && n % 4 == 0
    ensures H(2 * n) <= H(n) + 319.0 / 420.0
  {
    var q := n / 4;
    NextBlock(4, q, n);
    NextBlock(5, q, n + q);
    NextBlock(6, q, n + 2 * q);
    NextBlock(7, q, n + 3 * q);
    assert n + 3 * q + q == 2 * n;
  }

  lemma HSmall()
    ensures H(4) <= 25.0 / 12.0
    ensures H(128) <= 6.0
    ensures H(16384) <= 12.0
  {
    assert H(1) == 1.0 && H(2) == 3.0 / 2.0 && H(3) == 11.0 / 6.0 && H(4) == 25.0 / 12.0;
    Doubling(4);
    Doubling(8);
    Doubling(16);
    Doubling(32);
    Doubling(64);
    Doubling(128);
    Doubling(256);
    Doubling(512);
    Doubling(1024);
    Doubling(2048);
    Doubling(4096);
    Doubling(8192);
  }
}
