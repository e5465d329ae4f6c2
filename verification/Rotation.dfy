/** Proposer rotation on a list of validators, in int64 arithmetic
    (types/validator_set.go, the functions around IncrementProposerPriority).

    The functions compute with the wrapping and clipping operators of Int64; the
    lemmas show when those never wrap or clip, so that a run is a run of
    ProposerMath. */
module Rotation {
  import opened Common
  import opened Validators
  import Arithmetic
  import Int64
  import M = ProposerMath

  // ----- well-formed lists

  predicate PositivePowers(vals: seq<Validator>) {
    forall i :: 0 <= i < |vals| ==> 0 < vals[i].power
  }

  predicate PrioritiesInRange(vals: seq<Validator>) {
    forall i :: 0 <= i < |vals| ==> Int64.InRange(vals[i].priority)
  }

  predicate WellFormed(vals: seq<Validator>) {
    && UniqueAddresses(vals)
    && PositivePowers(vals)
    && PrioritiesInRange(vals)
    && TotalPower(vals) <= MAX_TOTAL_VOTING_POWER
  }

  /** The same validators in the same places, whatever their priorities. */
  predicate SameIds(s: seq<Validator>, t: seq<Validator>) {
    |s| == |t| && forall i :: 0 <= i < |s| ==> Id(s[i]) == Id(t[i])
  }

  lemma SubIds(s: seq<Validator>, t: seq<Validator>)
    requires SameIds(s, t)
    ensures Ids(s) <= Ids(t) && Addresses(s) <= Addresses(t)
  {
    forall v | v in s ensures Id(v) in Ids(t) && v.address in Addresses(t) {
      var i :| 0 <= i < |s| && s[i] == v;
      assert Id(t[i]) == Id(v) && t[i] in t;
    }
  }

  lemma SameIdsPowers(s: seq<Validator>, t: seq<Validator>)
    requires SameIds(s, t)
    ensures Powers(s) == Powers(t) && TotalPower(s) == TotalPower(t)
    ensures UniqueAddresses(s) == UniqueAddresses(t)
    ensures Ids(s) == Ids(t) && Addresses(s) == Addresses(t)
  {
    forall i | 0 <= i < |s| ensures s[i].power == t[i].power && s[i].address == t[i].address {
      assert Id(s[i]) == Id(t[i]);
    }
    assert Powers(s) == Powers(t);
    SubIds(s, t);
    SubIds(t, s);
  }

  lemma PowerFacts(vals: seq<Validator>)
    requires PositivePowers(vals)
    ensures M.Positive(Powers(vals))
    ensures forall i :: 0 <= i < |vals| ==> 0 < vals[i].power <= TotalPower(vals)
    ensures vals != [] ==> TotalPower(vals) > 0
  {
    forall i | 0 <= i < |vals| ensures 0 < vals[i].power <= TotalPower(vals) {
      SumEntry(Powers(vals), i);
    }
    if vals != [] {
      SumEntry(Powers(vals), 0);
    }
  }

  // ----- rescaling

  function MaxOf(s: seq<int>): int
    requires s != []
  {
    if |s| == 1 then s[0]
    else
      var m := MaxOf(s[..|s| - 1]);
      if s[|s| - 1] > m then s[|s| - 1] else m
  }

  function MinOf(s: seq<int>): int
    requires s != []
  {
    if |s| == 1 then s[0]
    else
      var m := MinOf(s[..|s| - 1]);
      if s[|s| - 1] < m then s[|s| - 1] else m
  }

  /** The extremes bound every entry and are entries. */
  lemma {:induction false} Extremes(s: seq<int>) returns (i: int, j: int)
    requires s != []
    ensures 0 <= i < |s| && s[i] == MaxOf(s)
    ensures 0 <= j < |s| && s[j] == MinOf(s)
    ensures forall k :: 0 <= k < |s| ==> MinOf(s) <= s[k] <= MaxOf(s)
  {
    var n := |s| - 1;
    if n == 0 {
      i, j := 0, 0;
    } else {
      i, j := Extremes(s[..n]);
      assert forall k :: 0 <= k < n ==> s[k] == s[..n][k];
      if s[n] > MaxOf(s[..n]) {
        i := n;
      }
      if s[n] < MinOf(s[..n]) {
        j := n;
      }
    }
  }

  lemma ExtremesSnoc(s: seq<int>, i: int)
    requires 0 < i < |s|
    ensures MaxOf(s[..i + 1]) == if s[i] > MaxOf(s[..i]) then s[i] else MaxOf(s[..i])
    ensures MinOf(s[..i + 1]) == if s[i] < MinOf(s[..i]) then s[i] else MinOf(s[..i])
  {
    assert s[..i + 1][..i] == s[..i];
  }

  /** computeMaxMinPriorityDiff. */
  function PriorityDiff(ps: seq<int>): int
    requires ps != []
  {
    var diff := Int64.Wrap(MaxOf(ps) - MinOf(ps));
    if diff < 0 then Int64.Wrap(-1 * diff) else diff
  }

  function ScaleRatio(diff: int, diffMax: int): int
    requires diffMax > 0
  {
    Int64.Quo(Int64.Wrap(Int64.Wrap(diff + diffMax) - 1), diffMax)
  }

  /** The one way rescaling can fail: an overflow makes the ratio 0. */
  predicate RescalePanics(vals: seq<Validator>, diffMax: int)
    requires vals != []
  {
    var diff := PriorityDiff(Priorities(vals));
    diffMax > 0 && diff > diffMax && ScaleRatio(diff, diffMax) == 0
  }

  function ScaleOne(v: Validator, ratio: int): Validator
    requires ratio != 0
  {
    v.(priority := Int64.Wrap(Int64.Quo(v.priority, ratio)))
  }

  function ScaledBy(vals: seq<Validator>, ratio: int): (r: seq<Validator>)
    requires ratio != 0
    ensures |r| == |vals|
  {
    seq(|vals|, i requires 0 <= i < |vals| => ScaleOne(vals[i], ratio))
  }

  /** RescalePriorities. */
  function Rescaled(vals: seq<Validator>, diffMax: int): seq<Validator>
    requires vals != [] && !RescalePanics(vals, diffMax)
  {
    var diff := PriorityDiff(Priorities(vals));
    if diffMax <= 0 || diff <= diffMax then vals
    else ScaledBy(vals, ScaleRatio(diff, diffMax))
  }

  /** a = x * r + remainder, the remainder having a's sign and size below r. */
  lemma QuoBounds(a: int, r: int)
    requires r >= 1
    ensures var x := Int64.Quo(a, r);
            if a >= 0 then x * r <= a < x * r + r && x >= 0
            else x * r - r < a <= x * r && x <= 0
  {
    if a >= 0 {
      Arithmetic.DivBounds(a, r);
    } else {
      Arithmetic.DivBounds(-a, r);
      Arithmetic.MinusTimes((-a) / r, r);
    }
  }

  /** Truncating division by `r` brings numbers at most r * d apart to at most d
      apart. */
  lemma QuoSpread(a: int, b: int, r: int, d: int)
    requires r >= 1 && d >= 0 && a - b <= r * d
    ensures Int64.Quo(a, r) - Int64.Quo(b, r) <= d
  {
    var x, y := Int64.Quo(a, r), Int64.Quo(b, r);
    QuoBounds(a, r);
    QuoBounds(b, r);
    Arithmetic.Distribute(d, r);
    Arithmetic.DifferenceTimes(x, y, r);
    if x - y > d {
      Arithmetic.MulMono(d + 1, x - y, r);
    }
  }

  /** The rounded-up ratio is large enough. */
  lemma RatioCovers(diff: int, diffMax: int)
    requires diffMax > 0 && diff > diffMax && diff + diffMax <= Int64.MAX
    ensures ScaleRatio(diff, diffMax) >= 1
    ensures diff <= ScaleRatio(diff, diffMax) * diffMax
  {
    var a := diff + diffMax - 1;
    Arithmetic.DivBounds(a, diffMax);
    var r := a / diffMax;
    assert ScaleRatio(diff, diffMax) == r;
    if r < 1 {
      Arithmetic.MulMono(r, 0, diffMax);
    }
  }

  ghost predicate SpreadAtMost(ps: seq<int>, d: int) {
    forall i, j :: 0 <= i < |ps| && 0 <= j < |ps| ==> ps[i] - ps[j] <= d
  }

  ghost predicate Within(vals: seq<Validator>, lo: int, hi: int) {
    forall i :: 0 <= i < |vals| ==> lo <= vals[i].priority <= hi
  }

  lemma QuoShrinks(a: int, r: int)
    requires r >= 1
    ensures if a >= 0 then 0 <= Int64.Quo(a, r) <= a else a <= Int64.Quo(a, r) <= 0
  {
    QuoBounds(a, r);
    var x := Int64.Quo(a, r);
    if a >= 0 {
      Arithmetic.MulMono(1, r, x);
    } else {
      Arithmetic.MulMono(1, r, -x);
      assert (-x) * r == -(x * r);
    }
  }

  /** With room for `hi - lo + diffMax` in an int64, rescaling is exact, keeps
      every priority between the bounds and leaves a spread of at most diffMax. */
  lemma RescaleSpread(vals: seq<Validator>, diffMax: int, lo: int, hi: int)
    requires vals != [] && diffMax > 0
    requires Within(vals, lo, hi) && lo <= 0 <= hi && Int64.InRange(lo)
    requires hi - lo + diffMax <= Int64.MAX
    ensures PriorityDiff(Priorities(vals)) == MaxOf(Priorities(vals)) - MinOf(Priorities(vals)) <= hi - lo
    ensures !RescalePanics(vals, diffMax)
    ensures SameIds(vals, Rescaled(vals, diffMax))
    ensures Within(Rescaled(vals, diffMax), lo, hi)
    ensures SpreadAtMost(Priorities(Rescaled(vals, diffMax)), diffMax)
  {
    var ps := Priorities(vals);
    var mx, mn := MaxOf(ps), MinOf(ps);
    var diff := PriorityDiff(ps);
    var top, bottom := Extremes(ps);
    assert vals[top].priority == mx && vals[bottom].priority == mn;
    assert diff == mx - mn;
    if diff > diffMax {
      RatioCovers(diff, diffMax);
      var r := ScaleRatio(diff, diffMax);
      var out := Rescaled(vals, diffMax);
      forall i | 0 <= i < |vals|
        ensures out[i].priority == Int64.Quo(ps[i], r) && lo <= out[i].priority <= hi
      {
        QuoShrinks(ps[i], r);
      }
      forall i, j | 0 <= i < |vals| && 0 <= j < |vals|
        ensures Priorities(out)[i] - Priorities(out)[j] <= diffMax
      {
        QuoSpread(ps[i], ps[j], r, diffMax);
      }
    }
  }

  // ----- centring

  /** computeAvgProposerPriority: the big-integer quotient rounds down. */
  function Average(vals: seq<Validator>): int
    requires vals != []
  {
    Sum(Priorities(vals)) / |vals|
  }

  /** The average of int64 values is one: the panic is unreachable. */
  lemma AverageInRange(vals: seq<Validator>, lo: int, hi: int)
    requires vals != [] && Within(vals, lo, hi)
    ensures lo <= Average(vals) <= hi
  {
    var n, s := |vals|, Sum(Priorities(vals));
    SumBounds(Priorities(vals), lo, hi);
    Arithmetic.DivBounds(s, n);
    Arithmetic.QuotientBetween(s, n, s / n, lo, hi);
  }

  function ShiftOne(v: Validator, avg: int): Validator {
    v.(priority := Int64.SafeSubClip(v.priority, avg))
  }

  /** shiftByAvgProposerPriority. */
  function Shifted(vals: seq<Validator>): (r: seq<Validator>)
    requires vals != []
    ensures |r| == |vals|
  {
    var avg := Average(vals);
    seq(|vals|, i requires 0 <= i < |vals| => ShiftOne(vals[i], avg))
  }

  /** A shift of a list whose spread fits an int64 is exact. */
  lemma ShiftExact(vals: seq<Validator>, d: int)
    requires vals != [] && PrioritiesInRange(vals)
    requires SpreadAtMost(Priorities(vals), d) && d <= Int64.MAX
    ensures SameIds(vals, Shifted(vals))
    ensures forall i :: 0 <= i < |vals| ==> Shifted(vals)[i].priority == vals[i].priority - Average(vals)
  {
    var ps := Priorities(vals);
    var mx, mn := MaxOf(ps), MinOf(ps);
    var top, bottom := Extremes(ps);
    assert ps[top] - ps[bottom] <= d;
    assert forall i :: 0 <= i < |vals| ==> vals[i].priority == ps[i];
    AverageInRange(vals, mn, mx);
    AverageInRange(vals, Int64.MIN, Int64.MAX);
  }

  /** ... and centres it. */
  lemma ShiftCentres(vals: seq<Validator>, T: int)
    requires vals != [] && PrioritiesInRange(vals)
    requires SpreadAtMost(Priorities(vals), 2 * T) && 0 < T <= MAX_TOTAL_VOTING_POWER
    ensures SameIds(vals, Shifted(vals))
    ensures M.Centred(Priorities(Shifted(vals)), T)
  {
    ShiftExact(vals, 2 * T);
    var ps, qs, avg := Priorities(vals), Priorities(Shifted(vals)), Average(vals);
    SumShift(ps, qs, avg);
    Arithmetic.DivBounds(Sum(ps), |ps|);
    forall i, j | 0 <= i < |qs| && 0 <= j < |qs| ensures qs[i] - qs[j] <= 2 * T {
      assert ps[i] - ps[j] <= 2 * T;
    }
  }

  // ----- one round

  /** `a` is elected before `b`: Validator.CompareProposerPriority returns `a`. */
  predicate Beats(a: Validator, b: Validator) {
    || a.priority > b.priority
    || (a.priority == b.priority && Before(a.address, b.address))
  }

  /** The winner of getValWithMostPriority, by its defining property. */
  predicate IsMost(vals: seq<Validator>, m: int) {
    0 <= m < |vals| && forall i :: 0 <= i < |vals| && i != m ==> Beats(vals[m], vals[i])
  }

  lemma BeatsTransitive(a: Validator, b: Validator, c: Validator)
    requires Beats(a, b) && Beats(b, c)
    ensures Beats(a, c)
  {
    if a.priority == c.priority {
      BeforeTransitive(a.address, b.address, c.address);
    }
  }

  /** getValWithMostPriority, as a fold over the list. */
  function MostIndex(vals: seq<Validator>): (m: int)
    requires vals != []
    ensures 0 <= m < |vals|
  {
    var n := |vals| - 1;
    if n == 0 then 0
    else
      var m := MostIndex(vals[..n]);
      if Beats(vals[m], vals[n]) then m else n
  }

  lemma {:induction false} MostIndexIsMost(vals: seq<Validator>)
    requires vals != [] && UniqueAddresses(vals)
    ensures IsMost(vals, MostIndex(vals))
  {
    var n := |vals| - 1;
    if n > 0 {
      MostIndexIsMost(vals[..n]);
      var m := MostIndex(vals[..n]);
      assert forall i :: 0 <= i < n && i != m ==> Beats(vals[m], vals[i]) by {
        forall i | 0 <= i < n && i != m ensures Beats(vals[m], vals[i]) {
          assert Beats(vals[..n][m], vals[..n][i]);
        }
      }
      BeforeTotal(vals[m].address, vals[n].address);
      if !Beats(vals[m], vals[n]) {
        assert Beats(vals[n], vals[m]);
        forall i | 0 <= i < n && i != m ensures Beats(vals[n], vals[i]) {
          BeatsTransitive(vals[n], vals[m], vals[i]);
        }
      }
    }
  }

  lemma MostIsUnique(vals: seq<Validator>, m: int, k: int)
    requires IsMost(vals, m) && IsMost(vals, k)
    ensures m == k
  {
    if m != k {
      assert Beats(vals[m], vals[k]) && Beats(vals[k], vals[m]);
      BeforeTotal(vals[m].address, vals[k].address);
    }
  }

  function RaiseOne(v: Validator): Validator {
    v.(priority := Int64.SafeAddClip(v.priority, v.power))
  }

  function Raised(vals: seq<Validator>): (r: seq<Validator>)
    ensures |r| == |vals|
  {
    seq(|vals|, i requires 0 <= i < |vals| => RaiseOne(vals[i]))
  }

  /** The position elected next. */
  function NextProposer(vals: seq<Validator>): (m: int)
    requires vals != []
    ensures 0 <= m < |vals|
  {
    MostIndex(Raised(vals))
  }

  /** incrementProposerPriority. */
  function Incremented(vals: seq<Validator>): (r: seq<Validator>)
    requires vals != []
    ensures |r| == |vals|
  {
    var raised, m := Raised(vals), NextProposer(vals);
    raised[m := raised[m].(priority := Int64.SafeSubClip(raised[m].priority, TotalPower(vals)))]
  }

  /** A round changes nothing but priorities, and keeps those int64 values. */
  lemma IncrementedIds(vals: seq<Validator>)
    requires vals != [] && WellFormed(vals)
    ensures SameIds(vals, Incremented(vals)) && WellFormed(Incremented(vals))
  {
    SameIdsPowers(vals, Incremented(vals));
  }

  /** In a round of distinct validators the winner beats all others. */
  lemma NextProposerWins(vals: seq<Validator>)
    requires vals != [] && UniqueAddresses(vals)
    ensures IsMost(Raised(vals), NextProposer(vals))
  {
    assert SameIds(vals, Raised(vals));
    SameIdsPowers(vals, Raised(vals));
    MostIndexIsMost(Raised(vals));
  }

  /** A round in which nothing clips. */
  ghost predicate ExactRound(vals: seq<Validator>)
    requires vals != []
  {
    var raised, m, out := Raised(vals), NextProposer(vals), Incremented(vals);
    && (forall i :: 0 <= i < |vals| ==> raised[i].priority == vals[i].priority + vals[i].power)
    && out[m].priority == raised[m].priority - TotalPower(vals)
  }

  /** An exact round is a round of ProposerMath. */
  lemma ExactIsElected(vals: seq<Validator>)
    requires vals != [] && WellFormed(vals) && ExactRound(vals)
    ensures M.Elected(Priorities(vals), Powers(vals), NextProposer(vals), Priorities(Incremented(vals)))
  {
    var raised, m := Raised(vals), NextProposer(vals);
    NextProposerWins(vals);
    forall i | 0 <= i < |vals|
      ensures vals[i].priority + vals[i].power <= vals[m].priority + vals[m].power
    {
      assert i != m ==> Beats(raised[m], raised[i]);
    }
  }

  lemma RaisedExactly(vals: seq<Validator>)
    requires forall i :: 0 <= i < |vals| ==> Int64.InRange(vals[i].priority) && Int64.InRange(vals[i].power)
    requires forall i :: 0 <= i < |vals| ==> Int64.InRange(vals[i].priority + vals[i].power)
    ensures forall i :: 0 <= i < |vals| ==> Raised(vals)[i].priority == vals[i].priority + vals[i].power
  {
  }

  lemma RaisedSum(vals: seq<Validator>)
    requires forall i :: 0 <= i < |vals| ==> Raised(vals)[i].priority == vals[i].priority + vals[i].power
    ensures Sum(Priorities(Raised(vals))) == Sum(Priorities(vals)) + TotalPower(vals)
  {
    var (p, v, u) := (Priorities(vals), Powers(vals), Priorities(Raised(vals)));
    assert forall i :: 0 <= i < |u| ==> u[i] == p[i] + v[i];
    SumPointwise(p, v, u);
  }

  lemma WinnerIsPositive(vals: seq<Validator>)
    requires vals != [] && UniqueAddresses(vals) && Sum(Priorities(Raised(vals))) > 0
    ensures Raised(vals)[NextProposer(vals)].priority > 0
  {
    NextProposerWins(vals);
    var raised, m := Raised(vals), NextProposer(vals);
    forall i | 0 <= i < |raised| ensures raised[i].priority <= raised[m].priority {
      assert i != m ==> Beats(raised[m], raised[i]);
    }
    M.MaxIsPositive(Priorities(raised), m);
  }

  /** A round is exact when sums of priority and power fit an int64 and the sum
      of priorities is not negative. */
  lemma RoundIsExact(vals: seq<Validator>)
    requires vals != [] && WellFormed(vals)
    requires forall i :: 0 <= i < |vals| ==> Int64.InRange(vals[i].priority + vals[i].power)
    requires Sum(Priorities(vals)) >= 0
    ensures ExactRound(vals)
  {
    PowerFacts(vals);
    RaisedExactly(vals);
    RaisedSum(vals);
    WinnerIsPositive(vals);
  }

  // ----- any number of rounds

  predicate Follows(vals: seq<Validator>, winner: int, next: seq<Validator>) {
    vals != [] && winner == NextProposer(vals) && next == Incremented(vals)
  }

  /** A run of incrementProposerPriority: the lists it passes through and the
      positions it elects. */
  ghost predicate Run(trace: seq<seq<Validator>>, winners: seq<int>) {
    && |trace| == |winners| + 1
    && trace[0] != []
    && forall j :: 0 <= j < |winners| ==> Follows(trace[j], winners[j], trace[j + 1])
  }

  /** A run that starts from well-formed, centred validators. */
  ghost predicate CentredRun(trace: seq<seq<Validator>>, winners: seq<int>) {
    && Run(trace, winners)
    && WellFormed(trace[0])
    && M.Centred(Priorities(trace[0]), TotalPower(trace[0]))
  }

  /** Room in an int64 for the highest sum a run can form: (2 + H(n)) * T. */
  ghost predicate HarmonicRoom(vals: seq<Validator>) {
    M.Cap(TotalPower(vals), |vals|) + TotalPower(vals) as real <= Int64.MAX as real
  }

  ghost function PriorityTrace(trace: seq<seq<Validator>>): (r: seq<seq<int>>) {
    seq(|trace|, j requires 0 <= j < |trace| => Priorities(trace[j]))
  }

  /** A run keeps everything but the priorities. */
  lemma {:induction false} RunKeepsIds(trace: seq<seq<Validator>>, winners: seq<int>, j: int)
    requires Run(trace, winners) && WellFormed(trace[0]) && 0 <= j < |trace|
    ensures SameIds(trace[0], trace[j]) && WellFormed(trace[j])
  {
    if j > 0 {
      RunKeepsIds(trace, winners, j - 1);
      assert Follows(trace[j - 1], winners[j - 1], trace[j]);
      IncrementedIds(trace[j - 1]);
    }
  }

  /** Without clipping, the first `j` rounds are rounds of ProposerMath. */
  ghost predicate ExactUpTo(trace: seq<seq<Validator>>, winners: seq<int>, j: int)
    requires |trace| == |winners| + 1 && 0 <= j < |trace|
  {
    M.Rounds(Powers(trace[0]), PriorityTrace(trace)[..j + 1], winners[..j])
  }

  lemma RoundAfterExact(trace: seq<seq<Validator>>, winners: seq<int>, j: int)
    requires CentredRun(trace, winners) && HarmonicRoom(trace[0])
    requires 0 <= j < |trace| && ExactUpTo(trace, winners, j)
    ensures trace[j] != [] && ExactRound(trace[j])
  {
    var states, v, last := PriorityTrace(trace)[..j + 1], Powers(trace[0]), trace[j];
    PowerFacts(trace[0]);
    RunKeepsIds(trace, winners, j);
    SameIdsPowers(trace[0], last);
    forall i | 0 <= i < |last| ensures Int64.InRange(last[i].priority + last[i].power) {
      M.RunStaysWithin(v, states, winners[..j], j, i);
      assert v[i] == last[i].power && states[j][i] == last[i].priority;
    }
    M.RunBounds(v, states, winners[..j], j);
    RoundIsExact(last);
  }

  lemma ExtendExact(trace: seq<seq<Validator>>, winners: seq<int>, j: int)
    requires Run(trace, winners) && WellFormed(trace[0])
    requires 0 <= j < |winners| && ExactUpTo(trace, winners, j)
    requires trace[j] != [] && ExactRound(trace[j])
    ensures ExactUpTo(trace, winners, j + 1)
  {
    RunKeepsIds(trace, winners, j);
    SameIdsPowers(trace[0], trace[j]);
    assert Follows(trace[j], winners[j], trace[j + 1]);
    ExactIsElected(trace[j]);
    var states := PriorityTrace(trace);
    assert states[..j + 2] == states[..j + 1] + [states[j + 1]];
    assert winners[..j + 1] == winners[..j] + [winners[j]];
    M.RoundsSnoc(Powers(trace[0]), states[..j + 1], winners[..j], winners[j], states[j + 1]);
  }

  /** No addition or subtraction clips, in any number of rounds. */
  lemma {:induction false} NoClipping(trace: seq<seq<Validator>>, winners: seq<int>, j: int)
    requires CentredRun(trace, winners) && HarmonicRoom(trace[0]) && 0 <= j < |trace|
    ensures ExactUpTo(trace, winners, j)
    ensures trace[j] != [] && ExactRound(trace[j])
  {
    if j > 0 {
      NoClipping(trace, winners, j - 1);
      ExtendExact(trace, winners, j - 1);
    }
    RoundAfterExact(trace, winners, j);
  }

  /** The priorities along a run: never below -2T, never above (1 + H(n)) * T,
      and with an unchanging sum. */
  lemma RunPriorities(trace: seq<seq<Validator>>, winners: seq<int>, j: int, i: int)
    requires CentredRun(trace, winners) && HarmonicRoom(trace[0])
    requires 0 <= j < |trace| && 0 <= i < |trace[0]|
    ensures |trace[j]| == |trace[0]|
    ensures -2 * TotalPower(trace[0]) <= trace[j][i].priority
    ensures trace[j][i].priority as real <= M.Cap(TotalPower(trace[0]), |trace[0]|)
    ensures Sum(Priorities(trace[j])) == Sum(Priorities(trace[0]))
  {
    NoClipping(trace, winners, j);
    RunKeepsIds(trace, winners, j);
    PowerFacts(trace[0]);
    var states, v := PriorityTrace(trace)[..j + 1], Powers(trace[0]);
    assert states[j][i] == trace[j][i].priority && |v| == |trace[0]|;
    M.RunPriority(v, states, winners[..j], j, i);
    M.RunBounds(v, states, winners[..j], j);
  }

  /** Any `k` validators together stay below k * T * (2 + H(n) - H(k)). */
  lemma RunHolding(trace: seq<seq<Validator>>, winners: seq<int>, j: int, a: set<int>)
    requires CentredRun(trace, winners) && HarmonicRoom(trace[0])
    requires 0 <= j < |trace| && M.Positions(a, |trace[0]|) && a != {}
    ensures M.SumIn(Priorities(trace[j]), a) as real
            <= M.Holding(TotalPower(trace[0]), |trace[0]|, |a|)
  {
    NoClipping(trace, winners, j);
    PowerFacts(trace[0]);
    var states, v := PriorityTrace(trace)[..j + 1], Powers(trace[0]);
    M.RunBounds(v, states, winners[..j], j);
    assert M.SubsetBound(states[j], Sum(v), a);
  }

  /** Every validator proposes in proportion to its power: in `k` rounds at least
      k * v / T - (3 + H(n)) and at most k * v / T + 4 times, and exactly
      (k * v + first priority - last priority) / T times. */
  lemma FairShare(trace: seq<seq<Validator>>, winners: seq<int>, i: int)
    requires CentredRun(trace, winners) && HarmonicRoom(trace[0])
    requires 0 <= i < |trace[0]|
    ensures |trace[|winners|]| == |trace[0]|
    ensures var (T, k, wins) := (TotalPower(trace[0]), |winners|, M.Count(winners, i));
            && T * wins == k * trace[0][i].power + trace[0][i].priority - trace[k][i].priority
            && T * wins <= k * trace[0][i].power + 4 * T
            && (k * trace[0][i].power) as real
               <= (T * wins) as real + M.Cap(T, |trace[0]|) + 2.0 * T as real
  {
    var k := |winners|;
    NoClipping(trace, winners, k);
    RunKeepsIds(trace, winners, k);
    PowerFacts(trace[0]);
    var states, v := PriorityTrace(trace)[..k + 1], Powers(trace[0]);
    assert winners[..k] == winners && v[i] == trace[0][i].power && |v| == |trace[0]|;
    assert states[0][i] == trace[0][i].priority && states[k][i] == trace[k][i].priority;
    M.Balance(v, states, winners, i);
    M.Fairness(v, states, winners, i);
  }

  /** The shares are of exactly as many elections as there were rounds. */
  lemma SharesAddUp(trace: seq<seq<Validator>>, winners: seq<int>)
    requires Run(trace, winners) && WellFormed(trace[0])
    ensures Sum(seq(|trace[0]|, i requires 0 <= i < |trace[0]| => M.Count(winners, i))) == |winners|
  {
    forall j | 0 <= j < |winners| ensures 0 <= winners[j] < |trace[0]| {
      assert Follows(trace[j], winners[j], trace[j + 1]);
      RunKeepsIds(trace, winners, j);
    }
    M.CountsAddUp(|trace[0]|, winners);
  }

  lemma CapFits(T: int, n: nat, c: nat)
    requires 0 <= T && M.H(n) <= c as real && (c + 2) * T <= Int64.MAX
    ensures M.Cap(T, n) + T as real <= Int64.MAX as real
  {
    var t := T as real;
    M.NotLess(t, 1.0 + M.H(n), 1.0 + c as real);
    M.CastProduct(c + 2, T);
    assert t * (1.0 + c as real) + t == (c + 2) as real * t;
  }

  /** The room is there for every set of up to 128 validators the power cap
      allows, and for up to 16384 validators with 1/14 of the int64 range. */
  lemma RoomForManyValidators(vals: seq<Validator>)
    requires vals != [] && WellFormed(vals)
    requires |vals| <= 128 || (|vals| <= 16384 && 14 * TotalPower(vals) <= Int64.MAX)
    ensures HarmonicRoom(vals)
  {
    M.HSmall();
    PowerFacts(vals);
    var (T, n) := (TotalPower(vals), |vals|);
    if n <= 128 {
      M.HMonotone(n, 128);
      CapFits(T, n, 6);
    } else {
      M.HMonotone(n, 16384);
      CapFits(T, n, 12);
    }
  }

  // ----- the bounds every operation of a validator set keeps

  /** The lowest priority an update can hand out: 1.125 times a total that was
      just under twice the maximum before removals. */
  const LOWEST_PRIORITY: int := -(2 * MAX_TOTAL_VOTING_POWER + 2 * MAX_TOTAL_VOTING_POWER / 8)

  const HIGHEST_PRIORITY: int := 3 * MAX_TOTAL_VOTING_POWER

  /** Between operations: no priority below -2T or above 3 * MaxTotalVotingPower,
      and a sum from 0 to below the number of validators. */
  ghost predicate Bounded(vals: seq<Validator>) {
    vals != [] ==>
      && Within(vals, -2 * TotalPower(vals), HIGHEST_PRIORITY)
      && 0 <= Sum(Priorities(vals)) < |vals|
  }

  /** What rescaling and centring start from. */
  ghost predicate Preparable(vals: seq<Validator>) {
    vals != [] && WellFormed(vals) && Within(vals, LOWEST_PRIORITY, HIGHEST_PRIORITY)
  }

  lemma BoundedIsPreparable(vals: seq<Validator>)
    requires vals != [] && WellFormed(vals) && Bounded(vals)
    ensures Preparable(vals)
  {
  }

  function Window(vals: seq<Validator>): int {
    Int64.Wrap(PRIORITY_WINDOW_SIZE_FACTOR * TotalPower(vals))
  }

  /** Rescaling to a window of twice the total power, then centring. */
  function Prepared(vals: seq<Validator>): seq<Validator>
    requires vals != [] && !RescalePanics(vals, Window(vals))
  {
    Shifted(Rescaled(vals, Window(vals)))
  }

  /** From any priorities an operation can leave or hand out, rescaling is exact:
      diff + diffMax - 1 stays below 8 * MaxTotalVotingPower. */
  lemma RescaleFits(vals: seq<Validator>)
    requires Preparable(vals)
    ensures Window(vals) == 2 * TotalPower(vals) > 0
    ensures PriorityDiff(Priorities(vals)) == MaxOf(Priorities(vals)) - MinOf(Priorities(vals))
    ensures PriorityDiff(Priorities(vals)) + Window(vals) - 1 < 8 * MAX_TOTAL_VOTING_POWER
    ensures !RescalePanics(vals, Window(vals))
    ensures var scaled := Rescaled(vals, Window(vals));
            && SameIds(vals, scaled)
            && PrioritiesInRange(scaled)
            && SpreadAtMost(Priorities(scaled), 2 * TotalPower(vals))
  {
    PowerFacts(vals);
    RescaleSpread(vals, 2 * TotalPower(vals), LOWEST_PRIORITY, HIGHEST_PRIORITY);
  }

  ghost predicate ExactScale(vals: seq<Validator>, scaled: seq<Validator>, diff: int, window: int)
    requires window > 0
  {
    && |scaled| == |vals|
    && (diff > window ==> ScaleRatio(diff, window) == (diff + window - 1) / window > 0)
    && forall i :: 0 <= i < |vals| ==>
         scaled[i].priority ==
         if diff > window then Int64.Quo(vals[i].priority, ScaleRatio(diff, window)) else vals[i].priority
  }

  ghost predicate ExactShift(vals: seq<Validator>) {
    vals != []
    && forall i :: 0 <= i < |vals| ==> Shifted(vals)[i].priority == vals[i].priority - Average(vals)
  }

  /** Rescaling and centring in which no int64 operation wraps or clips: the difference,
      the ratio, every division and every subtraction give the true value. */
  ghost predicate ExactPrepare(vals: seq<Validator>)
    requires vals != []
  {
    var (diff, window) := (PriorityDiff(Priorities(vals)), Window(vals));
    && diff == MaxOf(Priorities(vals)) - MinOf(Priorities(vals))
    && window == 2 * TotalPower(vals) > 0
    && diff + window - 1 < 8 * MAX_TOTAL_VOTING_POWER <= Int64.MAX
    && !RescalePanics(vals, window)
    && ExactScale(vals, Rescaled(vals, window), diff, window)
    && ExactShift(Rescaled(vals, window))
  }

  lemma ScaleIsExact(vals: seq<Validator>, diff: int, window: int)
    requires vals != [] && PrioritiesInRange(vals) && window > 0 && !RescalePanics(vals, window)
    requires diff == PriorityDiff(Priorities(vals)) && diff + window <= Int64.MAX
    ensures ExactScale(vals, Rescaled(vals, window), diff, window)
  {
    if diff > window {
      RatioCovers(diff, window);
      forall i | 0 <= i < |vals|
        ensures Rescaled(vals, window)[i].priority == Int64.Quo(vals[i].priority, ScaleRatio(diff, window))
      {
        QuoShrinks(vals[i].priority, ScaleRatio(diff, window));
      }
    }
  }

  /** From whatever an operation starts with, rescaling and centring are exact. */
  lemma PrepareIsExact(vals: seq<Validator>)
    requires Preparable(vals)
    ensures ExactPrepare(vals)
  {
    RescaleFits(vals);
    ScaleIsExact(vals, PriorityDiff(Priorities(vals)), Window(vals));
    ShiftExact(Rescaled(vals, Window(vals)), 2 * TotalPower(vals));
  }

  /** Centred priorities lie within [-2T, 2T]. */
  lemma CentredIsBounded(vals: seq<Validator>, T: int)
    requires vals != [] && M.Centred(Priorities(vals), T) && 0 < T <= MAX_TOTAL_VOTING_POWER
    ensures Within(vals, -2 * T, 2 * T)
    ensures PrioritiesInRange(vals)
    ensures T == TotalPower(vals) ==> Bounded(vals)
  {
    M.CentredBounds(Priorities(vals), T);
    forall i | 0 <= i < |vals| ensures -2 * T <= vals[i].priority <= 2 * T {
      assert Priorities(vals)[i] == vals[i].priority;
    }
  }

  /** Rescaling and centring never wrap or clip, and leave centred priorities. */
  lemma PrepareCentres(vals: seq<Validator>)
    requires Preparable(vals)
    ensures !RescalePanics(vals, Window(vals))
    ensures SameIds(vals, Prepared(vals)) && WellFormed(Prepared(vals))
    ensures TotalPower(Prepared(vals)) == TotalPower(vals)
    ensures M.Centred(Priorities(Prepared(vals)), TotalPower(vals))
    ensures Bounded(Prepared(vals))
  {
    PowerFacts(vals);
    RescaleFits(vals);
    var T, scaled := TotalPower(vals), Rescaled(vals, Window(vals));
    ShiftCentres(scaled, T);
    var out := Shifted(scaled);
    assert SameIds(vals, out);
    SameIdsPowers(vals, out);
    CentredIsBounded(out, T);
  }

  /** One round from centred priorities is exact and stays within [-2T, 3T]. */
  lemma OneRound(vals: seq<Validator>)
    requires vals != [] && WellFormed(vals)
    requires M.Centred(Priorities(vals), TotalPower(vals))
    ensures ExactRound(vals)
    ensures SameIds(vals, Incremented(vals)) && WellFormed(Incremented(vals))
    ensures Within(Incremented(vals), -2 * TotalPower(vals), 3 * TotalPower(vals))
    ensures Sum(Priorities(Incremented(vals))) == Sum(Priorities(vals))
  {
    var (T, p, v) := (TotalPower(vals), Priorities(vals), Powers(vals));
    PowerFacts(vals);
    M.CentredBounds(p, T);
    forall i | 0 <= i < |vals| ensures -2 * T <= vals[i].priority <= 2 * T {
      assert p[i] == vals[i].priority;
    }
    RoundIsExact(vals);
    ExactIsElected(vals);
    IncrementedIds(vals);
    var (m, q) := (NextProposer(vals), Priorities(Incremented(vals)));
    M.SumConserved(p, v, m, q);
    M.RoundLowerBound(p, v, m, q, -2 * T);
    forall i | 0 <= i < |vals| ensures -2 * T <= Incremented(vals)[i].priority <= 3 * T {
      assert q[i] == Incremented(vals)[i].priority;
    }
  }
}
