/** Whole histories of a validator set: any sequence of updates and proposer
    rotations, starting from the empty set. */
module ValidatorHistory {
  import opened Common
  import opened Validators
  import Sorting
  import Int64
  import R = Rotation
  import C = ChangeSet
  import S = ValidatorSets

  datatype Op =
    | Update(changes: seq<Validator>)
    | Increment(times: nat)

  /** IncrementProposerPriority(times) takes `vals` along `trace` to `next`. */
  ghost predicate Rotates(vals: seq<Validator>, trace: seq<seq<Validator>>, winners: seq<int>, next: seq<Validator>) {
    && vals != [] && winners != []
    && !R.RescalePanics(vals, R.Window(vals))
    && R.Run(trace, winners)
    && trace[0] == R.Prepared(vals)
    && trace[|winners|] == next
  }

  /** What one public operation does to the list of validators. */
  ghost predicate Step(vals: seq<Validator>, op: Op, next: seq<Validator>) {
    match op
    case Update(changes) =>
      if changes != [] && C.Acceptable(vals, changes, true)
      then C.UpdatesTo(vals, changes, next)
      else next == vals
    case Increment(times) =>
      exists trace, winners :: |winners| == times && Rotates(vals, trace, winners, next)
  }

  ghost predicate Happens(vals: seq<Validator>, op: Op, next: seq<Validator>) {
    && Step(vals, op, next)
    && (op.Increment? ==> op.times == 1 || S.BoundedRun(vals))
  }

  /** A history of operations. Calls with more than one round are made only when
      (1 + H(n)) * T is within three times the maximum total power. */
  ghost predicate History(states: seq<seq<Validator>>, ops: seq<Op>) {
    && |states| == |ops| + 1
    && states[0] == []
    && forall j :: 0 <= j < |ops| ==> Happens(states[j], ops[j], states[j + 1])
  }

  /** The invariant of a validator set between operations. */
  ghost predicate Sound(vals: seq<Validator>) {
    R.WellFormed(vals) && R.Bounded(vals) && Sorting.Ordered(C.PowerLe, vals)
  }

  ghost predicate PrefixesFit(vals: seq<Validator>, removals: seq<Validator>) {
    forall i :: 0 <= i <= |removals| ==> 0 <= Sorting.SumBy(C.Held(vals), removals[..i]) <= TotalPower(vals)
  }

  /** The running totals of verifyRemovals and verifyUpdates are int64 values. */
  ghost predicate ExactTotals(vals: seq<Validator>, changes: seq<Validator>) {
    C.Proper(changes) ==>
      && PrefixesFit(vals, C.Removals(changes))
      && var start := TotalPower(vals) - Sorting.SumBy(C.Held(vals), C.Removals(changes));
      && Int64.InRange(start)
      && S.PartialSumsFit(C.Delta(vals), S.SortedByDelta(C.Updates(changes), vals), start)
      && (C.FinalTotal(vals, changes) <= MAX_TOTAL_VOTING_POWER ==> Int64.InRange(C.TotalBeforeRemovals(vals, changes)))
  }

  /** The sum of the powers, formed one by one, never passes the maximum. */
  ghost predicate ExactSum(vals: seq<Validator>) {
    forall i :: 0 <= i <= |vals| ==> 0 <= TotalPower(vals[..i]) <= MAX_TOTAL_VOTING_POWER
  }

  ghost predicate ExactUpdate(vals: seq<Validator>, changes: seq<Validator>) {
    var total := C.TotalBeforeRemovals(vals, changes);
    && C.NewcomerPriority(total) == -(total + total / 8)
    && C.Merged(vals, changes) != [] && R.ExactPrepare(C.Merged(vals, changes))
  }

  ghost predicate ExactFrom(vals: seq<Validator>) {
    vals != [] && R.ExactRound(vals)
  }

  ghost predicate ExactRounds(trace: seq<seq<Validator>>, k: nat) {
    k <= |trace| && forall j :: 0 <= j < k ==> ExactFrom(trace[j])
  }

  /** No int64 operation of this step wraps or clips. */
  ghost predicate ExactStep(vals: seq<Validator>, op: Op, next: seq<Validator>) {
    && ExactSum(next)
    && match op
       case Update(changes) =>
         && ExactTotals(vals, changes)
         && (changes != [] && C.Acceptable(vals, changes, true) ==> ExactUpdate(vals, changes))
       case Increment(times) =>
         && vals != [] && R.ExactPrepare(vals)
         && forall trace, winners :: |winners| == times && Rotates(vals, trace, winners, next)
              ==> ExactRounds(trace, times)
  }

  lemma RemovalsAreExact(vals: seq<Validator>, removals: seq<Validator>)
    requires R.WellFormed(vals) && UniqueAddresses(removals)
    ensures PrefixesFit(vals, removals) && 0 <= Sorting.SumBy(C.Held(vals), removals) <= TotalPower(vals)
  {
    forall i | 0 <= i <= |removals| ensures 0 <= Sorting.SumBy(C.Held(vals), removals[..i]) <= TotalPower(vals) {
      S.HeldFits(vals, removals, i);
    }
    assert removals[..|removals|] == removals;
  }

  lemma TotalsAreExact(vals: seq<Validator>, changes: seq<Validator>)
    requires R.WellFormed(vals)
    ensures ExactTotals(vals, changes)
  {
    if C.Proper(changes) {
      S.UniqueRemovals(changes);
      RemovalsAreExact(vals, C.Removals(changes));
      S.RunningTotalFits(vals, changes, S.SortedByDelta(C.Updates(changes), vals));
      if C.FinalTotal(vals, changes) <= MAX_TOTAL_VOTING_POWER {
        C.TotalBeforeRemovalsBound(vals, changes);
      }
    }
  }

  lemma SumIsExact(vals: seq<Validator>)
    requires R.WellFormed(vals)
    ensures ExactSum(vals)
  {
    forall i | 0 <= i <= |vals| ensures 0 <= TotalPower(vals[..i]) <= MAX_TOTAL_VOTING_POWER {
      S.PrefixTotal(vals, i);
    }
  }

  lemma UpdateIsExact(vals: seq<Validator>, changes: seq<Validator>)
    requires Sound(vals) && C.Acceptable(vals, changes, true)
    ensures ExactUpdate(vals, changes)
  {
    C.TotalBeforeRemovalsBound(vals, changes);
    C.MergedPreparable(vals, changes, true);
    R.PrepareIsExact(C.Merged(vals, changes));
  }

  lemma UpdateStep(vals: seq<Validator>, changes: seq<Validator>, next: seq<Validator>)
    requires Sound(vals) && Step(vals, Update(changes), next)
    ensures Sound(next) && ExactStep(vals, Update(changes), next)
  {
    TotalsAreExact(vals, changes);
    if changes != [] && C.Acceptable(vals, changes, true) {
      C.UpdateResult(vals, changes, true, next);
      UpdateIsExact(vals, changes);
    }
    SumIsExact(next);
  }

  lemma RotationIsCentred(vals: seq<Validator>, trace: seq<seq<Validator>>, winners: seq<int>, next: seq<Validator>)
    requires Sound(vals) && Rotates(vals, trace, winners, next)
    ensures R.Preparable(vals) && R.CentredRun(trace, winners) && R.SameIds(vals, trace[0])
  {
    R.BoundedIsPreparable(vals);
    R.PrepareCentres(vals);
  }

  lemma RotationStep(vals: seq<Validator>, trace: seq<seq<Validator>>, winners: seq<int>, next: seq<Validator>)
    requires Sound(vals) && Rotates(vals, trace, winners, next)
    requires |winners| == 1 || S.BoundedRun(vals)
    ensures Sound(next)
    ensures |winners| == 1 ==> R.Within(next, -2 * TotalPower(vals), 3 * TotalPower(vals))
    ensures R.SameIds(vals, next)
  {
    RotationIsCentred(vals, trace, winners, next);
    R.PrepareCentres(vals);
    R.RunKeepsIds(trace, winners, |winners|);
    S.RunIsBounded(vals, trace, winners);
    S.OrderedSameIds(vals, next);
  }

  lemma OneRoundExact(vals: seq<Validator>, trace: seq<seq<Validator>>, winners: seq<int>, next: seq<Validator>)
    requires Sound(vals) && Rotates(vals, trace, winners, next) && |winners| == 1
    ensures ExactRounds(trace, 1)
  {
    RotationIsCentred(vals, trace, winners, next);
    R.OneRound(trace[0]);
  }

  lemma ManyRoundsExact(vals: seq<Validator>, trace: seq<seq<Validator>>, winners: seq<int>, next: seq<Validator>)
    requires Sound(vals) && Rotates(vals, trace, winners, next) && S.BoundedRun(vals)
    ensures ExactRounds(trace, |winners|)
  {
    RotationIsCentred(vals, trace, winners, next);
    S.BoundedRunHasRoom(vals, trace[0]);
    forall j | 0 <= j < |winners| ensures ExactFrom(trace[j]) {
      R.NoClipping(trace, winners, j);
    }
  }

  lemma IncrementIsExact(vals: seq<Validator>, times: nat, next: seq<Validator>)
    requires Sound(vals) && vals != [] && R.WellFormed(next)
    requires times == 1 || S.BoundedRun(vals)
    ensures ExactStep(vals, Increment(times), next)
  {
    R.BoundedIsPreparable(vals);
    R.PrepareIsExact(vals);
    SumIsExact(next);
    forall trace, winners | |winners| == times && Rotates(vals, trace, winners, next)
      ensures ExactRounds(trace, times)
    {
      if times == 1 {
        OneRoundExact(vals, trace, winners, next);
      } else {
        ManyRoundsExact(vals, trace, winners, next);
      }
    }
  }

  lemma IncrementIsSound(vals: seq<Validator>, times: nat, next: seq<Validator>)
    requires Sound(vals) && Step(vals, Increment(times), next)
    requires times == 1 || S.BoundedRun(vals)
    ensures vals != [] && Sound(next) && R.SameIds(vals, next)
    ensures times == 1 ==> R.Within(next, -2 * TotalPower(vals), 3 * TotalPower(vals))
  {
    var trace, winners :| |winners| == times && Rotates(vals, trace, winners, next);
    RotationStep(vals, trace, winners, next);
  }

  /** What every step keeps, a history keeps. */
  lemma {:induction false} HistoryKeeps(states: seq<seq<Validator>>, ops: seq<Op>, happens: (seq<Validator>,
      Op, seq<Validator>) -> bool, good: seq<Validator> -> bool, j: int)
    requires |states| == |ops| + 1 && 0 <= j < |states| && good(states[0])
    requires forall i :: 0 <= i < |ops| ==> happens(states[i], ops[i], states[i + 1])
    requires forall vals, op, next :: good(vals) && happens(vals, op, next) ==> good(next)
    ensures good(states[j])
    decreases j
  {
    if j > 0 {
      HistoryKeeps(states, ops, happens, good, j - 1);
      assert happens(states[j - 1], ops[j - 1], states[j - 1 + 1]);
    }
  }

  lemma OneStep(vals: seq<Validator>, op: Op, next: seq<Validator>)
    requires Sound(vals) && Happens(vals, op, next)
    ensures Sound(next) && ExactStep(vals, op, next)
  {
    match op
    case Update(changes) => UpdateStep(vals, changes, next);
    case Increment(times) =>
      IncrementIsSound(vals, times, next);
      IncrementIsExact(vals, times, next);
  }

  lemma SoundKept()
    ensures forall vals, op, next :: Sound(vals) && Happens(vals, op, next) ==> Sound(next)
  {
    forall vals, op, next | Sound(vals) && Happens(vals, op, next) ensures Sound(next) {
      OneStep(vals, op, next);
    }
  }

  lemma HistorySound(states: seq<seq<Validator>>, ops: seq<Op>, j: int)
    requires History(states, ops) && 0 <= j < |states|
    ensures Sound(states[j])
  {
    SoundKept();
    HistoryKeeps(states, ops, Happens, Sound, j);
  }

  /** Over every history the invariant holds and all arithmetic is exact. */
  lemma HistoryIsSound(states: seq<seq<Validator>>, ops: seq<Op>, j: int)
    requires History(states, ops) && 0 <= j < |states|
    ensures Sound(states[j])
    ensures j < |ops| ==> ExactStep(states[j], ops[j], states[j + 1])
  {
    HistorySound(states, ops, j);
    if j < |ops| {
      OneStep(states[j], ops[j], states[j + 1]);
    }
  }

  lemma RearrangedWithin(s: seq<Validator>, t: seq<Validator>, lo: int, hi: int)
    requires multiset(s) == multiset(t) && R.Within(s, lo, hi)
    ensures R.Within(t, lo, hi)
  {
    Sorting.SameElements(s, t);
    forall i | 0 <= i < |t| ensures lo <= t[i].priority <= hi {
      assert t[i] in s;
      var j :| 0 <= j < |s| && s[j] == t[i];
    }
  }

  lemma PreparedWithin(merged: seq<Validator>)
    requires R.Preparable(merged)
    ensures !R.RescalePanics(merged, R.Window(merged))
    ensures R.Within(R.Prepared(merged), -2 * TotalPower(merged), 2 * TotalPower(merged))
  {
    R.PrepareCentres(merged);
    R.PowerFacts(merged);
    R.CentredIsBounded(R.Prepared(merged), TotalPower(merged));
  }

  /** An update leaves all priorities within twice the total power. */
  lemma UpdateWithin(vals: seq<Validator>, changes: seq<Validator>, next: seq<Validator>)
    requires Sound(vals) && C.Acceptable(vals, changes, true) && C.UpdatesTo(vals, changes, next)
    ensures R.Within(next, -2 * TotalPower(next), 2 * TotalPower(next))
  {
    var merged := C.Merged(vals, changes);
    C.UpdateResult(vals, changes, true, next);
    C.MergedPreparable(vals, changes, true);
    PreparedWithin(merged);
    C.PowerOrder();
    RearrangedWithin(R.Prepared(merged), next, -2 * TotalPower(merged), 2 * TotalPower(merged));
  }

  lemma StepWithin(vals: seq<Validator>, op: Op, next: seq<Validator>)
    requires Sound(vals) && Step(vals, op, next) && (op.Increment? ==> op.times == 1)
    requires R.Within(vals, -2 * TotalPower(vals), 3 * TotalPower(vals))
    ensures R.Within(next, -2 * TotalPower(next), 3 * TotalPower(next))
  {
    match op
    case Update(changes) =>
      if changes != [] && C.Acceptable(vals, changes, true) {
        UpdateWithin(vals, changes, next);
        C.UpdateResult(vals, changes, true, next);
        R.PowerFacts(next);
      }
    case Increment(times) =>
      IncrementIsSound(vals, times, next);
      R.SameIdsPowers(vals, next);
  }

  /** The invariant, with priorities from -2T to 3T. */
  ghost predicate Narrow(vals: seq<Validator>) {
    Sound(vals) && R.Within(vals, -2 * TotalPower(vals), 3 * TotalPower(vals))
  }

  ghost predicate HappensOnce(vals: seq<Validator>, op: Op, next: seq<Validator>) {
    Step(vals, op, next) && (op.Increment? ==> op.times == 1)
  }

  lemma NarrowStep(vals: seq<Validator>, op: Op, next: seq<Validator>)
    requires Narrow(vals) && HappensOnce(vals, op, next)
    ensures Narrow(next)
  {
    OneStep(vals, op, next);
    StepWithin(vals, op, next);
  }

  lemma NarrowKept()
    ensures forall vals, op, next :: Narrow(vals) && HappensOnce(vals, op, next) ==> Narrow(next)
  {
    forall vals, op, next | Narrow(vals) && HappensOnce(vals, op, next) ensures Narrow(next) {
      NarrowStep(vals, op, next);
    }
  }

  lemma NarrowHistory(states: seq<seq<Validator>>, ops: seq<Op>, j: int)
    requires |states| == |ops| + 1 && states[0] == [] && 0 <= j < |states|
    requires forall i :: 0 <= i < |ops| ==> HappensOnce(states[i], ops[i], states[i + 1])
    ensures Narrow(states[j])
  {
    NarrowKept();
    HistoryKeeps(states, ops, HappensOnce, Narrow, j);
  }

  /** Over every history of updates and single rounds, every priority stays from -2T to
      3T, and the sum from 0 to below the number of validators. */
  lemma SingleRoundsWithin(states: seq<seq<Validator>>, ops: seq<Op>, j: int)
    requires |states| == |ops| + 1 && states[0] == [] && 0 <= j < |states|
    requires forall i :: 0 <= i < |ops| ==> HappensOnce(states[i], ops[i], states[i + 1])
    ensures R.Within(states[j], -2 * TotalPower(states[j]), 3 * TotalPower(states[j]))
    ensures states[j] != [] ==> 0 <= Sum(Priorities(states[j])) < |states[j]|
  {
    NarrowHistory(states, ops, j);
  }
}
