/** The validator set: the mutable object of types/validator_set.go, whose
    methods are proved against the functions of Rotation and ChangeSet. */
module ValidatorSets {
  import opened Common
  import opened Validators
  import opened Sorting
  import Int64
  import M = ProposerMath
  import R = Rotation
  import C = ChangeSet

  // ----- scans that do not change the set

  method ComputeMaxMinPriorityDiff(vals: seq<Validator>) returns (diff: int)
    requires vals != [] && R.PrioritiesInRange(vals)
    ensures diff == R.PriorityDiff(Priorities(vals))
  {
    var max, min := Int64.MIN, Int64.MAX;
    var ps := Priorities(vals);
    for i := 0 to |vals|
      invariant i == 0 ==> max == Int64.MIN && min == Int64.MAX
      invariant i > 0 ==> max == R.MaxOf(ps[..i]) && min == R.MinOf(ps[..i])
    {
      if i > 0 {
        R.ExtremesSnoc(ps, i);
      }
      if vals[i].priority < min {
        min := vals[i].priority;
      }
      if vals[i].priority > max {
        max := vals[i].priority;
      }
    }
    assert ps[..|vals|] == ps;
    diff := Int64.Wrap(max - min);
    if diff < 0 {
      diff := Int64.Wrap(-1 * diff);
    }
  }

  /** The big-integer sum has no width; the quotient is an int64 again. */
  method ComputeAvgProposerPriority(vals: seq<Validator>) returns (avg: int)
    requires vals != [] && R.PrioritiesInRange(vals)
    ensures avg == R.Average(vals) && Int64.InRange(avg)
  {
    var sum := 0;
    var ps := Priorities(vals);
    for i := 0 to |vals|
      invariant sum == Sum(ps[..i])
    {
      assert ps[..i + 1][..i] == ps[..i];
      sum := sum + vals[i].priority;
    }
    assert ps[..|vals|] == ps;
    avg := sum / |vals|;
    R.AverageInRange(vals, Int64.MIN, Int64.MAX);
  }

  method GetValWithMostPriority(vals: seq<Validator>) returns (m: int)
    requires vals != [] && UniqueAddresses(vals)
    ensures m == R.MostIndex(vals) && R.IsMost(vals, m)
  {
    m := 0;
    for i := 1 to |vals|
      invariant 0 <= m < i && m == R.MostIndex(vals[..i])
    {
      assert vals[..i + 1][..i] == vals[..i];
      if !R.Beats(vals[m], vals[i]) {
        m := i;
      }
    }
    assert vals[..|vals|] == vals;
    R.MostIndexIsMost(vals);
  }

  // ----- checking a batch of changes

  datatype Split = Split(updates: seq<Validator>, removals: seq<Validator>)

  predicate HasEmptyAddress(changes: seq<Validator>) {
    exists c :: c in changes && c.address == []
  }

  predicate PowersFit(changes: seq<Validator>) {
    forall c :: c in changes ==> 0 <= c.power <= MAX_TOTAL_VOTING_POWER
  }

  /** An empty address comes first. */
  lemma EmptyFirst(changes: seq<Validator>, sorted: seq<Validator>)
    requires Ordered(C.AddressLe, sorted) && multiset(sorted) == multiset(changes)
    ensures HasEmptyAddress(changes) ==> sorted != [] && sorted[0].address == []
  {
    SameElements(changes, sorted);
    if c :| c in changes && c.address == [] {
      var k :| 0 <= k < |sorted| && sorted[k] == c;
      if k > 0 {
        assert C.AddressLe(sorted[0], sorted[k]);
      }
    }
  }

  /** Equal neighbours in the sorted list, or an empty first address. */
  lemma Repeated(changes: seq<Validator>, sorted: seq<Validator>, i: int)
    requires multiset(sorted) == multiset(changes) && 0 <= i < |sorted|
    requires sorted[i].address == if i == 0 then [] else sorted[i - 1].address
    ensures !C.Proper(changes)
    ensures C.Justified(C.DuplicateEntry, [], changes, true)
    ensures i > 0 ==> !UniqueAddresses(changes)
    ensures i == 0 ==> HasEmptyAddress(changes)
  {
    SameElements(changes, sorted);
    if i == 0 {
      assert sorted[0] in changes;
      var k :| 0 <= k < |changes| && changes[k] == sorted[0];
    } else if UniqueAddresses(changes) {
      C.UniqueRearranged(changes, sorted);
      assert false;
    }
  }

  lemma SplitSnoc(sorted: seq<Validator>, i: int)
    requires 0 <= i < |sorted|
    ensures C.Positive(sorted[..i + 1])
            == C.Positive(sorted[..i]) + (if sorted[i].power > 0 then [sorted[i]] else [])
    ensures C.Zero(sorted[..i + 1])
            == C.Zero(sorted[..i]) + (if sorted[i].power == 0 then [sorted[i]] else [])
  {
    assert sorted[..i + 1][..i] == sorted[..i];
  }

  lemma BadPower(changes: seq<Validator>, sorted: seq<Validator>, i: int)
    requires multiset(sorted) == multiset(changes) && 0 <= i < |sorted|
    requires sorted[i].power < 0 || sorted[i].power > MAX_TOTAL_VOTING_POWER
    ensures !C.Proper(changes)
    ensures sorted[i].power < 0 ==> C.Justified(C.NegativePower, [], changes, true)
    ensures sorted[i].power > MAX_TOTAL_VOTING_POWER ==> C.Justified(C.PowerTooHigh, [], changes, true)
    ensures !PowersFit(changes)
  {
    SameElements(changes, sorted);
    assert sorted[i] in changes;
    var k :| 0 <= k < |changes| && changes[k] == sorted[i];
  }

  lemma NextAscends(sorted: seq<Validator>, i: int)
    requires Ordered(C.AddressLe, sorted) && 0 <= i < |sorted|
    requires C.Ascending(sorted[..i])
    requires i > 0 ==> sorted[i].address != sorted[i - 1].address
    ensures C.Ascending(sorted[..i + 1])
  {
    forall j, k | 0 <= j < k < i + 1 ensures Before(sorted[j].address, sorted[k].address) {
      if k < i {
        assert Before(sorted[..i][j].address, sorted[..i][k].address);
      } else {
        assert C.AddressLe(sorted[i - 1], sorted[i]);
        BeforeTotal(sorted[i - 1].address, sorted[i].address);
        if j < i - 1 {
          assert Before(sorted[..i][j].address, sorted[..i][i - 1].address);
          BeforeTransitive(sorted[j].address, sorted[i - 1].address, sorted[i].address);
        }
      }
    }
  }

  lemma ScanIsProper(changes: seq<Validator>, sorted: seq<Validator>)
    requires multiset(sorted) == multiset(changes) && C.Ascending(sorted)
    requires forall j :: 0 <= j < |sorted| ==> 0 <= sorted[j].power <= MAX_TOTAL_VOTING_POWER
    requires sorted != [] ==> sorted[0].address != []
    ensures C.Proper(changes)
  {
    C.AscendingIsUnique(sorted);
    C.UniqueRearranged(sorted, changes);
    SameElements(changes, sorted);
    forall i | 0 <= i < |changes|
      ensures changes[i].address != [] && 0 <= changes[i].power <= MAX_TOTAL_VOTING_POWER
    {
      assert changes[i] in sorted;
      var j :| 0 <= j < |sorted| && sorted[j] == changes[i];
      if j > 0 {
        assert Before(sorted[0].address, sorted[j].address);
      }
    }
  }

  /** The first `i` of the sorted changes are in order and split. */
  ghost predicate Scanned(sorted: seq<Validator>, i: int, updates: seq<Validator>, removals: seq<Validator>) {
    && 0 <= i <= |sorted| && C.Ascending(sorted[..i]) && (i > 0 ==> sorted[0].address != [])
    && updates == C.Positive(sorted[..i]) && removals == C.Zero(sorted[..i])
    && forall j :: 0 <= j < i ==> 0 <= sorted[j].power <= MAX_TOTAL_VOTING_POWER
  }

  lemma ScanNext(sorted: seq<Validator>, i: int, updates: seq<Validator>, removals: seq<Validator>)
    requires Ordered(C.AddressLe, sorted) && Scanned(sorted, i, updates, removals) && i < |sorted|
    requires sorted[i].address != if i == 0 then [] else sorted[i - 1].address
    requires 0 <= sorted[i].power <= MAX_TOTAL_VOTING_POWER
    ensures if sorted[i].power == 0 then Scanned(sorted, i + 1, updates, removals + [sorted[i]])
            else Scanned(sorted, i + 1, updates + [sorted[i]], removals)
  {
    SplitSnoc(sorted, i);
    NextAscends(sorted, i);
  }

  lemma ScanDone(changes: seq<Validator>, sorted: seq<Validator>, updates: seq<Validator>, removals: seq<Validator>)
    requires sorted == C.Sorted(changes) && Scanned(sorted, |sorted|, updates, removals)
    ensures C.Proper(changes) && updates == C.Updates(changes) && removals == C.Removals(changes)
  {
    assert sorted[..|sorted|] == sorted;
    ScanIsProper(changes, sorted);
  }

  /** What an error of the scan says. */
  ghost predicate Reports(changes: seq<Validator>, e: C.Error) {
    && !C.Proper(changes) && C.Justified(e, [], changes, true)
    && (e.DuplicateEntry? || e.NegativePower? || e.PowerTooHigh?)
    && (!e.DuplicateEntry? ==> !HasEmptyAddress(changes) && !PowersFit(changes))
  }

  lemma RepeatedReports(changes: seq<Validator>, sorted: seq<Validator>, i: int)
    requires sorted == C.Sorted(changes) && 0 <= i < |sorted|
    requires sorted[i].address == if i == 0 then [] else sorted[i - 1].address
    ensures Reports(changes, C.DuplicateEntry)
  {
    Repeated(changes, sorted, i);
  }

  lemma PowerReports(changes: seq<Validator>, sorted: seq<Validator>, i: int)
    requires sorted == C.Sorted(changes) && 0 <= i < |sorted| && sorted[0].address != []
    ensures sorted[i].power < 0 ==> Reports(changes, C.NegativePower)
    ensures sorted[i].power > MAX_TOTAL_VOTING_POWER ==> Reports(changes, C.PowerTooHigh)
  {
    EmptyFirst(changes, sorted);
    if sorted[i].power < 0 || sorted[i].power > MAX_TOTAL_VOTING_POWER {
      BadPower(changes, sorted, i);
    }
  }

  /** The scan of the sorted changes. */
  method ScanChanges(changes: seq<Validator>) returns (r: Result<Split, C.Error>)
    ensures r.Ok? ==> C.Proper(changes) && r.value == Split(C.Updates(changes), C.Removals(changes))
    ensures r.Err? ==> Reports(changes, r.error)
  {
    var sorted := C.Sorted(changes);
    var updates, removals: seq<Validator>, prevAddr := [], [], [];
    for i := 0 to |sorted|
      invariant Scanned(sorted, i, updates, removals)
      invariant prevAddr == if i == 0 then [] else sorted[i - 1].address
    {
      var c := sorted[i];
      if c.address == prevAddr {
        RepeatedReports(changes, sorted, i);
        return Err(C.DuplicateEntry);
      }
      PowerReports(changes, sorted, i);
      if c.power < 0 {
        return Err(C.NegativePower);
      }
      if c.power > MAX_TOTAL_VOTING_POWER {
        return Err(C.PowerTooHigh);
      }
      ScanNext(sorted, i, updates, removals);
      if c.power == 0 {
        removals := removals + [c];
      } else {
        updates := updates + [c];
      }
      prevAddr := c.address;
    }
    ScanDone(changes, sorted, updates, removals);
    return Ok(Split(updates, removals));
  }

  /** Accepts exactly the proper batches, and splits them. An empty address is always
      reported as a duplicate, and of distinct addresses nothing else is; without a bad
      power, a duplicate is reported exactly when there is one or an empty address. */
  method ProcessChanges(changes: seq<Validator>) returns (r: Result<Split, C.Error>)
    ensures r.Ok? <==> C.Proper(changes)
    ensures r.Ok? ==> r.value == Split(C.Updates(changes), C.Removals(changes))
    ensures r.Err? ==> C.Justified(r.error, [], changes, true)
    ensures r.Err? ==> r.error.DuplicateEntry? || r.error.NegativePower? || r.error.PowerTooHigh?
    ensures HasEmptyAddress(changes) ==> r == Err(C.DuplicateEntry)
    ensures UniqueAddresses(changes) ==> (r == Err(C.DuplicateEntry) <==> HasEmptyAddress(changes))
    ensures PowersFit(changes) ==>
              (r == Err(C.DuplicateEntry) <==> !UniqueAddresses(changes) || HasEmptyAddress(changes))
  {
    r := ScanChanges(changes);
  }

  /** How many of the updates are newcomers. */
  function Newcomers(updates: seq<Validator>, vals: seq<Validator>): nat {
    if updates == [] then 0
    else Newcomers(updates[..|updates| - 1], vals)
         + (if updates[|updates| - 1].address in Addresses(vals) then 0 else 1)
  }

  method NumNewValidators(updates: seq<Validator>, vals: seq<Validator>) returns (n: nat)
    ensures n == Newcomers(updates, vals)
  {
    n := 0;
    for i := 0 to |updates|
      invariant n == Newcomers(updates[..i], vals)
    {
      assert updates[..i + 1][..i] == updates[..i];
      var index, _ := GetByAddress(vals, updates[i].address);
      if index < 0 {
        n := n + 1;
      }
    }
    assert updates[..|updates|] == updates;
  }

  lemma {:induction false} NoNewcomers(updates: seq<Validator>, vals: seq<Validator>)
    ensures Newcomers(updates, vals) == 0 <==> Addresses(updates) <= Addresses(vals)
  {
    if updates != [] {
      var n := |updates| - 1;
      NoNewcomers(updates[..n], vals);
      assert updates == updates[..n] + [updates[n]];
      assert Addresses(updates) == Addresses(updates[..n]) + {updates[n].address} by {
        assert forall v :: v in updates <==> v in updates[..n] || v == updates[n];
      }
    }
  }

  lemma PrefixSnoc(vals: seq<Validator>, deletes: seq<Validator>, i: int)
    requires 0 <= i < |deletes|
    ensures SumBy(C.Held(vals), deletes[..i + 1])
            == SumBy(C.Held(vals), deletes[..i]) + PowerAt(vals, deletes[i].address)
    ensures Addresses(deletes[..i + 1]) == Addresses(deletes[..i]) + {deletes[i].address}
  {
    assert deletes[..i + 1][..i] == deletes[..i];
    assert forall v :: v in deletes[..i + 1] <==> v in deletes[..i] || v == deletes[i];
  }

  /** Distinct addresses hold at most the total power. */
  lemma HeldFits(vals: seq<Validator>, deletes: seq<Validator>, i: int)
    requires R.WellFormed(vals) && UniqueAddresses(deletes) && 0 <= i <= |deletes|
    ensures 0 <= SumBy(C.Held(vals), deletes[..i]) <= TotalPower(vals)
  {
    C.KeepTotal(vals, deletes[..i]);
    C.HeldBounds(vals, deletes[..i]);
    C.KeepElements(vals, Addresses(deletes[..i]));
    C.TotalNonNegative(C.Keep(vals, Addresses(deletes[..i])));
  }

  lemma {:induction false} DistinctCount(s: seq<Validator>)
    requires UniqueAddresses(s)
    ensures |Addresses(s)| == |s|
  {
    if s != [] {
      C.AddressesCons(s);
      DistinctCount(s[1..]);
      assert s[0].address !in Addresses(s[1..]) by {
        forall w | w in s[1..] ensures w.address != s[0].address {
          var i :| 0 <= i < |s[1..]| && s[1..][i] == w;
        }
      }
    }
  }

  lemma {:induction false} AddressCount(s: seq<Validator>)
    ensures |Addresses(s)| <= |s|
  {
    if s != [] {
      C.AddressesCons(s);
      AddressCount(s[1..]);
    }
  }

  lemma SubsetCount(a: set<Bytes>, b: set<Bytes>)
    requires a <= b
    ensures |a| <= |b|
  {
    assert b == a + (b - a);
  }

  /** Distinct addresses that are all in the set are no more than the set: the
      panic on too many deletes is unreachable. */
  lemma {:induction false} FewerThan(s: seq<Validator>, t: seq<Validator>)
    requires UniqueAddresses(s) && Addresses(s) <= Addresses(t)
    ensures |s| <= |t|
  {
    DistinctCount(s);
    AddressCount(t);
    SubsetCount(Addresses(s), Addresses(t));
  }

  /** The power the removals hold; an error when one is not in the set. */
  method VerifyRemovals(deletes: seq<Validator>, vals: seq<Validator>) returns (r: Result<int, C.Error>)
    requires R.WellFormed(vals) && UniqueAddresses(deletes)
    ensures r.Ok? <==> Addresses(deletes) <= Addresses(vals)
    ensures r.Ok? ==> r.value == SumBy(C.Held(vals), deletes) && |deletes| <= |vals|
    ensures r.Err? ==> r.error == C.UnknownValidator
  {
    var removed := 0;
    for i := 0 to |deletes|
      invariant Addresses(deletes[..i]) <= Addresses(vals)
      invariant removed == SumBy(C.Held(vals), deletes[..i])
    {
      PrefixSnoc(vals, deletes, i);
      var index, val := GetByAddress(vals, deletes[i].address);
      if val == None {
        C.AddressIn(deletes, i);
        return Err(C.UnknownValidator);
      }
      HeldFits(vals, deletes, i + 1);
      removed := Int64.Wrap(removed + val.value.power);
    }
    assert deletes[..|deletes|] == deletes;
    FewerThan(deletes, vals);
    return Ok(removed);
  }

  predicate DeltaLe(vals: seq<Validator>, a: Validator, b: Validator) {
    C.Delta(vals)(a) <= C.Delta(vals)(b)
  }

  function SortedByDelta(updates: seq<Validator>, vals: seq<Validator>): (r: seq<Validator>)
    ensures multiset(r) == multiset(updates)
    ensures forall i, j :: 0 <= i < j < |r| ==> C.Delta(vals)(r[i]) <= C.Delta(vals)(r[j])
  {
    var le := (a, b) => DeltaLe(vals, a, b);
    var r := Sort(le, updates);
    assert forall i, j :: 0 <= i < j < |r| ==> le(r[i], r[j]);
    r
  }

  /** The partial sums of `f` that the check forms are int64 values: the next one
      always is when the current one is within the limit. */
  ghost predicate PartialSumsFit(f: Validator -> int, s: seq<Validator>, start: int) {
    forall i :: 0 <= i < |s| && start + SumBy(f, s[..i]) <= MAX_TOTAL_VOTING_POWER
      ==> Int64.InRange(start + SumBy(f, s[..i]) + f(s[i]))
  }

  /** The running check: with the decreases first, it fails exactly when the
      whole sum is above the limit. */
  method AddDeltas(f: Validator -> int, sorted: seq<Validator>, start: int) returns (r: Result<int, C.Error>)
    requires start <= MAX_TOTAL_VOTING_POWER && PartialSumsFit(f, sorted, start)
    requires forall i, j :: 0 <= i < j < |sorted| ==> f(sorted[i]) <= f(sorted[j])
    ensures r.Ok? <==> start + SumBy(f, sorted) <= MAX_TOTAL_VOTING_POWER
    ensures r.Ok? ==> r.value == start + SumBy(f, sorted)
    ensures r.Err? ==> r.error == C.TotalPowerOverflow
  {
    var tvp := start;
    for i := 0 to |sorted|
      invariant tvp == start + SumBy(f, sorted[..i]) <= MAX_TOTAL_VOTING_POWER
    {
      assert sorted[..i + 1][..i] == sorted[..i];
      tvp := Int64.Wrap(tvp + f(sorted[i]));
      if tvp > MAX_TOTAL_VOTING_POWER {
        C.SortedRunningTotal(f, sorted, start, MAX_TOTAL_VOTING_POWER, i + 1);
        return Err(C.TotalPowerOverflow);
      }
    }
    assert sorted[..|sorted|] == sorted;
    return Ok(tvp);
  }

  /** Where the running total starts and ends. */
  lemma RunningTotal(vals: seq<Validator>, changes: seq<Validator>, sorted: seq<Validator>)
    requires R.WellFormed(vals) && C.Proper(changes)
    requires multiset(sorted) == multiset(C.Updates(changes))
    ensures var start := TotalPower(vals) - SumBy(C.Held(vals), C.Removals(changes));
            && 0 <= start <= MAX_TOTAL_VOTING_POWER
            && start + SumBy(C.Delta(vals), sorted) == C.FinalTotal(vals, changes)
  {
    C.ComputedTotal(vals, changes);
    SumByRearranged(C.Delta(vals), sorted, C.Updates(changes));
    C.ProperSplit(changes);
    var d := C.Removals(changes);
    C.AscendingIsUnique(d);
    HeldFits(vals, d, |d|);
    assert d[..|d|] == d;
  }

  lemma PrefixHeld(vals: seq<Validator>, sorted: seq<Validator>, i: int)
    requires R.PositivePowers(vals) && 0 <= i <= |sorted|
    ensures SumBy(C.Held(vals), sorted[..i]) <= SumBy(C.Held(vals), sorted)
  {
    assert sorted == sorted[..i] + sorted[i..];
    C.SumByAppend(C.Held(vals), sorted[..i], sorted[i..]);
    C.HeldBounds(vals, sorted[i..]);
  }

  lemma PrefixPower(changes: seq<Validator>, sorted: seq<Validator>, i: int)
    requires C.Proper(changes) && 0 <= i <= |sorted| && multiset(sorted) == multiset(C.Updates(changes))
    ensures TotalPower(sorted[..i]) >= 0
  {
    C.ProperSplit(changes);
    SameElements(sorted, C.Updates(changes));
    forall v | v in sorted[..i] ensures v.power >= 0 {
      assert v in sorted;
    }
    C.TotalNonNegative(sorted[..i]);
  }

  /** Part way through, the running total is still not negative. */
  lemma RunningTotalLow(vals: seq<Validator>, changes: seq<Validator>, sorted: seq<Validator>, i: int)
    requires R.WellFormed(vals) && C.Proper(changes) && 0 <= i <= |sorted|
    requires multiset(sorted) == multiset(C.Updates(changes))
    ensures TotalPower(vals) - SumBy(C.Held(vals), C.Removals(changes)) + SumBy(C.Delta(vals), sorted[..i]) >= 0
  {
    C.ComputedTotal(vals, changes);
    C.KeepElements(vals, Addresses(changes));
    C.TotalNonNegative(C.Keep(vals, Addresses(changes)));
    SumByRearranged(C.Held(vals), sorted, C.Updates(changes));
    PrefixHeld(vals, sorted, i);
    C.DeltaTotal(vals, sorted[..i]);
    PrefixPower(changes, sorted, i);
  }

  lemma NextPartialSum(vals: seq<Validator>, changes: seq<Validator>, sorted: seq<Validator>, i: int)
    requires R.WellFormed(vals) && C.Proper(changes) && 0 <= i < |sorted|
    requires multiset(sorted) == multiset(C.Updates(changes))
    ensures C.Delta(vals)(sorted[i]) <= MAX_TOTAL_VOTING_POWER
    ensures TotalPower(vals) - SumBy(C.Held(vals), C.Removals(changes))
            + SumBy(C.Delta(vals), sorted[..i]) + C.Delta(vals)(sorted[i]) >= 0
  {
    assert sorted[..i + 1][..i] == sorted[..i];
    RunningTotalLow(vals, changes, sorted, i + 1);
    C.ProperSplit(changes);
    SameElements(sorted, C.Updates(changes));
    assert sorted[i] in C.Updates(changes);
  }

  lemma RunningTotalFits(vals: seq<Validator>, changes: seq<Validator>, sorted: seq<Validator>)
    requires R.WellFormed(vals) && C.Proper(changes)
    requires multiset(sorted) == multiset(C.Updates(changes))
    ensures PartialSumsFit(C.Delta(vals), sorted, TotalPower(vals) - SumBy(C.Held(vals), C.Removals(changes)))
  {
    var f, start := C.Delta(vals), TotalPower(vals) - SumBy(C.Held(vals), C.Removals(changes));
    forall i | 0 <= i < |sorted| && start + SumBy(f, sorted[..i]) <= MAX_TOTAL_VOTING_POWER
      ensures Int64.InRange(start + SumBy(f, sorted[..i]) + f(sorted[i]))
    {
      NextPartialSum(vals, changes, sorted, i);
    }
  }

  /** The running check on the sorted updates, from the total without the removals. */
  method CheckTotal(vals: seq<Validator>, sorted: seq<Validator>, start: int, ghost changes: seq<Validator>)
    returns (r: Result<int, C.Error>)
    requires R.WellFormed(vals) && C.Proper(changes) && multiset(sorted) == multiset(C.Updates(changes))
    requires forall i, j :: 0 <= i < j < |sorted| ==> C.Delta(vals)(sorted[i]) <= C.Delta(vals)(sorted[j])
    requires start == TotalPower(vals) - SumBy(C.Held(vals), C.Removals(changes))
    ensures r.Ok? <==> C.FinalTotal(vals, changes) <= MAX_TOTAL_VOTING_POWER
    ensures r.Ok? ==> r.value == C.FinalTotal(vals, changes)
    ensures r.Err? ==> r.error == C.TotalPowerOverflow
  {
    RunningTotal(vals, changes, sorted);
    RunningTotalFits(vals, changes, sorted);
    r := AddDeltas(C.Delta(vals), sorted, start);
  }

  /** Rejects exactly when the final total would exceed the maximum; the int64
      running total is exact throughout. */
  method VerifyUpdates(updates: seq<Validator>, vals: seq<Validator>, removed: int, ghost changes: seq<Validator>)
    returns (r: Result<int, C.Error>)
    requires R.WellFormed(vals) && C.Proper(changes) && updates == C.Updates(changes)
    requires removed == SumBy(C.Held(vals), C.Removals(changes))
    ensures r.Ok? <==> C.FinalTotal(vals, changes) <= MAX_TOTAL_VOTING_POWER
    ensures r.Ok? ==> r.value == C.TotalBeforeRemovals(vals, changes)
    ensures r.Err? ==> r.error == C.TotalPowerOverflow
  {
    var sorted := SortedByDelta(updates, vals);
    var start := TotalPower(vals) - removed;
    assert Int64.Wrap(start) == start by {
      RunningTotal(vals, changes, sorted);
    }
    r := CheckTotal(vals, sorted, Int64.Wrap(start), changes);
    if r.Ok? {
      C.TotalBeforeRemovalsBound(vals, changes);
      r := Ok(Int64.Wrap(r.value + removed));
    }
  }

  // ----- facts about prefixes, for the loops below

  lemma PrefixTotal(vals: seq<Validator>, i: int)
    requires R.PositivePowers(vals) && 0 <= i <= |vals|
    ensures 0 <= TotalPower(vals[..i]) <= TotalPower(vals)
  {
    assert vals == vals[..i] + vals[i..];
    TotalPowerAppend(vals[..i], vals[i..]);
    SumBoundsLow(Powers(vals[..i]));
    SumBoundsLow(Powers(vals[i..]));
  }

  lemma OrderedSameIds(s: seq<Validator>, t: seq<Validator>)
    requires R.SameIds(s, t) && Ordered(C.PowerLe, s)
    ensures Ordered(C.PowerLe, t)
  {
  }

  lemma Shift(a: seq<Validator>, x: Validator, b: seq<Validator>)
    ensures a + ([x] + b) == (a + [x]) + b
  {
  }

  lemma MergeRest(done: seq<Validator>, existing: seq<Validator>, updates: seq<Validator>)
    requires existing == [] || updates == []
    ensures done + existing + updates == done + C.Merge(existing, updates)
  {
    assert C.Merge(existing, updates) == existing + updates;
  }

  /** The merge loop: stops when one of the lists is used up. */
  method MergeInto(merged: array<Validator>, existing0: seq<Validator>, updates0: seq<Validator>)
    returns (i: nat, existing: seq<Validator>, updates: seq<Validator>)
    requires merged.Length == |existing0| + |updates0|
    modifies merged
    ensures existing == [] || updates == []
    ensures i + |existing| + |updates| <= merged.Length
    ensures merged[..i] + existing + updates == C.Merge(existing0, updates0)
  {
    i, existing, updates := 0, existing0, updates0;
    while existing != [] && updates != []
      invariant i + |existing| + |updates| <= merged.Length
      invariant merged[..i] + C.Merge(existing, updates) == C.Merge(existing0, updates0)
      decreases |existing| + |updates|
    {
      ghost var before, rest := merged[..i], C.Merge(existing, updates);
      if Before(existing[0].address, updates[0].address) {
        merged[i] := existing[0];
        existing := existing[1..];
      } else {
        merged[i] := updates[0];
        if existing[0].address == updates[0].address {
          existing := existing[1..];
        }
        updates := updates[1..];
      }
      i := i + 1;
      assert merged[..i] == before + [merged[i - 1]];
      assert rest == [merged[i - 1]] + C.Merge(existing, updates);
      Shift(before, merged[i - 1], C.Merge(existing, updates));
    }
    MergeRest(merged[..i], existing, updates);
  }

  /** While deletes remain there is a validator to look at, and room for one that
      stays. */
  lemma RemovalStep(existing: seq<Validator>, dels: seq<Validator>)
    requires C.Ascending(existing) && C.Ascending(dels) && Addresses(dels) <= Addresses(existing)
    requires dels != []
    ensures existing != [] && C.Ascending(existing[1..])
    ensures existing[0].address == dels[0].address ==>
              C.Ascending(dels[1..]) && Addresses(dels[1..]) <= Addresses(existing[1..])
    ensures existing[0].address != dels[0].address ==>
              Addresses(dels) <= Addresses(existing[1..]) && |dels| < |existing|
  {
    C.AddressIn(dels, 0);
    C.AddressesCons(existing);
    C.AddressesCons(dels);
    if existing[0].address == dels[0].address {
      C.NotInTail(dels);
    } else {
      BeforeTotal(existing[0].address, dels[0].address);
      if Before(dels[0].address, existing[0].address) {
        C.HeadNotIn(dels[0], existing);
      }
      C.HeadNotIn(existing[0], dels);
      C.AscendingIsUnique(dels);
      FewerThan(dels, existing[1..]);
    }
  }

  /** The removal loop: stops when the deletes are used up. */
  method RemoveInto(merged: array<Validator>, existing0: seq<Validator>, deletes0: seq<Validator>)
    returns (i: nat, existing: seq<Validator>)
    requires C.Ascending(existing0) && C.Ascending(deletes0) && Addresses(deletes0) <= Addresses(existing0)
    requires merged.Length == |existing0| - |deletes0|
    modifies merged
    ensures i + |existing| == merged.Length
    ensures merged[..i] + existing == C.Without(existing0, deletes0)
  {
    var deletes := deletes0;
    i, existing := 0, existing0;
    FewerThan(deletes, existing) by { C.AscendingIsUnique(deletes); }
    while deletes != []
      invariant C.Ascending(existing) && C.Ascending(deletes) && Addresses(deletes) <= Addresses(existing)
      invariant |deletes| <= |existing| && i + |existing| - |deletes| == merged.Length
      invariant merged[..i] + C.Without(existing, deletes) == C.Without(existing0, deletes0)
      decreases |existing|
    {
      RemovalStep(existing, deletes);
      ghost var before, rest := merged[..i], C.Without(existing, deletes);
      if existing[0].address == deletes[0].address {
        deletes := deletes[1..];
        existing := existing[1..];
      } else {
        merged[i] := existing[0];
        i := i + 1;
        existing := existing[1..];
        assert merged[..i] == before + [merged[i - 1]];
        assert rest == [merged[i - 1]] + C.Without(existing, deletes);
        Shift(before, merged[i - 1], C.Without(existing, deletes));
      }
    }
  }

  method CopyInto(target: array<Validator>, at: nat, src: seq<Validator>)
    requires at + |src| <= target.Length
    modifies target
    ensures target[..at + |src|] == old(target[..at]) + src
  {
    for j := 0 to |src|
      invariant target[..at + j] == old(target[..at]) + src[..j]
    {
      target[at + j] := src[j];
    }
  }

  datatype Checked = Checked(updates: seq<Validator>, deletes: seq<Validator>, total: int)

  lemma AllPositive(changes: seq<Validator>)
    requires C.Proper(changes) && C.Removals(changes) == []
    ensures forall c :: c in changes ==> c.power > 0
  {
    C.ProperSplit(changes);
    C.ChangeAddresses(changes);
  }

  lemma UniqueRemovals(changes: seq<Validator>)
    requires C.Proper(changes)
    ensures UniqueAddresses(C.Removals(changes))
  {
    C.ProperSplit(changes);
    C.AscendingIsUnique(C.Removals(changes));
  }

  lemma NotAllDeleted(vals: seq<Validator>, d: seq<Validator>)
    requires UniqueAddresses(vals) && UniqueAddresses(d)
    requires Addresses(d) <= Addresses(vals) && |vals| != |d|
    ensures exists v :: v in vals && v.address !in Addresses(d)
  {
    if forall v :: v in vals ==> v.address in Addresses(d) {
      assert Addresses(vals) == Addresses(d);
      DistinctCount(d);
      DistinctCount(vals);
    }
  }

  lemma DeletesKnown(vals: seq<Validator>, changes: seq<Validator>)
    requires C.Proper(changes) && Addresses(C.Removals(changes)) <= Addresses(vals)
    ensures C.RemovalsKnown(vals, changes)
  {
    C.SplitMembers(changes);
    forall c | c in changes && c.power == 0 ensures c.address in Addresses(vals) {
      assert c.address in Addresses(C.Removals(changes));
    }
  }

  /** Otherwise, with all deletes known, somebody stays or comes. */
  lemma SomethingStays(vals: seq<Validator>, changes: seq<Validator>)
    requires UniqueAddresses(vals) && C.Proper(changes)
    requires Newcomers(C.Updates(changes), vals) > 0 || |vals| != |C.Removals(changes)|
    requires Addresses(C.Removals(changes)) <= Addresses(vals)
    ensures C.RemovalsKnown(vals, changes)
    ensures (exists c :: c in changes && c.power > 0) || (exists v :: v in vals && v.address !in Addresses(changes))
  {
    var u, d := C.Updates(changes), C.Removals(changes);
    DeletesKnown(vals, changes);
    C.SplitMembers(changes);
    if u != [] {
      assert u[0] in u;
    } else {
      C.ChangeAddresses(changes);
      assert Addresses(u) == {};
      UniqueRemovals(changes);
      NotAllDeleted(vals, d);
    }
  }

  /** When the other checks pass, the total decides. */
  lemma ChecksPassed(vals: seq<Validator>, changes: seq<Validator>, allowDeletes: bool)
    requires UniqueAddresses(vals) && C.Proper(changes)
    requires allowDeletes || C.Removals(changes) == []
    requires Newcomers(C.Updates(changes), vals) > 0 || |vals| != |C.Removals(changes)|
    requires Addresses(C.Removals(changes)) <= Addresses(vals)
    ensures C.Acceptable(vals, changes, allowDeletes) <==> C.FinalTotal(vals, changes) <= MAX_TOTAL_VOTING_POWER
  {
    SomethingStays(vals, changes);
    if !allowDeletes {
      AllPositive(changes);
    }
  }

  lemma DeletesPresent(vals: seq<Validator>, changes: seq<Validator>)
    requires C.Proper(changes) && C.Removals(changes) != []
    ensures C.Justified(C.DeletesNotAllowed, vals, changes, false)
    ensures !C.Acceptable(vals, changes, false)
  {
    C.ProperSplit(changes);
    var d := C.Removals(changes)[0];
    assert d in C.Removals(changes);
    assert d in changes && d.power == 0;
  }

  /** The faults processChanges finds do not depend on the set. */
  lemma NotProper(e: C.Error, vals: seq<Validator>, changes: seq<Validator>, allowDeletes: bool)
    requires !C.Proper(changes) && C.Justified(e, [], changes, true)
    requires e.DuplicateEntry? || e.NegativePower? || e.PowerTooHigh?
    ensures C.Justified(e, vals, changes, allowDeletes)
    ensures !C.Acceptable(vals, changes, allowDeletes)
  {
  }

  lemma NoAddresses(u: seq<Validator>)
    requires Addresses(u) == {}
    ensures u == []
  {
    if u != [] {
      C.AddressIn(u, 0);
    }
  }

  lemma SameSizeSubset(a: set<Bytes>, b: set<Bytes>)
    requires a <= b && |a| == |b|
    ensures a == b
  {
    assert b == a + (b - a);
  }

  lemma NobodyStays(vals: seq<Validator>, changes: seq<Validator>)
    requires UniqueAddresses(vals) && C.Proper(changes) && C.RemovalsKnown(vals, changes)
    requires Newcomers(C.Updates(changes), vals) == 0 && |vals| == |C.Removals(changes)|
    ensures forall c :: c in changes ==> c.power == 0
    ensures forall v :: v in vals ==> v.address in Addresses(changes)
  {
    var u, d := C.Updates(changes), C.Removals(changes);
    NoNewcomers(u, vals);
    C.ChangeAddresses(changes);
    C.ProperSplit(changes);
    C.RemovalsPresent(vals, changes);
    UniqueRemovals(changes);
    DistinctCount(d);
    DistinctCount(vals);
    SameSizeSubset(Addresses(d), Addresses(vals));
    NoAddresses(u);
    forall v | v in vals ensures v.address in Addresses(changes) {
      assert v.address in Addresses(vals);
    }
  }

  /** No newcomers and as many deletes as validators: either nothing stays or some
      delete is unknown. */
  lemma EverythingGoes(vals: seq<Validator>, changes: seq<Validator>, allowDeletes: bool)
    requires UniqueAddresses(vals) && C.Proper(changes)
    requires Newcomers(C.Updates(changes), vals) == 0 && |vals| == |C.Removals(changes)|
    ensures C.Justified(C.EmptyResult, vals, changes, allowDeletes)
    ensures !C.Acceptable(vals, changes, allowDeletes)
  {
    if C.RemovalsKnown(vals, changes) {
      NobodyStays(vals, changes);
    }
  }

  lemma UnknownRemoval(vals: seq<Validator>, changes: seq<Validator>, allowDeletes: bool)
    requires C.Proper(changes) && !(Addresses(C.Removals(changes)) <= Addresses(vals))
    ensures C.Justified(C.UnknownValidator, vals, changes, allowDeletes)
    ensures !C.Acceptable(vals, changes, allowDeletes)
  {
    C.ProperSplit(changes);
    var a :| a in Addresses(C.Removals(changes)) && a !in Addresses(vals);
    var d :| d in C.Removals(changes) && d.address == a;
    assert d in changes;
  }

  /** The checks before anything is changed: accepts exactly the acceptable
      batches. */
  method CheckChanges(vals: seq<Validator>, changes: seq<Validator>, allowDeletes: bool)
    returns (r: Result<Checked, C.Error>)
    requires R.WellFormed(vals)
    ensures r.Ok? <==> C.Acceptable(vals, changes, allowDeletes)
    ensures r.Ok? ==> r.value == Checked(C.Updates(changes), C.Removals(changes), C.TotalBeforeRemovals(vals, changes))
    ensures r.Err? ==> C.Justified(r.error, vals, changes, allowDeletes)
  {
    var split := ProcessChanges(changes);
    if split.Err? {
      NotProper(split.error, vals, changes, allowDeletes);
      return Err(split.error);
    }
    var updates, deletes := split.value.updates, split.value.removals;
    if !allowDeletes && deletes != [] {
      DeletesPresent(vals, changes);
      return Err(C.DeletesNotAllowed);
    }
    var newcomers := NumNewValidators(updates, vals);
    if newcomers == 0 && |vals| == |deletes| {
      EverythingGoes(vals, changes, allowDeletes);
      return Err(C.EmptyResult);
    }
    UniqueRemovals(changes);
    var removed := VerifyRemovals(deletes, vals);
    if removed.Err? {
      UnknownRemoval(vals, changes, allowDeletes);
      return Err(removed.error);
    }
    ChecksPassed(vals, changes, allowDeletes);
    var total := VerifyUpdates(updates, vals, removed.value, changes);
    if total.Err? {
      return Err(total.error);
    }
    return Ok(Checked(updates, deletes, total.value));
  }

  /** The updates with the priorities they enter the set with. */
  method ComputeNewPriorities(updates: seq<Validator>, vals: seq<Validator>, total: int) returns (r: seq<Validator>)
    ensures r == C.WithPriorities(updates, vals, total)
  {
    r := updates;
    for i := 0 to |updates|
      invariant |r| == |updates|
      invariant forall j :: 0 <= j < i ==> r[j] == C.WithPriority(updates[j], vals, total)
      invariant forall j :: i <= j < |updates| ==> r[j] == updates[j]
    {
      var index, val := GetByAddress(vals, r[i].address);
      var priority := if val.Some? then val.value.priority else Int64.Wrap(-Int64.Wrap(total + total / 8));
      r := r[i := r[i].(priority := priority)];
    }
  }

  lemma RaisedFacts(vals: seq<Validator>)
    requires vals != [] && R.WellFormed(vals)
    ensures R.Raised(vals) != [] && UniqueAddresses(R.Raised(vals)) && R.PositivePowers(R.Raised(vals))
    ensures TotalPower(R.Raised(vals)) == TotalPower(vals)
  {
    assert R.SameIds(vals, R.Raised(vals));
    R.SameIdsPowers(vals, R.Raised(vals));
  }

  lemma RunSnoc(trace: seq<seq<Validator>>, winners: seq<int>, m: int, next: seq<Validator>)
    requires R.CentredRun(trace, winners) && R.Follows(trace[|winners|], m, next)
    ensures R.CentredRun(trace + [next], winners + [m])
  {
  }

  /** Few enough validators, or little enough power, for any number of rounds in
      one call: (1 + H(n)) * T within three times the maximum total. */
  ghost predicate BoundedRun(vals: seq<Validator>) {
    M.Cap(TotalPower(vals), |vals|) <= R.HIGHEST_PRIORITY as real
  }

  /** A bounded run has harmonic room. */
  lemma BoundedRunHasRoom(vals: seq<Validator>, first: seq<Validator>)
    requires R.WellFormed(vals) && BoundedRun(vals) && R.SameIds(vals, first)
    ensures R.HarmonicRoom(first)
  {
    R.SameIdsPowers(vals, first);
  }

  /** One round, or a bounded run, ends within the bounds. */
  lemma RunIsBounded(vals: seq<Validator>, trace: seq<seq<Validator>>, winners: seq<int>)
    requires R.Preparable(vals) && !R.RescalePanics(vals, R.Window(vals))
    requires R.CentredRun(trace, winners) && trace[0] == R.Prepared(vals) && winners != []
    requires |winners| == 1 || BoundedRun(vals)
    ensures R.Bounded(trace[|winners|])
    ensures |winners| == 1 ==> R.Within(trace[1], -2 * TotalPower(vals), 3 * TotalPower(vals))
  {
    R.PrepareCentres(vals);
    var first, k := trace[0], |winners|;
    R.RunKeepsIds(trace, winners, k);
    R.SameIdsPowers(first, trace[k]);
    if k == 1 {
      assert R.Follows(trace[0], winners[0], trace[1]);
      R.OneRound(first);
    }
    if k > 1 || BoundedRun(vals) {
      BoundedRunHasRoom(vals, first);
      forall i | 0 <= i < |trace[k]|
        ensures -2 * TotalPower(vals) <= trace[k][i].priority <= R.HIGHEST_PRIORITY
        ensures Sum(Priorities(trace[k])) == Sum(Priorities(first))
      {
        R.RunPriorities(trace, winners, k, i);
      }
      assert Sum(Priorities(trace[k])) == Sum(Priorities(first)) by {
        R.RunPriorities(trace, winners, k, 0);
      }
    }
  }

  /** What IncrementProposerPriority leaves. */
  lemma RunEnds(before: seq<Validator>, trace: seq<seq<Validator>>, winners: seq<int>, after: seq<Validator>)
    requires R.Preparable(before) && !R.RescalePanics(before, R.Window(before)) && Ordered(C.PowerLe, before)
    requires R.CentredRun(trace, winners) && trace[0] == R.Prepared(before) && winners != []
    requires after == trace[|winners|] && R.SameIds(R.Prepared(before), after)
    ensures R.SameIds(before, after) && Ordered(C.PowerLe, after)
    ensures |winners| == 1 || BoundedRun(before) ==> R.Bounded(after)
  {
    R.PrepareCentres(before);
    OrderedSameIds(before, after);
    if |winners| == 1 || BoundedRun(before) {
      RunIsBounded(before, trace, winners);
    }
  }

  class ValidatorSet {
    var validators: seq<Validator>
    var proposer: Option<Validator>
    var totalVotingPower: int

    /** What every public operation keeps. A cached total of 0 means unknown. */
    ghost predicate Valid()
      reads this
    {
      && R.WellFormed(validators)
      && R.Bounded(validators)
      && Ordered(C.PowerLe, validators)
      && (totalVotingPower == 0 || totalVotingPower == TotalPower(validators))
    }

    constructor Empty()
      ensures Valid() && validators == [] && proposer == None && totalVotingPower == 0
    {
      validators, proposer, totalVotingPower := [], None, 0;
    }

    /** Forces recalculation. The panic above the maximum cannot happen for a list
        whose total is within it. */
    method UpdateTotalVotingPower()
      requires R.PositivePowers(validators) && TotalPower(validators) <= MAX_TOTAL_VOTING_POWER
      modifies this`totalVotingPower
      ensures totalVotingPower == TotalPower(validators)
    {
      var sum := 0;
      for i := 0 to |validators|
        invariant sum == TotalPower(validators[..i])
      {
        assert validators[..i + 1][..i] == validators[..i];
        TotalPowerSnoc(validators[..i + 1]);
        PrefixTotal(validators, i);
        PrefixTotal(validators, i + 1);
        sum := Int64.SafeAddClip(sum, validators[i].power);
        assert sum <= MAX_TOTAL_VOTING_POWER;
      }
      assert validators[..|validators|] == validators;
      totalVotingPower := sum;
    }

    method TotalVotingPower() returns (total: int)
      requires R.PositivePowers(validators) && TotalPower(validators) <= MAX_TOTAL_VOTING_POWER
      requires totalVotingPower == 0 || totalVotingPower == TotalPower(validators)
      modifies this`totalVotingPower
      ensures total == totalVotingPower == TotalPower(validators)
    {
      if totalVotingPower == 0 {
        UpdateTotalVotingPower();
      }
      total := totalVotingPower;
    }

    method ScalePriorities(ratio: int)
      requires ratio != 0
      modifies this`validators
      ensures validators == R.ScaledBy(old(validators), ratio)
    {
      for i := 0 to |validators|
        invariant |validators| == |old(validators)|
        invariant forall j :: 0 <= j < i ==> validators[j] == R.ScaleOne(old(validators)[j], ratio)
        invariant forall j :: i <= j < |validators| ==> validators[j] == old(validators)[j]
      {
        validators := validators[i := R.ScaleOne(validators[i], ratio)];
      }
    }

    /** Divides every priority by the rounded-up ratio when the spread exceeds
        diffMax. */
    method RescalePriorities(diffMax: int)
      requires validators != [] && R.PrioritiesInRange(validators)
      requires !R.RescalePanics(validators, diffMax)
      modifies this`validators
      ensures validators == R.Rescaled(old(validators), diffMax)
    {
      if diffMax <= 0 {
        return;
      }
      var diff := ComputeMaxMinPriorityDiff(validators);
      var ratio := R.ScaleRatio(diff, diffMax);
      if diff > diffMax {
        ScalePriorities(ratio);
      }
    }

    method ShiftByAvgProposerPriority()
      requires validators != [] && R.PrioritiesInRange(validators)
      modifies this`validators
      ensures validators == R.Shifted(old(validators))
    {
      var avg := ComputeAvgProposerPriority(validators);
      for i := 0 to |validators|
        invariant |validators| == |old(validators)|
        invariant forall j :: 0 <= j < i ==> validators[j] == R.ShiftOne(old(validators)[j], avg)
        invariant forall j :: i <= j < |validators| ==> validators[j] == old(validators)[j]
      {
        validators := validators[i := R.ShiftOne(validators[i], avg)];
      }
    }

    method RaisePriorities()
      modifies this`validators
      ensures validators == R.Raised(old(validators))
    {
      for i := 0 to |validators|
        invariant |validators| == |old(validators)|
        invariant forall j :: 0 <= j < i ==> validators[j] == R.RaiseOne(old(validators)[j])
        invariant forall j :: i <= j < |validators| ==> validators[j] == old(validators)[j]
      {
        validators := validators[i := R.RaiseOne(validators[i])];
      }
    }

    /** One round; returns the position of the elected validator. */
    method IncrementOnce() returns (m: int)
      requires validators != [] && R.WellFormed(validators)
      requires totalVotingPower == 0 || totalVotingPower == TotalPower(validators)
      modifies this`validators, this`totalVotingPower
      ensures R.Follows(old(validators), m, validators)
      ensures totalVotingPower == TotalPower(old(validators))
    {
      RaisedFacts(validators);
      RaisePriorities();
      m := GetValWithMostPriority(validators);
      var total := TotalVotingPower();
      validators := validators[m := validators[m].(priority :=
        Int64.SafeSubClip(validators[m].priority, total))];
    }

    /** Rescales to a window of twice the total power and centres. */
    method PreparePriorities()
      requires R.Preparable(validators)
      requires totalVotingPower == 0 || totalVotingPower == TotalPower(validators)
      modifies this`validators, this`totalVotingPower
      ensures !R.RescalePanics(old(validators), R.Window(old(validators)))
      ensures validators == R.Prepared(old(validators))
      ensures totalVotingPower == TotalPower(old(validators))
    {
      R.RescaleFits(validators);
      var total := TotalVotingPower();
      var diffMax := Int64.Wrap(PRIORITY_WINDOW_SIZE_FACTOR * total);
      RescalePriorities(diffMax);
      ShiftByAvgProposerPriority();
    }

    /** `times` rounds from a well-formed, centred list. */
    method IncrementRounds(times: int) returns (ghost trace: seq<seq<Validator>>, ghost winners: seq<int>, last: int)
      requires times > 0 && R.CentredRun([validators], [])
      requires totalVotingPower == TotalPower(validators)
      modifies this`validators, this`totalVotingPower
      ensures |winners| == times && R.CentredRun(trace, winners)
      ensures trace[0] == old(validators) && trace[times] == validators
      ensures R.SameIds(old(validators), validators) && R.WellFormed(validators)
      ensures 0 <= last < |validators| && last == winners[times - 1]
      ensures totalVotingPower == TotalPower(validators)
    {
      trace, winners, last := [validators], [], 0;
      for i := 0 to times
        invariant |winners| == i && R.CentredRun(trace, winners)
        invariant trace[0] == old(validators) && trace[i] == validators
        invariant 0 <= last < |validators| && (i > 0 ==> last == winners[i - 1])
        invariant totalVotingPower == TotalPower(validators)
      {
        R.RunKeepsIds(trace, winners, i);
        last := IncrementOnce();
        R.IncrementedIds(trace[i]);
        R.SameIdsPowers(trace[i], validators);
        RunSnoc(trace, winners, last, validators);
        trace, winners := trace + [validators], winners + [last];
      }
      R.RunKeepsIds(trace, winners, times);
    }

    /** Rescales, centres and runs `times` rounds. The run is returned for the
        lemmas of Rotation; with one round, or with a bounded run, every priority
        stays within the bounds. */
    method IncrementProposerPriority(times: int)
      returns (ghost trace: seq<seq<Validator>>, ghost winners: seq<int>)
      requires Valid() && validators != [] && times > 0
      modifies this
      ensures !R.RescalePanics(old(validators), R.Window(old(validators)))
      ensures |winners| == times && R.CentredRun(trace, winners)
      ensures trace[0] == R.Prepared(old(validators)) && trace[times] == validators
      ensures 0 <= winners[times - 1] < |validators| && proposer == Some(validators[winners[times - 1]])
      ensures R.SameIds(old(validators), validators) && Ordered(C.PowerLe, validators)
      ensures times == 1 || BoundedRun(old(validators)) ==> Valid()
    {
      ghost var before := validators;
      R.BoundedIsPreparable(before);
      R.PrepareCentres(before);
      PreparePriorities();
      var last;
      trace, winners, last := IncrementRounds(times);
      proposer := Some(validators[last]);
      RunEnds(before, trace, winners, validators);
    }

    /** Merges the updates, sorted by address, into the validators. */
    method ApplyUpdates(updates: seq<Validator>)
      modifies this`validators
      ensures validators == C.Merge(C.Sorted(old(validators)), updates)
    {
      var existing := C.Sorted(validators);
      var merged := new Validator[|existing| + |updates|];
      var i, restExisting, restUpdates := MergeInto(merged, existing, updates);
      CopyInto(merged, i, restExisting);
      i := i + |restExisting|;
      CopyInto(merged, i, restUpdates);
      validators := merged[..i + |restUpdates|];
    }

    /** Drops the deletes, sorted by address and all present, from the sorted
        validators. */
    method ApplyRemovals(deletes: seq<Validator>)
      requires C.Ascending(validators) && C.Ascending(deletes)
      requires Addresses(deletes) <= Addresses(validators)
      modifies this`validators
      ensures validators == C.Without(old(validators), deletes)
    {
      C.WithoutKeeps(validators, deletes);
      var merged := new Validator[|validators| - |deletes|];
      var i, existing := RemoveInto(merged, validators, deletes);
      CopyInto(merged, i, existing);
      validators := merged[..i + |existing|];
    }

    /** Applies a batch of changes, or reports the fault and leaves the validators
        as they were. */
    method UpdateWithChanges(changes: seq<Validator>, allowDeletes: bool) returns (err: Option<C.Error>)
      requires Valid()
      modifies this
      ensures Valid() && proposer == old(proposer)
      ensures changes == [] ==> err == None && validators == old(validators)
      ensures changes != [] ==> (err == None <==> C.Acceptable(old(validators), changes, allowDeletes))
      ensures changes != [] && err == None ==> C.UpdatesTo(old(validators), changes, validators)
      ensures changes != [] && err == None ==> totalVotingPower == TotalPower(validators)
      ensures err.Some? ==> validators == old(validators)
      ensures err.Some? ==> C.Justified(err.value, old(validators), changes, allowDeletes)
    {
      if changes == [] {
        return None;
      }
      var r := CheckChanges(validators, changes, allowDeletes);
      if r.Err? {
        return Some(r.error);
      }
      ghost var before := validators;
      C.MergedPreparable(before, changes, allowDeletes);
      MergeAndPrepare(changes, r.value.updates, r.value.deletes, r.value.total);
      C.UpdateResult(before, changes, allowDeletes, validators);
      err := None;
    }

    method MergeAndPrepare(ghost changes: seq<Validator>, updates: seq<Validator>, deletes: seq<Validator>, total: int)
      requires C.Proper(changes) && C.RemovalsKnown(validators, changes) && UniqueAddresses(validators)
      requires updates == C.Updates(changes) && deletes == C.Removals(changes)
      requires total == C.TotalBeforeRemovals(validators, changes)
      requires R.Preparable(C.Merged(validators, changes))
      modifies this`validators, this`totalVotingPower
      ensures C.UpdatesTo(old(validators), changes, validators)
      ensures totalVotingPower == TotalPower(C.Merged(old(validators), changes))
    {
      ghost var vals := validators;
      var entering := ComputeNewPriorities(updates, validators, total);
      C.EnteringFacts(vals, changes);
      C.MergeStage(vals, entering);
      C.RemovalsPresent(vals, changes);
      C.ProperSplit(changes);
      ApplyUpdates(entering);
      ApplyRemovals(deletes);
      UpdateTotalVotingPower();
      PreparePriorities();
      C.PowerOrder();
      validators := Sort(C.PowerLe, validators);
    }
  }

  /** NewValidatorSet; None where the source panics. */
  method NewValidatorSet(valz: seq<Validator>) returns (r: Option<ValidatorSet>)
    ensures r.Some? <==> valz == [] || C.Acceptable([], valz, false)
    ensures r.Some? ==> fresh(r.value) && r.value.Valid()
    ensures r.Some? && valz != [] ==>
              && r.value.proposer.Some?
              && Ids(r.value.validators) == C.Overlay([], valz)
  {
    var vals := new ValidatorSet.Empty();
    var err := vals.UpdateWithChanges(valz, false);
    if err.Some? {
      return None;
    }
    if valz != [] {
      ghost var updated := vals.validators;
      C.UpdateResult([], valz, false, updated);
      ghost var trace, winners := vals.IncrementProposerPriority(1);
      R.SameIdsPowers(updated, vals.validators);
    }
    return Some(vals);
  }
}
