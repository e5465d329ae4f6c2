/** Applying a batch of validator changes to a list of validators, as values
    (types/validator_set.go, the functions around updateWithChangeSet). */
module ChangeSet {
  import opened Common
  import opened Validators
  import opened Sorting
  import Int64
  import R = Rotation

  datatype Error =
    | DuplicateEntry
    | NegativePower
    | PowerTooHigh
    | DeletesNotAllowed
    | EmptyResult
    | UnknownValidator
    | TotalPowerOverflow

  // ----- the two orders

  /** ValidatorsByAddress: not strictly after. */
  predicate AddressLe(a: Validator, b: Validator) {
    !Before(b.address, a.address)
  }

  predicate PowerLess(a: Validator, b: Validator) {
    if a.power == b.power then Before(a.address, b.address) else a.power > b.power
  }

  /** ValidatorsByVotingPower: higher power first, then by address. */
  predicate PowerLe(a: Validator, b: Validator) {
    !PowerLess(b, a)
  }

  lemma NotBeforeTransitive(a: Bytes, b: Bytes, c: Bytes)
    requires !Before(a, b) && !Before(b, c)
    ensures !Before(a, c)
  {
    BeforeTotal(a, b);
    BeforeTotal(b, c);
    BeforeTotal(a, c);
    if a != b && b != c {
      BeforeTransitive(c, b, a);
    }
  }

  lemma AddressOrder()
    ensures TotalPreorder(AddressLe)
  {
    forall a: Validator, b: Validator ensures AddressLe(a, b) || AddressLe(b, a) {
      BeforeTotal(a.address, b.address);
    }
    forall a: Validator, b: Validator, c: Validator | AddressLe(a, b) && AddressLe(b, c)
      ensures AddressLe(a, c)
    {
      NotBeforeTransitive(c.address, b.address, a.address);
    }
  }

  lemma PowerOrder()
    ensures TotalPreorder(PowerLe)
  {
    forall a: Validator, b: Validator ensures PowerLe(a, b) || PowerLe(b, a) {
      BeforeTotal(a.address, b.address);
    }
    forall a: Validator, b: Validator, c: Validator | PowerLe(a, b) && PowerLe(b, c)
      ensures PowerLe(a, c)
    {
      if a.power == b.power == c.power {
        NotBeforeTransitive(c.address, b.address, a.address);
      }
    }
  }

  /** Strictly ascending by address. */
  predicate Ascending(vals: seq<Validator>) {
    forall i, j :: 0 <= i < j < |vals| ==> Before(vals[i].address, vals[j].address)
  }

  lemma AscendingIsUnique(vals: seq<Validator>)
    requires Ascending(vals)
    ensures UniqueAddresses(vals)
  {
  }

  /** Distinct addresses sort strictly. */
  lemma SortedAscending(s: seq<Validator>)
    requires Ordered(AddressLe, s) && UniqueAddresses(s)
    ensures Ascending(s)
  {
    forall i, j | 0 <= i < j < |s| ensures Before(s[i].address, s[j].address) {
      assert AddressLe(s[i], s[j]);
      BeforeTotal(s[i].address, s[j].address);
    }
  }

  lemma TwiceInMultiset(t: seq<Validator>, i: int, j: int)
    requires 0 <= i < j < |t| && t[i] == t[j]
    ensures multiset(t)[t[i]] >= 2
  {
    assert t == t[..j] + [t[j]] + t[j + 1..];
    assert t[i] in t[..j];
    assert multiset(t) == multiset(t[..j]) + multiset{t[j]} + multiset(t[j + 1..]);
  }

  lemma OnceInMultiset(s: seq<Validator>, a: int)
    requires 0 <= a < |s| && UniqueAddresses(s)
    ensures multiset(s)[s[a]] == 1
  {
    assert s == s[..a] + [s[a]] + s[a + 1..];
    assert multiset(s) == multiset(s[..a]) + multiset{s[a]} + multiset(s[a + 1..]);
    assert s[a] !in s[..a] && s[a] !in s[a + 1..];
  }

  /** Rearranging keeps addresses distinct. */
  lemma UniqueRearranged(s: seq<Validator>, t: seq<Validator>)
    requires multiset(s) == multiset(t) && UniqueAddresses(s)
    ensures UniqueAddresses(t)
  {
    forall i, j | 0 <= i < j < |t| ensures t[i].address != t[j].address {
      if t[i].address == t[j].address {
        SameElements(s, t);
        assert t[i] in s && t[j] in s;
        var a :| 0 <= a < |s| && s[a] == t[i];
        var b :| 0 <= b < |s| && s[b] == t[j];
        assert a == b;
        TwiceInMultiset(t, i, j);
        OnceInMultiset(s, a);
      }
    }
  }

  // ----- splitting the changes

  /** What processChanges accepts. The scan remembers the previous address,
      starting from none, so an empty address counts as a repetition. */
  predicate Proper(changes: seq<Validator>) {
    && UniqueAddresses(changes)
    && (forall i :: 0 <= i < |changes| ==> changes[i].address != [])
    && (forall i :: 0 <= i < |changes| ==> 0 <= changes[i].power <= MAX_TOTAL_VOTING_POWER)
  }

  function Sorted(changes: seq<Validator>): (r: seq<Validator>)
    ensures Ordered(AddressLe, r) && multiset(r) == multiset(changes)
  {
    AddressOrder();
    Sort(AddressLe, changes)
  }

  function Positive(vals: seq<Validator>): seq<Validator> {
    if vals == [] then []
    else Positive(vals[..|vals| - 1]) + (if vals[|vals| - 1].power > 0 then [vals[|vals| - 1]] else [])
  }

  function Zero(vals: seq<Validator>): seq<Validator> {
    if vals == [] then []
    else Zero(vals[..|vals| - 1]) + (if vals[|vals| - 1].power == 0 then [vals[|vals| - 1]] else [])
  }

  function Updates(changes: seq<Validator>): seq<Validator> {
    Positive(Sorted(changes))
  }

  function Removals(changes: seq<Validator>): seq<Validator> {
    Zero(Sorted(changes))
  }

  lemma {:induction false} SplitFacts(vals: seq<Validator>)
    requires forall i :: 0 <= i < |vals| ==> vals[i].power >= 0
    ensures multiset(Positive(vals)) + multiset(Zero(vals)) == multiset(vals)
    ensures forall v :: v in Positive(vals) ==> v.power > 0
    ensures forall v :: v in Zero(vals) ==> v.power == 0
  {
    if vals != [] {
      var n := |vals| - 1;
      assert vals == vals[..n] + [vals[n]];
      SplitFacts(vals[..n]);
    }
  }

  lemma AppendAscending(vals: seq<Validator>, part: seq<Validator>)
    requires vals != [] && Ascending(vals) && Ascending(part)
    requires forall v :: v in part ==> v in vals[..|vals| - 1]
    ensures Ascending(part + [vals[|vals| - 1]])
  {
    var n := |vals| - 1;
    forall i | 0 <= i < |part| ensures Before(part[i].address, vals[n].address) {
      assert part[i] in part;
      var k :| 0 <= k < n && vals[k] == part[i];
    }
  }

  lemma {:induction false} SplitAscending(vals: seq<Validator>)
    requires Ascending(vals)
    ensures Ascending(Positive(vals)) && Ascending(Zero(vals))
    ensures forall v :: v in Positive(vals) ==> v in vals
    ensures forall v :: v in Zero(vals) ==> v in vals
  {
    if vals != [] {
      var n := |vals| - 1;
      assert vals == vals[..n] + [vals[n]];
      SplitAscending(vals[..n]);
      AppendAscending(vals, Positive(vals[..n]));
      AppendAscending(vals, Zero(vals[..n]));
    }
  }

  /** Proper changes split into updates and removals, each ascending. */
  lemma ProperSplit(changes: seq<Validator>)
    requires Proper(changes)
    ensures Ascending(Sorted(changes))
    ensures Ascending(Updates(changes)) && Ascending(Removals(changes))
    ensures multiset(Updates(changes)) + multiset(Removals(changes)) == multiset(changes)
    ensures forall v :: v in Updates(changes) ==> 0 < v.power <= MAX_TOTAL_VOTING_POWER && v in changes
    ensures forall v :: v in Removals(changes) ==> v.power == 0 && v in changes
  {
    var sorted := Sorted(changes);
    UniqueRearranged(changes, sorted);
    SortedAscending(sorted);
    SplitAscending(sorted);
    SameElements(changes, sorted);
    forall i | 0 <= i < |sorted| ensures 0 <= sorted[i].power <= MAX_TOTAL_VOTING_POWER {
      assert sorted[i] in changes;
    }
    SplitFacts(sorted);
  }

  // ----- keeping the validators nobody changes

  /** The validators whose address is not in `gone`. */
  function Keep(vals: seq<Validator>, gone: set<Bytes>): seq<Validator> {
    if vals == [] then []
    else (if vals[0].address in gone then [] else [vals[0]]) + Keep(vals[1..], gone)
  }

  lemma {:induction false} KeepElements(vals: seq<Validator>, gone: set<Bytes>)
    ensures forall v :: v in Keep(vals, gone) <==> v in vals && v.address !in gone
    ensures |Keep(vals, gone)| <= |vals|
  {
    if vals != [] {
      KeepElements(vals[1..], gone);
      assert vals == [vals[0]] + vals[1..];
      assert forall v :: v in vals <==> v == vals[0] || v in vals[1..];
    }
  }

  lemma {:induction false} KeepIrrelevant(vals: seq<Validator>, s: set<Bytes>, t: set<Bytes>)
    requires forall i :: 0 <= i < |vals| ==> (vals[i].address in s <==> vals[i].address in t)
    ensures Keep(vals, s) == Keep(vals, t)
  {
    if vals != [] {
      KeepIrrelevant(vals[1..], s, t);
    }
  }

  lemma {:induction false} KeepMultiset(vals: seq<Validator>, gone: set<Bytes>)
    ensures forall v :: multiset(Keep(vals, gone))[v] == (if v.address in gone then 0 else multiset(vals)[v])
  {
    if vals != [] {
      KeepMultiset(vals[1..], gone);
      assert vals == [vals[0]] + vals[1..];
    }
  }

  lemma AddressIn(vals: seq<Validator>, i: int)
    requires 0 <= i < |vals|
    ensures vals[i].address in Addresses(vals)
  {
  }

  lemma AddressesCons(vals: seq<Validator>)
    requires vals != []
    ensures Addresses(vals) == {vals[0].address} + Addresses(vals[1..])
  {
  }

  // ----- merging and removing

  /** applyUpdates' loop over the two sorted lists. */
  function Merge(existing: seq<Validator>, updates: seq<Validator>): seq<Validator>
    decreases |existing| + |updates|
  {
    if existing == [] then updates
    else if updates == [] then existing
    else if Before(existing[0].address, updates[0].address) then
      [existing[0]] + Merge(existing[1..], updates)
    else if existing[0].address == updates[0].address then
      [updates[0]] + Merge(existing[1..], updates[1..])
    else
      [updates[0]] + Merge(existing, updates[1..])
  }

  lemma KeepHead(existing: seq<Validator>, gone: set<Bytes>, merged: seq<Validator>, updates: seq<Validator>)
    requires existing != [] && existing[0].address !in gone
    requires multiset(merged) == multiset(Keep(existing[1..], gone)) + multiset(updates)
    ensures multiset([existing[0]] + merged) == multiset(Keep(existing, gone)) + multiset(updates)
  {
  }

  lemma TakeUpdate(updates: seq<Validator>, merged: seq<Validator>, kept: seq<Validator>)
    requires updates != []
    requires multiset(merged) == multiset(kept) + multiset(updates[1..])
    ensures multiset([updates[0]] + merged) == multiset(kept) + multiset(updates)
  {
    assert updates == [updates[0]] + updates[1..];
  }

  lemma {:induction false} KeepNothing(vals: seq<Validator>)
    ensures Keep(vals, {}) == vals
  {
    if vals != [] {
      KeepNothing(vals[1..]);
    }
  }

  /** An address before the first is before all, so not among them. */
  lemma HeadNotIn(v: Validator, vals: seq<Validator>)
    requires vals != [] && Ascending(vals) && Before(v.address, vals[0].address)
    ensures v.address !in Addresses(vals)
  {
    forall w | w in vals ensures w.address != v.address {
      var i :| 0 <= i < |vals| && vals[i] == w;
      if i > 0 {
        BeforeTransitive(v.address, vals[0].address, w.address);
      }
      BeforeTotal(v.address, w.address);
    }
  }

  lemma AvoidsAll(vals: seq<Validator>, a: Bytes)
    requires a !in Addresses(vals)
    ensures forall i :: 0 <= i < |vals| ==> vals[i].address != a
  {
  }

  lemma TailAvoids(vals: seq<Validator>)
    requires vals != [] && Ascending(vals)
    ensures forall i :: 0 <= i < |vals[1..]| ==> vals[1..][i].address != vals[0].address
  {
  }

  /** The merged list holds the updates and the existing validators they do not
      replace. */
  lemma {:induction false} MergeMultiset(existing: seq<Validator>, updates: seq<Validator>)
    requires Ascending(existing) && Ascending(updates)
    ensures multiset(Merge(existing, updates))
            == multiset(Keep(existing, Addresses(updates))) + multiset(updates)
    decreases |existing| + |updates|
  {
    if existing == [] {
    } else if updates == [] {
      KeepNothing(existing);
      assert Addresses(updates) == {};
    } else {
      var e, u := existing[0], updates[0];
      BeforeTotal(e.address, u.address);
      if Before(e.address, u.address) {
        HeadNotIn(e, updates);
        MergeMultiset(existing[1..], updates);
        KeepHead(existing, Addresses(updates), Merge(existing[1..], updates), updates);
      } else if e.address == u.address {
        AddressesCons(updates);
        TailAvoids(existing);
        KeepIrrelevant(existing[1..], Addresses(updates), Addresses(updates[1..]));
        MergeMultiset(existing[1..], updates[1..]);
        assert Keep(existing, Addresses(updates)) == Keep(existing[1..], Addresses(updates));
        TakeUpdate(updates, Merge(existing[1..], updates[1..]), Keep(existing, Addresses(updates)));
      } else {
        AddressesCons(updates);
        HeadNotIn(u, existing);
        AvoidsAll(existing, u.address);
        KeepIrrelevant(existing, Addresses(updates), Addresses(updates[1..]));
        MergeMultiset(existing, updates[1..]);
        TakeUpdate(updates, Merge(existing, updates[1..]), Keep(existing, Addresses(updates)));
      }
    }
  }

  lemma HeadOrTail(t: seq<Validator>, v: Validator)
    requires v in t
    ensures v == t[0] || v in t[1..]
  {
  }

  /** The first of one list, if no later than the first of the other, is before
      everything else. */
  lemma FromTails(s: seq<Validator>, t: seq<Validator>, head: Validator, v: Validator)
    requires s != [] && t != [] && Ascending(s) && Ascending(t)
    requires head.address == s[0].address
    requires head.address == t[0].address || Before(head.address, t[0].address)
    requires v in s[1..] || v in t[1..] || (v in t && Before(head.address, t[0].address))
    ensures Before(head.address, v.address)
  {
    if v in s[1..] {
      var i :| 0 <= i < |s[1..]| && s[1..][i] == v;
      assert v == s[i + 1];
    } else if v in t[1..] {
      var i :| 0 <= i < |t[1..]| && t[1..][i] == v;
      assert v == t[i + 1];
      if Before(head.address, t[0].address) {
        BeforeTransitive(head.address, t[0].address, v.address);
      }
    } else {
      HeadOrTail(t, v);
    }
  }

  lemma ConsAscending(v: Validator, rest: seq<Validator>)
    requires Ascending(rest)
    requires forall w :: w in rest ==> Before(v.address, w.address)
    ensures Ascending([v] + rest)
  {
  }

  /** Merging keeps the order by address. */
  lemma {:induction false} MergeAscending(existing: seq<Validator>, updates: seq<Validator>)
    requires Ascending(existing) && Ascending(updates)
    ensures Ascending(Merge(existing, updates))
    ensures forall v :: v in Merge(existing, updates) ==> v in existing || v in updates
    decreases |existing| + |updates|
  {
    if existing != [] && updates != [] {
      var e, u := existing[0], updates[0];
      BeforeTotal(e.address, u.address);
      if Before(e.address, u.address) {
        MergeAscending(existing[1..], updates);
        forall v | v in Merge(existing[1..], updates) ensures Before(e.address, v.address) {
          FromTails(existing, updates, e, v);
        }
        ConsAscending(e, Merge(existing[1..], updates));
      } else if e.address == u.address {
        MergeAscending(existing[1..], updates[1..]);
        forall v | v in Merge(existing[1..], updates[1..]) ensures Before(u.address, v.address) {
          FromTails(existing, updates, u, v);
        }
        ConsAscending(u, Merge(existing[1..], updates[1..]));
      } else {
        MergeAscending(existing, updates[1..]);
        forall v | v in Merge(existing, updates[1..]) ensures Before(u.address, v.address) {
          FromTails(updates, existing, u, v);
        }
        ConsAscending(u, Merge(existing, updates[1..]));
      }
    }
  }

  /** applyRemovals' loop; running out of validators would be an index panic. */
  function Without(existing: seq<Validator>, deletes: seq<Validator>): seq<Validator> {
    if deletes == [] || existing == [] then existing
    else if existing[0].address == deletes[0].address then Without(existing[1..], deletes[1..])
    else [existing[0]] + Without(existing[1..], deletes)
  }

  lemma NotInTail(vals: seq<Validator>)
    requires vals != [] && Ascending(vals)
    ensures vals[0].address !in Addresses(vals[1..])
  {
  }

  /** Removing present, sorted addresses is keeping the rest. */
  lemma {:induction false} WithoutKeeps(existing: seq<Validator>, deletes: seq<Validator>)
    requires Ascending(existing) && Ascending(deletes)
    requires Addresses(deletes) <= Addresses(existing)
    ensures Without(existing, deletes) == Keep(existing, Addresses(deletes))
    ensures |Without(existing, deletes)| == |existing| - |deletes|
  {
    if deletes == [] {
      assert Addresses(deletes) == {};
      KeepNothing(existing);
    } else {
      AddressIn(deletes, 0);
      var e, d := existing[0], deletes[0];
      AddressesCons(existing);
      AddressesCons(deletes);
      BeforeTotal(e.address, d.address);
      TailAvoids(existing);
      TailAvoids(deletes);
      if e.address == d.address {
        NotInTail(deletes);
        WithoutKeeps(existing[1..], deletes[1..]);
        KeepIrrelevant(existing[1..], Addresses(deletes), Addresses(deletes[1..]));
      } else {
        if Before(d.address, e.address) {
          HeadNotIn(d, existing);
        }
        HeadNotIn(e, deletes);
        WithoutKeeps(existing[1..], deletes);
      }
    }
  }

  lemma {:induction false} KeepAscending(vals: seq<Validator>, gone: set<Bytes>)
    requires Ascending(vals)
    ensures Ascending(Keep(vals, gone))
  {
    if vals != [] {
      KeepAscending(vals[1..], gone);
      KeepElements(vals[1..], gone);
      if vals[0].address !in gone {
        forall w | w in Keep(vals[1..], gone) ensures Before(vals[0].address, w.address) {
          var i :| 0 <= i < |vals[1..]| && vals[1..][i] == w;
          assert w == vals[i + 1];
        }
        ConsAscending(vals[0], Keep(vals[1..], gone));
      } else {
        assert Keep(vals, gone) == Keep(vals[1..], gone);
      }
    }
  }

  // ----- totals

  lemma PowerAtHead(vals: seq<Validator>)
    requires vals != []
    ensures PowerAt(vals, vals[0].address) == vals[0].power
  {
    FindIs(vals, vals[0].address, 0);
  }

  lemma AvoidsAllButLast(vals: seq<Validator>, a: Bytes)
    requires vals != []
    ensures Find(vals[..|vals| - 1], a) < 0 ==> forall j :: 0 <= j < |vals| - 1 ==> vals[j].address != a
  {
  }

  lemma {:induction false} FirstFind(vals: seq<Validator>, a: Bytes)
    ensures forall j :: 0 <= j < Find(vals, a) ==> vals[j].address != a
  {
    if vals != [] {
      FirstFind(vals[..|vals| - 1], a);
      AvoidsAllButLast(vals, a);
    }
  }

  lemma PowerAtTail(vals: seq<Validator>, a: Bytes)
    requires vals != [] && vals[0].address != a
    ensures PowerAt(vals, a) == PowerAt(vals[1..], a)
  {
    var i := Find(vals[1..], a);
    if i >= 0 {
      FirstFind(vals[1..], a);
      forall j | 0 <= j < i + 1 ensures vals[j].address != a {
        if j > 0 {
          assert vals[j] == vals[1..][j - 1];
        }
      }
      FindIs(vals, a, i + 1);
    } else {
      AvoidsAll(vals[1..], a);
      forall j | 0 <= j < |vals| ensures vals[j].address != a {
        if j > 0 {
          assert vals[j] == vals[1..][j - 1];
        }
      }
      FindNone(vals, a);
    }
  }

  lemma ConsTotal(vals: seq<Validator>, gone: set<Bytes>)
    requires vals != []
    ensures TotalPower(Keep(vals, gone))
            == (if vals[0].address in gone then 0 else vals[0].power) + TotalPower(Keep(vals[1..], gone))
  {
    if vals[0].address in gone {
      assert Keep(vals, gone) == Keep(vals[1..], gone);
    } else {
      TotalPowerCons(Keep(vals, gone));
    }
  }

  /** Each further address to drop takes its holder's power away. */
  lemma {:induction false} KeepOneMore(vals: seq<Validator>, gone: set<Bytes>, a: Bytes)
    requires UniqueAddresses(vals) && a !in gone
    ensures TotalPower(Keep(vals, gone)) == TotalPower(Keep(vals, gone + {a})) + PowerAt(vals, a)
  {
    if vals != [] {
      var rest := vals[1..];
      ConsTotal(vals, gone);
      ConsTotal(vals, gone + {a});
      if vals[0].address == a {
        PowerAtHead(vals);
        KeepIrrelevant(rest, gone, gone + {a});
      } else {
        PowerAtTail(vals, a);
        KeepOneMore(rest, gone, a);
      }
    }
  }

  /** The power `vals` holds under a change's address. */
  function Held(vals: seq<Validator>): Validator -> int {
    (c: Validator) => PowerAt(vals, c.address)
  }

  /** The difference a change makes: verifyUpdates' delta. */
  function Delta(vals: seq<Validator>): Validator -> int {
    (c: Validator) => c.power - PowerAt(vals, c.address)
  }

  /** Dropping the addresses of distinct changes takes away what they held. */
  lemma {:induction false} KeepTotal(vals: seq<Validator>, changes: seq<Validator>)
    requires UniqueAddresses(vals) && UniqueAddresses(changes)
    ensures TotalPower(vals) == TotalPower(Keep(vals, Addresses(changes))) + SumBy(Held(vals), changes)
  {
    if changes == [] {
      assert Addresses(changes) == {};
      KeepNothing(vals);
    } else {
      var n := |changes| - 1;
      var a := changes[n].address;
      KeepTotal(vals, changes[..n]);
      assert changes == changes[..n] + [changes[n]];
      assert Addresses(changes) == Addresses(changes[..n]) + {a} by {
        assert forall v :: v in changes <==> v in changes[..n] || v == changes[n];
      }
      KeepOneMore(vals, Addresses(changes[..n]), a);
    }
  }

  /** The total power the changed set will have. */
  function FinalTotal(vals: seq<Validator>, changes: seq<Validator>): int {
    TotalPower(Keep(vals, Addresses(changes))) + TotalPower(changes)
  }

  lemma {:induction false} DeltaTotal(vals: seq<Validator>, changes: seq<Validator>)
    ensures SumBy(Delta(vals), changes) == TotalPower(changes) - SumBy(Held(vals), changes)
  {
    if changes != [] {
      DeltaTotal(vals, changes[..|changes| - 1]);
      TotalPowerSnoc(changes);
    }
  }

  lemma {:induction false} SumByAppend<T>(f: T -> int, s: seq<T>, t: seq<T>)
    ensures SumBy(f, s + t) == SumBy(f, s) + SumBy(f, t)
  {
    if t == [] {
      assert s + t == s;
    } else {
      assert (s + t)[..|s + t| - 1] == s + t[..|t| - 1];
      SumByAppend(f, s, t[..|t| - 1]);
    }
  }

  lemma {:induction false} ZeroTotal(vals: seq<Validator>)
    requires forall v :: v in vals ==> v.power == 0
    ensures TotalPower(vals) == 0
  {
    if vals != [] {
      ZeroTotal(vals[..|vals| - 1]);
      TotalPowerSnoc(vals);
      assert vals[|vals| - 1] in vals;
    }
  }

  /** What verifyRemovals and verifyUpdates compute - the old total, less what the
      removals held, plus the updates' deltas - is the final total. */
  lemma ComputedTotal(vals: seq<Validator>, changes: seq<Validator>)
    requires UniqueAddresses(vals) && Proper(changes)
    ensures TotalPower(vals) - SumBy(Held(vals), Removals(changes)) + SumBy(Delta(vals), Updates(changes))
            == FinalTotal(vals, changes)
    ensures TotalPower(changes) == TotalPower(Updates(changes))
    ensures TotalPower(vals) - SumBy(Held(vals), Removals(changes)) - SumBy(Held(vals), Updates(changes))
            == TotalPower(Keep(vals, Addresses(changes)))
  {
    ProperSplit(changes);
    var u, d := Updates(changes), Removals(changes);
    assert multiset(u + d) == multiset(changes);
    KeepTotal(vals, changes);
    SumByRearranged(Held(vals), u + d, changes);
    SumByAppend(Held(vals), u, d);
    DeltaTotal(vals, u);
    TotalPowerRearranged(u + d, changes);
    TotalPowerAppend(u, d);
    ZeroTotal(d);
  }

  lemma {:induction false} NegativePrefix(f: Validator -> int, s: seq<Validator>, k: int)
    requires 0 <= k < |s| && f(s[k]) < 0
    requires forall i, j :: 0 <= i < j < |s| ==> f(s[i]) <= f(s[j])
    ensures SumBy(f, s[..k]) <= 0
  {
    if k > 0 {
      assert s[..k][..k - 1] == s[..k - 1];
      NegativePrefix(f, s, k - 1);
    }
  }

  /** Sorting the deltas puts the decreases first, so that a running total from
      below the limit exceeds it somewhere exactly when it does at the end. */
  lemma {:induction false} SortedRunningTotal(f: Validator -> int, s: seq<Validator>, start: int, limit: int, k: int)
    requires start <= limit && 0 <= k <= |s|
    requires forall i, j :: 0 <= i < j < |s| ==> f(s[i]) <= f(s[j])
    requires start + SumBy(f, s[..k]) > limit
    ensures start + SumBy(f, s) > limit
    decreases |s| - k
  {
    if k == |s| {
      assert s[..k] == s;
    } else {
      assert s[..k + 1][..k] == s[..k];
      if f(s[k]) < 0 {
        NegativePrefix(f, s, k);
      }
      SortedRunningTotal(f, s, start, limit, k + 1);
    }
  }

  // ----- priorities of the changed validators

  /** The start of a newcomer: -1.125 times the total before removals. */
  function NewcomerPriority(total: int): int {
    Int64.Wrap(-Int64.Wrap(total + total / 8))
  }

  /** computeNewPriorities: newcomers start low, the others keep theirs. */
  function WithPriority(u: Validator, vals: seq<Validator>, total: int): Validator {
    var i := Find(vals, u.address);
    u.(priority := if i >= 0 then vals[i].priority else NewcomerPriority(total))
  }

  function WithPriorities(updates: seq<Validator>, vals: seq<Validator>, total: int): (r: seq<Validator>)
    ensures R.SameIds(updates, r)
  {
    seq(|updates|, i requires 0 <= i < |updates| => WithPriority(updates[i], vals, total))
  }

  lemma AscendingSameIds(s: seq<Validator>, t: seq<Validator>)
    requires R.SameIds(s, t) && Ascending(s)
    ensures Ascending(t) && Addresses(s) == Addresses(t) && TotalPower(s) == TotalPower(t)
  {
    R.SameIdsPowers(s, t);
    forall i, j | 0 <= i < j < |t| ensures Before(t[i].address, t[j].address) {
      assert Id(s[i]) == Id(t[i]) && Id(s[j]) == Id(t[j]);
    }
  }

  // ----- the whole update

  /** The removals are all there to be removed. */
  ghost predicate RemovalsKnown(vals: seq<Validator>, changes: seq<Validator>) {
    forall c :: c in changes && c.power == 0 ==> c.address in Addresses(vals)
  }

  /** When updateWithChangeSet accepts, in terms of its arguments. */
  ghost predicate Acceptable(vals: seq<Validator>, changes: seq<Validator>, allowDeletes: bool) {
    && Proper(changes)
    && (allowDeletes || forall c :: c in changes ==> c.power > 0)
    && RemovalsKnown(vals, changes)
    && ((exists c :: c in changes && c.power > 0) || (exists v :: v in vals && v.address !in Addresses(changes)))
    && FinalTotal(vals, changes) <= MAX_TOTAL_VOTING_POWER
  }

  /** The fault each error reports. */
  ghost predicate Justified(e: Error, vals: seq<Validator>, changes: seq<Validator>, allowDeletes: bool) {
    match e
    case DuplicateEntry => !UniqueAddresses(changes) || exists c :: c in changes && c.address == []
    case NegativePower => exists c :: c in changes && c.power < 0
    case PowerTooHigh => exists c :: c in changes && c.power > MAX_TOTAL_VOTING_POWER
    case DeletesNotAllowed => !allowDeletes && exists c :: c in changes && c.power == 0
    case EmptyResult =>
      || (forall v :: v in vals ==> v.address in Addresses(changes))
      || (exists c :: c in changes && c.power == 0 && c.address !in Addresses(vals))
    case UnknownValidator => exists c :: c in changes && c.power == 0 && c.address !in Addresses(vals)
    case TotalPowerOverflow => FinalTotal(vals, changes) > MAX_TOTAL_VOTING_POWER
  }

  /** The total after the updates and before the removals. */
  function TotalBeforeRemovals(vals: seq<Validator>, changes: seq<Validator>): int {
    FinalTotal(vals, changes) + SumBy(Held(vals), Removals(changes))
  }

  /** The updates with the priorities they enter the set with. */
  function Entering(vals: seq<Validator>, changes: seq<Validator>): (r: seq<Validator>)
    ensures R.SameIds(Updates(changes), r)
  {
    WithPriorities(Updates(changes), vals, TotalBeforeRemovals(vals, changes))
  }

  /** The list after applyUpdates and applyRemovals. */
  function Merged(vals: seq<Validator>, changes: seq<Validator>): seq<Validator> {
    Without(Merge(Sorted(vals), Entering(vals, changes)), Removals(changes))
  }

  /** The identities after the changes: the old ones at other addresses and the
      changes with positive power. */
  ghost function Overlay(vals: seq<Validator>, changes: seq<Validator>): set<Identity> {
    (set v | v in vals && v.address !in Addresses(changes) :: Id(v))
    + (set c | c in changes && c.power > 0 :: Id(c))
  }

  lemma {:induction false} HeldBounds(vals: seq<Validator>, changes: seq<Validator>)
    requires R.PositivePowers(vals)
    ensures SumBy(Held(vals), changes) >= 0
  {
    if changes != [] {
      HeldBounds(vals, changes[..|changes| - 1]);
    }
  }

  lemma TotalNonNegative(vals: seq<Validator>)
    requires forall v :: v in vals ==> v.power >= 0
    ensures TotalPower(vals) >= 0
  {
    forall i | 0 <= i < |vals| ensures Powers(vals)[i] >= 0 {
      assert vals[i] in vals;
    }
    SumBoundsLow(Powers(vals));
  }

  /** The total that newcomers are charged for is below twice the maximum. */
  lemma TotalBeforeRemovalsBound(vals: seq<Validator>, changes: seq<Validator>)
    requires R.WellFormed(vals) && Proper(changes)
    requires FinalTotal(vals, changes) <= MAX_TOTAL_VOTING_POWER
    ensures 0 <= FinalTotal(vals, changes)
    ensures 0 <= SumBy(Held(vals), Removals(changes)) <= TotalPower(vals)
    ensures 0 <= TotalBeforeRemovals(vals, changes) <= 2 * MAX_TOTAL_VOTING_POWER
    ensures R.LOWEST_PRIORITY <= NewcomerPriority(TotalBeforeRemovals(vals, changes)) <= 0
  {
    ComputedTotal(vals, changes);
    HeldBounds(vals, Removals(changes));
    HeldBounds(vals, Updates(changes));
    KeepElements(vals, Addresses(changes));
    TotalNonNegative(Keep(vals, Addresses(changes)));
    TotalNonNegative(changes);
  }

  lemma RemovalsPresent(vals: seq<Validator>, changes: seq<Validator>)
    requires Proper(changes)
    requires RemovalsKnown(vals, changes)
    ensures Addresses(Removals(changes)) <= Addresses(vals) - Addresses(Updates(changes))
  {
    ProperSplit(changes);
    forall d | d in Removals(changes)
      ensures d.address in Addresses(vals) && d.address !in Addresses(Updates(changes))
    {
      forall u | u in Updates(changes) ensures u.address != d.address {
        var i :| 0 <= i < |changes| && changes[i] == u;
        var j :| 0 <= j < |changes| && changes[j] == d;
        assert i != j;
      }
    }
  }

  lemma MergedAddresses(vals: seq<Validator>, sorted: seq<Validator>, updates: seq<Validator>, merged: seq<Validator>)
    requires multiset(sorted) == multiset(vals)
    requires multiset(merged) == multiset(Keep(sorted, Addresses(updates))) + multiset(updates)
    ensures Addresses(vals) - Addresses(updates) <= Addresses(merged)
  {
    SameElements(sorted, vals);
    KeepElements(sorted, Addresses(updates));
    forall v | v in vals && v.address !in Addresses(updates) ensures v in merged {
      assert v in Keep(sorted, Addresses(updates));
      assert v in multiset(merged);
    }
  }

  lemma KeepRearranged(s: seq<Validator>, t: seq<Validator>, gone: set<Bytes>)
    requires multiset(s) == multiset(t)
    ensures multiset(Keep(s, gone)) == multiset(Keep(t, gone))
  {
    KeepMultiset(s, gone);
    KeepMultiset(t, gone);
  }

  /** Merging into the sorted validators: order, contents and addresses. */
  lemma MergeStage(vals: seq<Validator>, updates: seq<Validator>)
    requires UniqueAddresses(vals) && Ascending(updates)
    ensures var merged := Merge(Sorted(vals), updates);
            && Ascending(merged)
            && multiset(merged) == multiset(Keep(vals, Addresses(updates))) + multiset(updates)
            && Addresses(vals) - Addresses(updates) <= Addresses(merged)
  {
    var sorted := Sorted(vals);
    UniqueRearranged(vals, sorted);
    SortedAscending(sorted);
    MergeAscending(sorted, updates);
    MergeMultiset(sorted, updates);
    KeepRearranged(sorted, vals, Addresses(updates));
    MergedAddresses(vals, sorted, updates, Merge(sorted, updates));
  }

  lemma RemoveCount(vals: seq<Validator>, updates: seq<Validator>, merged: seq<Validator>, gone: set<Bytes>,
      v: Validator)
    requires multiset(merged) == multiset(Keep(vals, Addresses(updates))) + multiset(updates)
    requires gone !! Addresses(updates)
    ensures multiset(Keep(merged, gone))[v]
            == multiset(Keep(vals, Addresses(updates) + gone))[v] + multiset(updates)[v]
  {
    KeepMultiset(merged, gone);
    KeepMultiset(vals, Addresses(updates));
    KeepMultiset(vals, Addresses(updates) + gone);
    if v in multiset(updates) {
      assert v in updates && v.address in Addresses(updates);
    }
  }

  /** Removing addresses that no update has. */
  lemma RemoveStage(vals: seq<Validator>, updates: seq<Validator>, merged: seq<Validator>, gone: set<Bytes>)
    requires multiset(merged) == multiset(Keep(vals, Addresses(updates))) + multiset(updates)
    requires gone !! Addresses(updates)
    ensures multiset(Keep(merged, gone))
            == multiset(Keep(vals, Addresses(updates) + gone)) + multiset(updates)
  {
    forall v ensures multiset(Keep(merged, gone))[v]
                     == multiset(Keep(vals, Addresses(updates) + gone))[v] + multiset(updates)[v]
    {
      RemoveCount(vals, updates, merged, gone, v);
    }
  }

  lemma ChangeAddresses(changes: seq<Validator>)
    requires Proper(changes)
    ensures Addresses(changes) == Addresses(Updates(changes)) + Addresses(Removals(changes))
    ensures forall c :: c in changes <==> c in Updates(changes) || c in Removals(changes)
  {
    ProperSplit(changes);
    SameElements(Updates(changes) + Removals(changes), changes);
    assert forall v :: v in changes <==> v in Updates(changes) + Removals(changes);
  }

  lemma SplitMembers(changes: seq<Validator>)
    requires Proper(changes)
    ensures forall c :: c in Updates(changes) <==> c in changes && c.power > 0
    ensures forall c :: c in Removals(changes) <==> c in changes && c.power == 0
  {
    ProperSplit(changes);
    ChangeAddresses(changes);
  }

  lemma EnteringFacts(vals: seq<Validator>, changes: seq<Validator>)
    requires Proper(changes)
    ensures Ascending(Entering(vals, changes))
    ensures Addresses(Entering(vals, changes)) == Addresses(Updates(changes))
    ensures TotalPower(Entering(vals, changes)) == TotalPower(Updates(changes))
  {
    ProperSplit(changes);
    AscendingSameIds(Updates(changes), Entering(vals, changes));
  }

  /** Who is in the merged list. */
  lemma MergedElements(vals: seq<Validator>, changes: seq<Validator>)
    requires UniqueAddresses(vals) && Proper(changes) && RemovalsKnown(vals, changes)
    ensures Ascending(Merged(vals, changes))
    ensures multiset(Merged(vals, changes))
            == multiset(Keep(vals, Addresses(changes))) + multiset(Entering(vals, changes))
  {
    var updates, deletes := Entering(vals, changes), Removals(changes);
    EnteringFacts(vals, changes);
    MergeStage(vals, updates);
    var merged := Merge(Sorted(vals), updates);
    RemovalsPresent(vals, changes);
    ProperSplit(changes);
    WithoutKeeps(merged, deletes);
    KeepAscending(merged, Addresses(deletes));
    RemoveStage(vals, updates, merged, Addresses(deletes));
    ChangeAddresses(changes);
  }

  lemma MergedTotal(vals: seq<Validator>, changes: seq<Validator>)
    requires UniqueAddresses(vals) && Proper(changes) && RemovalsKnown(vals, changes)
    ensures TotalPower(Merged(vals, changes)) == FinalTotal(vals, changes)
  {
    var kept, updates := Keep(vals, Addresses(changes)), Entering(vals, changes);
    MergedElements(vals, changes);
    EnteringFacts(vals, changes);
    TotalPowerRearranged(Merged(vals, changes), kept + updates);
    TotalPowerAppend(kept, updates);
    ComputedTotal(vals, changes);
  }

  /** A member of the merged list is an untouched validator or an update. */
  lemma MergedMember(vals: seq<Validator>, changes: seq<Validator>, v: Validator)
    requires UniqueAddresses(vals) && Proper(changes) && RemovalsKnown(vals, changes)
    ensures v in Merged(vals, changes)
            <==> (v in vals && v.address !in Addresses(changes)) || v in Entering(vals, changes)
  {
    MergedElements(vals, changes);
    KeepElements(vals, Addresses(changes));
    assert v in Merged(vals, changes) <==> v in multiset(Merged(vals, changes));
  }

  lemma EnteringMember(vals: seq<Validator>, changes: seq<Validator>, v: Validator) returns (u: Validator)
    requires Proper(changes) && v in Entering(vals, changes)
    ensures u in changes && u.power > 0 && Id(u) == Id(v)
    ensures v == WithPriority(u, vals, TotalBeforeRemovals(vals, changes))
  {
    var updates := Entering(vals, changes);
    var i :| 0 <= i < |updates| && updates[i] == v;
    u := Updates(changes)[i];
    ProperSplit(changes);
    assert u in Updates(changes);
  }

  lemma EnteringBounds(vals: seq<Validator>, changes: seq<Validator>, v: Validator)
    requires R.WellFormed(vals) && R.Bounded(vals) && Proper(changes)
    requires FinalTotal(vals, changes) <= MAX_TOTAL_VOTING_POWER
    requires v in Entering(vals, changes)
    ensures 0 < v.power && R.LOWEST_PRIORITY <= v.priority <= R.HIGHEST_PRIORITY
  {
    var u := EnteringMember(vals, changes, v);
    TotalBeforeRemovalsBound(vals, changes);
  }

  /** Members have positive power and a priority that rescaling can take. */
  lemma MergedMemberBounds(vals: seq<Validator>, changes: seq<Validator>, v: Validator)
    requires R.WellFormed(vals) && R.Bounded(vals) && Proper(changes) && RemovalsKnown(vals, changes)
    requires FinalTotal(vals, changes) <= MAX_TOTAL_VOTING_POWER
    requires v in Merged(vals, changes)
    ensures 0 < v.power && R.LOWEST_PRIORITY <= v.priority <= R.HIGHEST_PRIORITY
  {
    MergedMember(vals, changes, v);
    if v in Entering(vals, changes) {
      EnteringBounds(vals, changes, v);
    } else {
      var i :| 0 <= i < |vals| && vals[i] == v;
      assert R.Within(vals, -2 * TotalPower(vals), R.HIGHEST_PRIORITY);
    }
  }

  lemma MergedWithinOverlay(vals: seq<Validator>, changes: seq<Validator>, v: Validator)
    requires UniqueAddresses(vals) && Proper(changes) && RemovalsKnown(vals, changes)
    requires v in Merged(vals, changes)
    ensures Id(v) in Overlay(vals, changes)
  {
    MergedMember(vals, changes, v);
    if v in Entering(vals, changes) {
      var u := EnteringMember(vals, changes, v);
    }
  }

  lemma UpdateEnters(vals: seq<Validator>, changes: seq<Validator>, c: Validator) returns (v: Validator)
    requires Proper(changes) && c in changes && c.power > 0
    ensures v in Entering(vals, changes) && Id(v) == Id(c)
  {
    ChangeAddresses(changes);
    ProperSplit(changes);
    var updates := Entering(vals, changes);
    var i :| 0 <= i < |updates| && Updates(changes)[i] == c;
    v := updates[i];
    assert Id(Updates(changes)[i]) == Id(updates[i]);
  }

  lemma MergedIds(vals: seq<Validator>, changes: seq<Validator>)
    requires UniqueAddresses(vals) && Proper(changes) && RemovalsKnown(vals, changes)
    ensures Ids(Merged(vals, changes)) == Overlay(vals, changes)
  {
    var merged := Merged(vals, changes);
    forall v | v in merged ensures Id(v) in Overlay(vals, changes) {
      MergedWithinOverlay(vals, changes, v);
    }
    forall v | v in vals && v.address !in Addresses(changes) ensures Id(v) in Ids(merged) {
      MergedMember(vals, changes, v);
    }
    forall c | c in changes && c.power > 0 ensures Id(c) in Ids(merged) {
      var v := UpdateEnters(vals, changes, c);
      MergedMember(vals, changes, v);
    }
  }

  lemma OverlayNotEmpty(vals: seq<Validator>, changes: seq<Validator>, allowDeletes: bool)
    requires Acceptable(vals, changes, allowDeletes)
    ensures Overlay(vals, changes) != {}
  {
    if c :| c in changes && c.power > 0 {
      assert Id(c) in Overlay(vals, changes);
    } else {
      var v :| v in vals && v.address !in Addresses(changes);
      assert Id(v) in Overlay(vals, changes);
    }
  }

  lemma MergedWithin(vals: seq<Validator>, changes: seq<Validator>)
    requires R.WellFormed(vals) && R.Bounded(vals) && Proper(changes) && RemovalsKnown(vals, changes)
    requires FinalTotal(vals, changes) <= MAX_TOTAL_VOTING_POWER
    ensures R.PositivePowers(Merged(vals, changes)) && R.PrioritiesInRange(Merged(vals, changes))
    ensures R.Within(Merged(vals, changes), R.LOWEST_PRIORITY, R.HIGHEST_PRIORITY)
  {
    var merged := Merged(vals, changes);
    forall i | 0 <= i < |merged|
      ensures 0 < merged[i].power && R.LOWEST_PRIORITY <= merged[i].priority <= R.HIGHEST_PRIORITY
    {
      MergedMemberBounds(vals, changes, merged[i]);
    }
  }

  lemma MergedNotEmpty(vals: seq<Validator>, changes: seq<Validator>, allowDeletes: bool)
    requires UniqueAddresses(vals) && Acceptable(vals, changes, allowDeletes)
    ensures Merged(vals, changes) != []
  {
    MergedIds(vals, changes);
    OverlayNotEmpty(vals, changes, allowDeletes);
  }

  lemma MergedUnique(vals: seq<Validator>, changes: seq<Validator>)
    requires UniqueAddresses(vals) && Proper(changes) && RemovalsKnown(vals, changes)
    ensures UniqueAddresses(Merged(vals, changes))
  {
    MergedElements(vals, changes);
    AscendingIsUnique(Merged(vals, changes));
  }

  lemma MergedWellFormed(vals: seq<Validator>, changes: seq<Validator>)
    requires R.WellFormed(vals) && R.Bounded(vals) && Proper(changes) && RemovalsKnown(vals, changes)
    requires FinalTotal(vals, changes) <= MAX_TOTAL_VOTING_POWER
    ensures R.WellFormed(Merged(vals, changes))
    ensures R.Within(Merged(vals, changes), R.LOWEST_PRIORITY, R.HIGHEST_PRIORITY)
  {
    MergedUnique(vals, changes);
    MergedTotal(vals, changes);
    MergedWithin(vals, changes);
  }

  /** The merged list is well-formed and its priorities are within the bounds
      that rescaling needs. */
  lemma MergedPreparable(vals: seq<Validator>, changes: seq<Validator>, allowDeletes: bool)
    requires R.WellFormed(vals) && R.Bounded(vals) && Acceptable(vals, changes, allowDeletes)
    ensures R.Preparable(Merged(vals, changes))
  {
    MergedWellFormed(vals, changes);
    MergedNotEmpty(vals, changes, allowDeletes);
  }

  /** The list updateWithChangeSet leaves. */
  function Updated(vals: seq<Validator>, changes: seq<Validator>): seq<Validator>
    requires Merged(vals, changes) != []
    requires !R.RescalePanics(Merged(vals, changes), R.Window(Merged(vals, changes)))
  {
    PowerOrder();
    Sort(PowerLe, R.Prepared(Merged(vals, changes)))
  }

  /** `out` is what a successful update of `vals` by `changes` leaves. */
  ghost predicate UpdatesTo(vals: seq<Validator>, changes: seq<Validator>, out: seq<Validator>) {
    var merged := Merged(vals, changes);
    merged != [] && !R.RescalePanics(merged, R.Window(merged)) && out == Updated(vals, changes)
  }

  function Priority(v: Validator): int {
    v.priority
  }

  /** Rearranging keeps what the invariants say. */
  lemma RearrangedKeeps(s: seq<Validator>, t: seq<Validator>)
    requires multiset(s) == multiset(t) && s != [] && R.WellFormed(s) && R.Bounded(s)
    ensures t != [] && R.WellFormed(t) && R.Bounded(t)
    ensures Ids(s) == Ids(t) && TotalPower(s) == TotalPower(t)
  {
    SameElements(s, t);
    UniqueRearranged(s, t);
    TotalPowerRearranged(s, t);
    assert |multiset(s)| == |s| && |multiset(t)| == |t|;
    SumByIsSum(Priority, s, Priorities(s));
    SumByIsSum(Priority, t, Priorities(t));
    SumByRearranged(Priority, s, t);
    forall i | 0 <= i < |t|
      ensures t[i].power > 0
      ensures -2 * TotalPower(s) <= t[i].priority <= R.HIGHEST_PRIORITY && Int64.InRange(t[i].priority)
    {
      assert t[i] in s;
      var j :| 0 <= j < |s| && s[j] == t[i];
    }
  }

  /** An accepted update yields exactly the old address map overlaid with the
      positive changes, less the zero ones, ordered by power and address, with
      the final total, and with centred priorities. */
  lemma UpdateResult(vals: seq<Validator>, changes: seq<Validator>, allowDeletes: bool, out: seq<Validator>)
    requires R.WellFormed(vals) && R.Bounded(vals) && Acceptable(vals, changes, allowDeletes)
    requires UpdatesTo(vals, changes, out)
    ensures out != [] && R.WellFormed(out) && R.Bounded(out)
    ensures Ordered(PowerLe, out)
    ensures Ids(out) == Overlay(vals, changes)
    ensures TotalPower(out) == FinalTotal(vals, changes) == TotalPower(Merged(vals, changes))
  {
    var merged := Merged(vals, changes);
    MergedPreparable(vals, changes, allowDeletes);
    MergedTotal(vals, changes);
    MergedIds(vals, changes);
    R.PrepareCentres(merged);
    var prepared := R.Prepared(merged);
    R.SameIdsPowers(merged, prepared);
    PowerOrder();
    RearrangedKeeps(prepared, Sort(PowerLe, prepared));
  }
}
