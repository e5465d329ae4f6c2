/** Who is to blame for two conflicting commits (types/evidence.go). */
module Evidence {
  import opened Common
  import opened Sorting
  import opened Validators
  import opened Votes
  import opened Headers
  import C = ChangeSet
  import V = Validation
  import M = ProposerMath
  import opened TrustLevels
  import Int64

  // ----- two quorums intersect

  /** Two commits accepted by VerifyCommitLight against the same set have common
      signers, each with two valid signatures, of more than a third of the power. */
  lemma CommonSigners(s: Scheme, chainID: string, vals: seq<Validator>, a: Commit, b: Commit, b1: bool, b2: bool)
    requires V.BatchesValid(s) && V.NonNegative(vals)
    requires V.VerifyCommitLight(s, chainID, vals, a.blockID, a.height, a, b1) == None
    requires V.VerifyCommitLight(s, chainID, vals, b.blockID, b.height, b, b2) == None
    ensures |a.signatures| == |b.signatures| == |vals|
    ensures var common := V.ValidForBlock(s, chainID, vals, a) * V.ValidForBlock(s, chainID, vals, b);
            3 * M.SumIn(Powers(vals), common) > TotalPower(vals)
  {
    V.LightSigners(s, chainID, vals, a.blockID, a.height, a, b1);
    V.LightSigners(s, chainID, vals, b.blockID, b.height, b, b2);
    var (x, y) := (V.ValidForBlock(s, chainID, vals, a), V.ValidForBlock(s, chainID, vals, b));
    M.SumInOverlap(Powers(vals), x, y);
    M.SumInAtMostSum(Powers(vals), x + y);
  }

  // ----- the guilty

  /** LightClientAttackEvidence. */
  datatype Attack = Attack(conflicting: LightBlock, commonHeight: int)

  /** ConflictingHeaderIsInvalid: some field that the application determines differs. */
  predicate HeaderIsInvalid(ev: Attack, trusted: Header) {
    var h := ev.conflicting.signed.header;
    || trusted.validatorsHash != h.validatorsHash
    || trusted.nextValidatorsHash != h.nextValidatorsHash
    || trusted.consensusHash != h.consensusHash
    || trusted.appHash != h.appHash
    || trusted.lastResultsHash != h.lastResultsHash
  }

  /** The validators of the common set among the signers for the block. */
  function Lunatics(common: seq<Validator>, sigs: seq<CommitSig>): seq<Validator> {
    if sigs == [] then []
    else
      var (rest, sig) := (Lunatics(common, sigs[..|sigs| - 1]), sigs[|sigs| - 1]);
      if sig.flag == ForBlock && Find(common, sig.address) >= 0 then rest + [common[Find(common, sig.address)]]
      else rest
  }

  predicate BothForBlock(a: seq<CommitSig>, b: seq<CommitSig>, i: int) {
    0 <= i < |a| && i < |b| && a[i].flag == ForBlock && b[i].flag == ForBlock
  }

  /** What GetByzantineValidators needs so as not to panic on an equivocation: a second
      signature and a validator for each first one it looks at. */
  ghost predicate Comparable(vals: seq<Validator>, a: seq<CommitSig>, b: seq<CommitSig>) {
    && (forall i :: 0 <= i < |a| && a[i].flag == ForBlock ==> i < |b|)
    && (forall i :: BothForBlock(a, b, i) ==> Find(vals, a[i].address) >= 0)
  }

  /** Those who signed for the block in both, among the first `n`. */
  function Equivocators(vals: seq<Validator>, a: seq<CommitSig>, b: seq<CommitSig>, n: nat): seq<Validator>
    requires n <= |a| && Comparable(vals, a, b)
  {
    if n == 0 then []
    else
      var rest := Equivocators(vals, a, b, n - 1);
      if BothForBlock(a, b, n - 1) then rest + [vals[Find(vals, a[n - 1].address)]] else rest
  }

  ghost predicate Traceable(ev: Attack, trusted: SignedHeader) {
    !HeaderIsInvalid(ev, trusted.header) && trusted.commit.round == ev.conflicting.signed.commit.round ==>
      Comparable(ev.conflicting.vals, ev.conflicting.signed.commit.signatures, trusted.commit.signatures)
  }

  /** ValidatorsByVotingPower. */
  function ByPower(vals: seq<Validator>): seq<Validator> {
    C.PowerOrder();
    Sort(C.PowerLe, vals)
  }

  /** GetByzantineValidators: lunatics, equivocators or, after different rounds, nobody. */
  function Byzantine(ev: Attack, common: seq<Validator>, trusted: SignedHeader): seq<Validator>
    requires Traceable(ev, trusted)
  {
    var commit := ev.conflicting.signed.commit;
    if HeaderIsInvalid(ev, trusted.header) then ByPower(Lunatics(common, commit.signatures))
    else if trusted.commit.round == commit.round then
      ByPower(Equivocators(ev.conflicting.vals, commit.signatures, trusted.commit.signatures, |commit.signatures|))
    else []
  }

  method GetByzantineValidators(ev: Attack, common: seq<Validator>, trusted: SignedHeader) returns (r: seq<Validator>)
    requires Traceable(ev, trusted)
    ensures r == Byzantine(ev, common, trusted)
  {
    var sigs := ev.conflicting.signed.commit.signatures;
    r := [];
    if HeaderIsInvalid(ev, trusted.header) {
      for i := 0 to |sigs|
        invariant r == Lunatics(common, sigs[..i])
      {
        assert sigs[..i + 1][..i] == sigs[..i];
        if sigs[i].flag == ForBlock {
          var k, val := GetByAddress(common, sigs[i].address);
          if val.Some? {
            r := r + [val.value];
          }
        }
      }
      assert sigs[..|sigs|] == sigs;
      r := ByPower(r);
    } else if trusted.commit.round == ev.conflicting.signed.commit.round {
      for i := 0 to |sigs|
        invariant r == Equivocators(ev.conflicting.vals, sigs, trusted.commit.signatures, i)
      {
        if sigs[i].flag == ForBlock {
          var other := trusted.commit.signatures[i];
          if other.flag == ForBlock {
            assert BothForBlock(sigs, trusted.commit.signatures, i);
            var k, val := GetByAddress(ev.conflicting.vals, sigs[i].address);
            r := r + [val.value];
          }
        }
      }
      r := ByPower(r);
    }
  }

  // ----- they hold enough power

  lemma ByPowerTotal(vals: seq<Validator>)
    ensures TotalPower(ByPower(vals)) == TotalPower(vals)
    ensures multiset(ByPower(vals)) == multiset(vals)
  {
    C.PowerOrder();
    TotalPowerRearranged(vals, ByPower(vals));
  }

  lemma TotalSnoc(vals: seq<Validator>, v: Validator)
    ensures TotalPower(vals + [v]) == TotalPower(vals) + v.power
  {
    assert (vals + [v])[..|vals|] == vals;
    TotalPowerSnoc(vals + [v]);
  }

  ghost function BothBefore(a: seq<CommitSig>, b: seq<CommitSig>, n: nat): set<int> {
    set i | 0 <= i < n && BothForBlock(a, b, i)
  }

  /** The validators found under the addresses of the first commit's signatures. */
  ghost function NamedBefore(vals: seq<Validator>, a: seq<CommitSig>, b: seq<CommitSig>, n: nat): set<int> {
    set i | 0 <= i < n && BothForBlock(a, b, i) :: Find(vals, a[i].address)
  }

  lemma BothStep(vals: seq<Validator>, a: seq<CommitSig>, b: seq<CommitSig>, n: nat)
    ensures BothBefore(a, b, n + 1)
            == var rest := BothBefore(a, b, n); if BothForBlock(a, b, n) then rest + {n} else rest
    ensures NamedBefore(vals, a, b, n + 1)
            == var rest := NamedBefore(vals, a, b, n);
               if BothForBlock(a, b, n) then rest + {Find(vals, a[n].address)} else rest
    ensures n !in BothBefore(a, b, n)
  {
  }

  lemma OneMorePower(vals: seq<Validator>, list: seq<Validator>, at: set<int>, k: nat)
    requires TotalPower(list) >= M.SumIn(Powers(vals), at) && k < |vals| && vals[k].power >= 0
    ensures TotalPower(list + [vals[k]]) >= M.SumIn(Powers(vals), at + {k})
    ensures k !in at && TotalPower(list) == M.SumIn(Powers(vals), at) ==>
              TotalPower(list + [vals[k]]) == M.SumIn(Powers(vals), at + {k})
  {
    TotalSnoc(list, vals[k]);
    if k in at {
      assert at + {k} == at;
    } else {
      M.SumInAdd(Powers(vals), at, k);
    }
  }

  /** At least the power of those named, and just that where they are as many as the
      signatures: then each is there once. */
  ghost predicate Weighs(vals: seq<Validator>, list: seq<Validator>, named: set<int>, both: set<int>) {
    && TotalPower(list) >= M.SumIn(Powers(vals), named) && |named| <= |both|
    && (|named| == |both| ==> TotalPower(list) == M.SumIn(Powers(vals), named))
  }

  lemma OneMoreWeighs(vals: seq<Validator>, list: seq<Validator>, named: set<int>, both: set<int>, k: nat, n: int)
    requires Weighs(vals, list, named, both) && k < |vals| && vals[k].power >= 0 && n !in both
    ensures Weighs(vals, list + [vals[k]], named + {k}, both + {n})
  {
    OneMorePower(vals, list, named, k);
    assert |both + {n}| == |both| + 1;
    if k in named {
      assert named + {k} == named;
    } else {
      assert |named + {k}| == |named| + 1;
    }
  }

  lemma EquivocatorsStep(vals: seq<Validator>, a: seq<CommitSig>, b: seq<CommitSig>, n: nat)
    requires Comparable(vals, a, b) && n < |a|
    ensures BothForBlock(a, b, n) ==> 0 <= Find(vals, a[n].address) < |vals|
    ensures Equivocators(vals, a, b, n + 1)
            == var rest := Equivocators(vals, a, b, n);
               if BothForBlock(a, b, n) then rest + [vals[Find(vals, a[n].address)]] else rest
  {
  }

  lemma NextWeighs(vals: seq<Validator>, a: seq<CommitSig>, b: seq<CommitSig>, n: nat)
    requires V.NonNegative(vals) && Comparable(vals, a, b) && n < |a|
    requires Weighs(vals, Equivocators(vals, a, b, n), NamedBefore(vals, a, b, n), BothBefore(a, b, n))
    ensures Weighs(vals, Equivocators(vals, a, b, n + 1), NamedBefore(vals, a, b, n + 1), BothBefore(a, b, n + 1))
  {
    EquivocatorsStep(vals, a, b, n);
    BothStep(vals, a, b, n);
    if BothForBlock(a, b, n) {
      var (list, k) := (Equivocators(vals, a, b, n), Find(vals, a[n].address));
      OneMoreWeighs(vals, list, NamedBefore(vals, a, b, n), BothBefore(a, b, n), k, n);
    }
  }

  /** The equivocators weigh what those named do. */
  lemma {:induction false} EquivocatorsPower(vals: seq<Validator>, a: seq<CommitSig>, b: seq<CommitSig>, n: nat)
    requires V.NonNegative(vals) && Comparable(vals, a, b) && n <= |a|
    ensures Weighs(vals, Equivocators(vals, a, b, n), NamedBefore(vals, a, b, n), BothBefore(a, b, n))
  {
    if n == 0 {
      M.SumInEmpty(Powers(vals));
      assert BothBefore(a, b, 0) == {} && NamedBefore(vals, a, b, 0) == {};
    } else {
      EquivocatorsPower(vals, a, b, n - 1);
      NextWeighs(vals, a, b, n - 1);
    }
  }

  /** The addresses on the first commit's signatures. */
  ghost function Addressees(a: seq<CommitSig>, b: seq<CommitSig>): set<Bytes> {
    set i | 0 <= i < |a| && BothForBlock(a, b, i) :: a[i].address
  }

  /** The validators that the two signatures are counted for. */
  ghost function Counted(vals: seq<Validator>, a: seq<CommitSig>, b: seq<CommitSig>): set<Validator>
    requires |a| == |vals|
  {
    set i | 0 <= i < |a| && BothForBlock(a, b, i) :: vals[i]
  }

  ghost function AddressesOf(vals: set<Validator>): set<Bytes> {
    set v | v in vals :: v.address
  }

  /** The signatures for the block in both commits carry, in some order, the addresses of
      the validators they are counted for. */
  ghost predicate Addressed(vals: seq<Validator>, a: seq<CommitSig>, b: seq<CommitSig>) {
    |a| == |vals| && Addressees(a, b) == AddressesOf(Counted(vals, a, b))
  }

  lemma AddresseeOf(vals: seq<Validator>, a: seq<CommitSig>, b: seq<CommitSig>, i: int) returns (k: int)
    requires Addressed(vals, a, b) && BothForBlock(a, b, i)
    ensures BothForBlock(a, b, k) && vals[k].address == a[i].address
  {
    assert a[i].address in Addressees(a, b);
    var v :| v in Counted(vals, a, b) && v.address == a[i].address;
    k :| 0 <= k < |a| && BothForBlock(a, b, k) && vals[k] == v;
  }

  lemma AddressOn(vals: seq<Validator>, a: seq<CommitSig>, b: seq<CommitSig>, k: int) returns (i: int)
    requires Addressed(vals, a, b) && BothForBlock(a, b, k)
    ensures BothForBlock(a, b, i) && vals[k].address == a[i].address
  {
    assert vals[k] in Counted(vals, a, b) && vals[k].address in AddressesOf(Counted(vals, a, b));
    i :| 0 <= i < |a| && BothForBlock(a, b, i) && a[i].address == vals[k].address;
  }

  lemma AddressedComparable(vals: seq<Validator>, a: seq<CommitSig>, b: seq<CommitSig>)
    requires Addressed(vals, a, b) && |b| == |a|
    ensures Comparable(vals, a, b)
  {
    forall i | BothForBlock(a, b, i) ensures Find(vals, a[i].address) >= 0 {
      var k := AddresseeOf(vals, a, b, i);
      assert vals[k] in vals;
    }
  }

  lemma FindUnique(vals: seq<Validator>, k: int)
    requires UniqueAddresses(vals) && 0 <= k < |vals|
    ensures Find(vals, vals[k].address) == k
  {
    FindIs(vals, vals[k].address, k);
  }

  lemma AddressedNamed(vals: seq<Validator>, a: seq<CommitSig>, b: seq<CommitSig>)
    requires Addressed(vals, a, b) && UniqueAddresses(vals)
    ensures NamedBefore(vals, a, b, |a|) == BothBefore(a, b, |a|)
  {
    forall k | k in NamedBefore(vals, a, b, |a|) ensures k in BothBefore(a, b, |a|) {
      var i :| 0 <= i < |a| && BothForBlock(a, b, i) && Find(vals, a[i].address) == k;
      var j := AddresseeOf(vals, a, b, i);
      FindUnique(vals, j);
    }
    forall k | k in BothBefore(a, b, |a|) ensures k in NamedBefore(vals, a, b, |a|) {
      var i := AddressOn(vals, a, b, k);
      FindUnique(vals, k);
    }
  }

  /** Two commits of one height and round accepted against one set, the conflicting one with
      the right addresses. */
  ghost predicate Equivocation(s: Scheme, chainID: string, ev: Attack, trusted: SignedHeader, b1: bool, b2: bool) {
    var (vals, a, b) := (ev.conflicting.vals, ev.conflicting.signed.commit, trusted.commit);
    && V.BatchesValid(s) && V.NonNegative(vals) && UniqueAddresses(vals)
    && V.VerifyCommitLight(s, chainID, vals, a.blockID, a.height, a, b1) == None
    && V.VerifyCommitLight(s, chainID, vals, b.blockID, b.height, b, b2) == None
    && Addressed(vals, a.signatures, b.signatures) && a.round == b.round && !HeaderIsInvalid(ev, trusted.header)
  }

  /** Accountability: two commits of one round that are both accepted, for a header that
      differs in nothing the application determines, convict at least the validators with
      valid signatures in both, who have more than a third of the power. */
  lemma Accountable(s: Scheme, chainID: string, ev: Attack, common: seq<Validator>, trusted: SignedHeader,
      b1: bool, b2: bool)
    requires Equivocation(s, chainID, ev, trusted, b1, b2)
    ensures Traceable(ev, trusted)
    ensures var (vals, a, b) := (ev.conflicting.vals, ev.conflicting.signed.commit, trusted.commit);
            && |a.signatures| == |b.signatures| == |vals|
            && TotalPower(Byzantine(ev, common, trusted))
               >= M.SumIn(Powers(vals), V.ValidForBlock(s, chainID, vals, a) * V.ValidForBlock(s, chainID, vals, b))
            && 3 * TotalPower(Byzantine(ev, common, trusted)) > TotalPower(vals)
  {
    var (vals, a, b) := (ev.conflicting.vals, ev.conflicting.signed.commit, trusted.commit);
    CommonSigners(s, chainID, vals, a, b, b1, b2);
    AddressedComparable(vals, a.signatures, b.signatures);
    AddressedNamed(vals, a.signatures, b.signatures);
    EquivocatorsPower(vals, a.signatures, b.signatures, |vals|);
    ByPowerTotal(Equivocators(vals, a.signatures, b.signatures, |vals|));
    M.SumInSubset(Powers(vals), V.ValidForBlock(s, chainID, vals, a) * V.ValidForBlock(s, chainID, vals, b),
                  BothBefore(a.signatures, b.signatures, |vals|));
  }

  /** A validator with valid signatures for the block in two commits for different blocks
      of one height and round signed two different votes of that height and round. */
  lemma SignedTwoVotes(s: Scheme, chainID: string, vals: seq<Validator>, a: Commit, b: Commit, i: int)
    requires |a.signatures| == |b.signatures| == |vals|
    requires a.height == b.height && a.round == b.round && a.blockID != b.blockID
    requires i in V.ValidForBlock(s, chainID, vals, a) * V.ValidForBlock(s, chainID, vals, b)
    ensures var (x, y) := (CommitSignBytes(chainID, a, i), CommitSignBytes(chainID, b, i));
            && x.VoteBytes? && y.VoteBytes? && x != y && x.blockID != y.blockID
            && x.kind == y.kind == Precommit && x.height == y.height && x.round == y.round && x.chainID == y.chainID
            && s.valid(vals[i].pubKey, x, a.signatures[i].signature)
            && s.valid(vals[i].pubKey, y, b.signatures[i].signature)
  {
    assert IsNil(a.blockID) <==> a.blockID == NIL_BLOCK;
    assert IsNil(b.blockID) <==> b.blockID == NIL_BLOCK;
  }

  // ----- who is convicted

  lemma {:induction false} EquivocatorsAre(vals: seq<Validator>, a: seq<CommitSig>, b: seq<CommitSig>, n: nat,
      v: Validator)
    requires Comparable(vals, a, b) && n <= |a|
    ensures v in Equivocators(vals, a, b, n)
            <==> exists i :: 0 <= i < n && BothForBlock(a, b, i) && vals[Find(vals, a[i].address)] == v
  {
    if n > 0 {
      EquivocatorsAre(vals, a, b, n - 1, v);
      EquivocatorsStep(vals, a, b, n - 1);
    }
  }

  /** Whoever is found under those addresses. */
  ghost function FoundUnder(vals: seq<Validator>, a: seq<CommitSig>, b: seq<CommitSig>): set<Validator>
    requires Comparable(vals, a, b)
  {
    set i | 0 <= i < |a| && BothForBlock(a, b, i) :: vals[Find(vals, a[i].address)]
  }

  /** They are the ones returned. */
  lemma FoundAre(ev: Attack, common: seq<Validator>, trusted: SignedHeader, v: Validator)
    requires Traceable(ev, trusted) && !HeaderIsInvalid(ev, trusted.header)
    requires trusted.commit.round == ev.conflicting.signed.commit.round
    ensures var (commit, vals) := (ev.conflicting.signed.commit, ev.conflicting.vals);
            v in Byzantine(ev, common, trusted)
            <==> v in FoundUnder(vals, commit.signatures, trusted.commit.signatures)
  {
    var (vals, a, b) := (ev.conflicting.vals, ev.conflicting.signed.commit.signatures, trusted.commit.signatures);
    EquivocatorsAre(vals, a, b, |a|, v);
    var found := Equivocators(vals, a, b, |a|);
    ByPowerTotal(found);
    SameElements(found, ByPower(found));
  }

  /** The validator has a valid signature for the block in both commits. */
  ghost predicate Guilty(s: Scheme, chainID: string, vals: seq<Validator>, a: Commit, b: Commit, v: Validator)
    requires |a.signatures| == |b.signatures| == |vals|
  {
    exists i :: i in V.ValidForBlock(s, chainID, vals, a) * V.ValidForBlock(s, chainID, vals, b) && vals[i] == v
  }

  /** The signatures for the block that the light check of a commit leaves unread, where
      the other commit has one too, are valid. */
  ghost predicate UnreadValid(s: Scheme, chainID: string, vals: seq<Validator>, a: Commit, b: Commit)
    requires |a.signatures| == |b.signatures| == |vals|
  {
    forall i :: V.LightStop(vals, a, 0) <= i < |vals| && BothForBlock(a.signatures, b.signatures, i)
                ==> V.IndexValid(s, chainID, vals, a, i)
  }

  /** Whether one index is guilty: by what was read, or by what was not. */
  lemma GuiltyAt(s: Scheme, chainID: string, vals: seq<Validator>, a: Commit, b: Commit, b1: bool, i: int)
    requires V.BatchesValid(s) && V.NonNegative(vals) && |b.signatures| == |vals|
    requires V.VerifyCommitLight(s, chainID, vals, a.blockID, a.height, a, b1) == None
    requires BothForBlock(a.signatures, b.signatures, i)
    ensures |a.signatures| == |vals|
    ensures i < V.LightStop(vals, a, 0) ==> V.IndexValid(s, chainID, vals, a, i)
  {
    V.LightLooksAt(s, chainID, vals, a.blockID, a.height, a, b1);
  }

  lemma AddressesFound(vals: seq<Validator>, a: seq<CommitSig>, b: seq<CommitSig>)
    requires Comparable(vals, a, b)
    ensures AddressesOf(FoundUnder(vals, a, b)) == Addressees(a, b)
  {
    forall x | x in Addressees(a, b) ensures x in AddressesOf(FoundUnder(vals, a, b)) {
      var i :| 0 <= i < |a| && BothForBlock(a, b, i) && a[i].address == x;
      assert vals[Find(vals, a[i].address)] in FoundUnder(vals, a, b);
    }
  }

  lemma SameAddresses(vals: seq<Validator>, x: set<Validator>, y: set<Validator>)
    requires UniqueAddresses(vals) && AddressesOf(x) == AddressesOf(y)
    requires (forall v :: v in x ==> v in vals) && (forall v :: v in y ==> v in vals)
    ensures x <= y
  {
    forall v | v in x ensures v in y {
      assert v.address in AddressesOf(y);
      var w :| w in y && w.address == v.address;
      var i :| 0 <= i < |vals| && vals[i] == v;
      var j :| 0 <= j < |vals| && vals[j] == w;
    }
  }

  lemma FoundIffAddressed(vals: seq<Validator>, a: seq<CommitSig>, b: seq<CommitSig>)
    requires UniqueAddresses(vals) && |a| == |vals| && Comparable(vals, a, b)
    ensures FoundUnder(vals, a, b) == Counted(vals, a, b) <==> Addressed(vals, a, b)
  {
    AddressesFound(vals, a, b);
    if Addressed(vals, a, b) {
      SameAddresses(vals, FoundUnder(vals, a, b), Counted(vals, a, b));
      SameAddresses(vals, Counted(vals, a, b), FoundUnder(vals, a, b));
    }
  }

  /** No light check reads an address: with others in their place it accepts the same. */
  lemma AddressesUnread(s: Scheme, chainID: string, vals: seq<Validator>, commit: Commit, other: Commit,
      supported: bool)
    requires V.BatchesValid(s) && V.NonNegative(vals)
    requires |commit.signatures| == |other.signatures| && other.(signatures := commit.signatures) == commit
    requires forall i :: 0 <= i < |commit.signatures| ==>
               other.signatures[i].(address := commit.signatures[i].address) == commit.signatures[i]
    ensures V.VerifyCommitLight(s, chainID, vals, commit.blockID, commit.height, commit, supported) == None
            <==> V.VerifyCommitLight(s, chainID, vals, other.blockID, other.height, other, supported) == None
  {
    V.VerifyCommitLightIff(s, chainID, vals, commit.blockID, commit.height, commit, supported);
    V.VerifyCommitLightIff(s, chainID, vals, other.blockID, other.height, other, supported);
    if |vals| == |commit.signatures| {
      var (c, d) := (V.LightCheck(s, chainID, vals, commit), V.LightCheck(s, chainID, vals, other));
      forall k: nat | k <= |commit.signatures| ensures V.EnoughPrefix(c, 0, k) <==> V.EnoughPrefix(d, 0, k) {
        assert V.ForBlockBefore(commit, k) == V.ForBlockBefore(other, k);
      }
    }
  }

  /** Just the validators that the two signatures are counted for are returned, and no lookup
      fails, exactly when the signatures carry the addresses of those validators. */
  lemma RightOnesIff(ev: Attack, common: seq<Validator>, trusted: SignedHeader)
    requires UniqueAddresses(ev.conflicting.vals) && !HeaderIsInvalid(ev, trusted.header)
    requires trusted.commit.round == ev.conflicting.signed.commit.round
    requires |ev.conflicting.signed.commit.signatures| == |trusted.commit.signatures| == |ev.conflicting.vals|
    ensures var (vals, commit) := (ev.conflicting.vals, ev.conflicting.signed.commit);
            var (a, b) := (commit.signatures, trusted.commit.signatures);
            && Traceable(ev, trusted)
            && (forall v :: v in Byzantine(ev, common, trusted) <==> v in Counted(vals, a, b))
            <==> Addressed(vals, a, b)
  {
    var (vals, a, b) := (ev.conflicting.vals, ev.conflicting.signed.commit.signatures, trusted.commit.signatures);
    if Addressed(vals, a, b) {
      AddressedComparable(vals, a, b);
    }
    if Traceable(ev, trusted) {
      forall v ensures v in Byzantine(ev, common, trusted) <==> v in FoundUnder(vals, a, b) {
        FoundAre(ev, common, trusted, v);
      }
      FoundIffAddressed(vals, a, b);
    }
  }

  lemma GuiltyIndex(s: Scheme, chainID: string, vals: seq<Validator>, a: Commit, b: Commit, i: int)
    requires |a.signatures| == |b.signatures| == |vals| && UniqueAddresses(vals)
    requires BothForBlock(a.signatures, b.signatures, i)
    ensures Guilty(s, chainID, vals, a, b, vals[i])
            <==> V.IndexValid(s, chainID, vals, a, i) && V.IndexValid(s, chainID, vals, b, i)
  {
    var both := V.ValidForBlock(s, chainID, vals, a) * V.ValidForBlock(s, chainID, vals, b);
    assert i in both <==> V.IndexValid(s, chainID, vals, a, i) && V.IndexValid(s, chainID, vals, b, i);
  }

  /** Everyone convicted has valid signatures in both commits exactly when the signatures
      that the two light checks leave unread are valid. */
  lemma OnlyGuiltyIff(s: Scheme, chainID: string, ev: Attack, common: seq<Validator>, trusted: SignedHeader,
      b1: bool, b2: bool)
    requires Equivocation(s, chainID, ev, trusted, b1, b2)
    ensures Traceable(ev, trusted)
    ensures var (vals, a, b) := (ev.conflicting.vals, ev.conflicting.signed.commit, trusted.commit);
            && |a.signatures| == |b.signatures| == |vals|
            && ((forall v :: v in Byzantine(ev, common, trusted) ==> Guilty(s, chainID, vals, a, b, v))
                <==> UnreadValid(s, chainID, vals, a, b) && UnreadValid(s, chainID, vals, b, a))
  {
    var (vals, a, b) := (ev.conflicting.vals, ev.conflicting.signed.commit, trusted.commit);
    Accountable(s, chainID, ev, common, trusted, b1, b2);
    RightOnesIff(ev, common, trusted);
    forall i | BothForBlock(a.signatures, b.signatures, i)
      ensures vals[i] in Byzantine(ev, common, trusted)
      ensures BothForBlock(b.signatures, a.signatures, i)
      ensures i < V.LightStop(vals, a, 0) ==> V.IndexValid(s, chainID, vals, a, i)
      ensures i < V.LightStop(vals, b, 0) ==> V.IndexValid(s, chainID, vals, b, i)
      ensures Guilty(s, chainID, vals, a, b, vals[i])
              <==> V.IndexValid(s, chainID, vals, a, i) && V.IndexValid(s, chainID, vals, b, i)
    {
      GuiltyAt(s, chainID, vals, a, b, b1, i);
      GuiltyAt(s, chainID, vals, b, a, b2, i);
      GuiltyIndex(s, chainID, vals, a, b, i);
    }
  }

  /** Where both commits pass the full check, only the guilty are convicted. */
  lemma FullChecksConvictTheGuilty(s: Scheme, chainID: string, ev: Attack, common: seq<Validator>,
      trusted: SignedHeader, b1: bool, b2: bool)
    requires Equivocation(s, chainID, ev, trusted, b1, b2)
    requires var (vals, a, b) := (ev.conflicting.vals, ev.conflicting.signed.commit, trusted.commit);
             && V.VerifyCommit(s, chainID, vals, a.blockID, a.height, a, b1) == None
             && V.VerifyCommit(s, chainID, vals, b.blockID, b.height, b, b2) == None
    ensures Traceable(ev, trusted)
    ensures var (vals, a, b) := (ev.conflicting.vals, ev.conflicting.signed.commit, trusted.commit);
            && |a.signatures| == |b.signatures| == |vals|
            && forall v :: v in Byzantine(ev, common, trusted) ==> Guilty(s, chainID, vals, a, b, v)
  {
    var (vals, a, b) := (ev.conflicting.vals, ev.conflicting.signed.commit, trusted.commit);
    OnlyGuiltyIff(s, chainID, ev, common, trusted, b1, b2);
    V.VerifyCommitIff(s, chainID, vals, a.blockID, a.height, a, b1);
    V.VerifyCommitIff(s, chainID, vals, b.blockID, b.height, b, b2);
  }

  lemma ConvictedAlone(s: Scheme, chainID: string, ev: Attack, common: seq<Validator>, trusted: SignedHeader, i: int)
    requires Equivocation(s, chainID, ev, trusted, false, false)
    requires var (vals, a, b) := (ev.conflicting.vals, ev.conflicting.signed.commit, trusted.commit);
             && |a.signatures| == |b.signatures| == |vals| && BothForBlock(a.signatures, b.signatures, i)
             && !V.IndexValid(s, chainID, vals, a, i)
    ensures var (vals, a, b) := (ev.conflicting.vals, ev.conflicting.signed.commit, trusted.commit);
            && Traceable(ev, trusted) && vals[i] in Byzantine(ev, common, trusted)
            && !Guilty(s, chainID, vals, a, b, vals[i])
  {
    var (vals, a, b) := (ev.conflicting.vals, ev.conflicting.signed.commit, trusted.commit);
    Accountable(s, chainID, ev, common, trusted, false, false);
    RightOnesIff(ev, common, trusted);
    GuiltyIndex(s, chainID, vals, a, b, i);
  }

  // ----- an innocent one

  /** Four validators of power 1. */
  function FourValidators(s: Scheme, keys: seq<Bytes>): seq<Validator>
    requires |keys| == 4
  {
    [Validator(s.addressOf(keys[0]), keys[0], 1, 0), Validator(s.addressOf(keys[1]), keys[1], 1, 0),
     Validator(s.addressOf(keys[2]), keys[2], 1, 0), Validator(s.addressOf(keys[3]), keys[3], 1, 0)]
  }

  function SigOf(v: Validator, sig: Bytes): CommitSig {
    CommitSig(ForBlock, v.address, 0, sig)
  }

  /** All four for the block. */
  function FourCommit(vals: seq<Validator>, blockID: BlockID, sigs: seq<Bytes>): Commit
    requires |vals| == |sigs| == 4
  {
    Commit(1, 0, blockID, [SigOf(vals[0], sigs[0]), SigOf(vals[1], sigs[1]), SigOf(vals[2], sigs[2]),
                           SigOf(vals[3], sigs[3])])
  }

  ghost predicate FirstThreeValid(s: Scheme, chainID: string, vals: seq<Validator>, commit: Commit) {
    |vals| == |commit.signatures| == 4 && forall i :: 0 <= i < 3 ==> V.IndexValid(s, chainID, vals, commit, i)
  }

  lemma FourTotal(s: Scheme, keys: seq<Bytes>)
    requires |keys| == 4
    ensures Powers(FourValidators(s, keys)) == [1, 1, 1, 1] && TotalPower(FourValidators(s, keys)) == 4
  {
    assert Powers(FourValidators(s, keys)) == [1, 1, 1, 1];
    assert [1, 1, 1, 1][..3] == [1, 1, 1] && [1, 1, 1][..2] == [1, 1] && [1, 1][..1] == [1] && [1][..0] == [];
    assert Sum([1]) == 1 && Sum([1, 1]) == 2 && Sum([1, 1, 1]) == 3;
  }

  lemma FourAccepted(s: Scheme, chainID: string, keys: seq<Bytes>, blockID: BlockID, sigs: seq<Bytes>, supported: bool)
    requires |keys| == |sigs| == 4 && V.BatchesValid(s)
    requires var vals := FourValidators(s, keys); FirstThreeValid(s, chainID, vals, FourCommit(vals, blockID, sigs))
    ensures var vals := FourValidators(s, keys);
            V.VerifyCommitLight(s, chainID, vals, blockID, 1, FourCommit(vals, blockID, sigs), supported) == None
  {
    var vals := FourValidators(s, keys);
    var commit := FourCommit(vals, blockID, sigs);
    FourTotal(s, keys);
    M.SumInEmpty(Powers(vals));
    assert V.ForBlockBefore(commit, 0) == {};
    V.ForBlockStep(vals, commit, 0);
    V.ForBlockStep(vals, commit, 1);
    V.ForBlockStep(vals, commit, 2);
    assert V.EnoughPrefix(V.LightCheck(s, chainID, vals, commit), 0, 3);
    V.VerifyCommitLightIff(s, chainID, vals, blockID, 1, commit, supported);
  }

  lemma AlignedAddressed(vals: seq<Validator>, a: seq<CommitSig>, b: seq<CommitSig>)
    requires |a| == |vals| && forall i :: BothForBlock(a, b, i) ==> a[i].address == vals[i].address
    ensures Addressed(vals, a, b)
  {
    forall i | 0 <= i < |a| && BothForBlock(a, b, i)
      ensures a[i].address in Addressees(a, b) && vals[i] in Counted(vals, a, b)
    {
    }
  }

  lemma FourAddressed(vals: seq<Validator>, x: BlockID, y: BlockID, first: seq<Bytes>, second: seq<Bytes>)
    requires |vals| == |first| == |second| == 4
    ensures Addressed(vals, FourCommit(vals, x, first).signatures, FourCommit(vals, y, second).signatures)
  {
    var (a, b) := (FourCommit(vals, x, first).signatures, FourCommit(vals, y, second).signatures);
    forall i | BothForBlock(a, b, i) ensures vals[i].address == a[i].address {
    }
    AlignedAddressed(vals, a, b);
  }

  /** In any scheme: both commits are accepted on three valid signatures; the fourth
      validator is convicted on one that nobody looked at and that is not valid. */
  lemma InnocentConvicted(s: Scheme, chainID: string, keys: seq<Bytes>, header: Header, x: BlockID, y: BlockID,
      first: seq<Bytes>, second: seq<Bytes>)
    requires |keys| == |first| == |second| == 4 && V.BatchesValid(s) && UniqueAddresses(FourValidators(s, keys))
    requires var vals := FourValidators(s, keys);
             var (a, b) := (FourCommit(vals, x, first), FourCommit(vals, y, second));
             && FirstThreeValid(s, chainID, vals, a) && FirstThreeValid(s, chainID, vals, b)
             && !V.IndexValid(s, chainID, vals, a, 3)
    ensures var vals := FourValidators(s, keys);
            var (a, b) := (FourCommit(vals, x, first), FourCommit(vals, y, second));
            var (ev, trusted) := (Attack(LightBlock(SignedHeader(header, a), vals), 1), SignedHeader(header, b));
            && Equivocation(s, chainID, ev, trusted, false, false) && Traceable(ev, trusted)
            && vals[3] in Byzantine(ev, vals, trusted) && !Guilty(s, chainID, vals, a, b, vals[3])
  {
    var vals := FourValidators(s, keys);
    var (a, b) := (FourCommit(vals, x, first), FourCommit(vals, y, second));
    var (ev, trusted) := (Attack(LightBlock(SignedHeader(header, a), vals), 1), SignedHeader(header, b));
    FourAccepted(s, chainID, keys, x, first, false);
    FourAccepted(s, chainID, keys, y, second, false);
    FourAddressed(vals, x, y, first, second);
    ConvictedAlone(s, chainID, ev, vals, trusted, 3);
  }

  // ----- and so do the lunatics

  /** A signature that GetByzantineValidators takes a lunatic from. */
  predicate Taken(common: seq<Validator>, sig: CommitSig) {
    sig.flag == ForBlock && Find(common, sig.address) >= 0
  }

  lemma LunaticsStep(common: seq<Validator>, sigs: seq<CommitSig>, sig: CommitSig)
    ensures Lunatics(common, sigs + [sig])
            == var rest := Lunatics(common, sigs);
               if Taken(common, sig) then rest + [common[Find(common, sig.address)]] else rest
  {
    assert (sigs + [sig])[..|sigs|] == sigs;
  }

  ghost function Found(common: seq<Validator>, sigs: seq<CommitSig>): set<int> {
    set sig | sig in sigs && Taken(common, sig) :: Find(common, sig.address)
  }

  lemma FoundStep(common: seq<Validator>, sigs: seq<CommitSig>, sig: CommitSig)
    ensures Found(common, sigs + [sig])
            == var rest := Found(common, sigs); if Taken(common, sig) then rest + {Find(common, sig.address)} else rest
  {
    var more := sigs + [sig];
    assert forall x :: x in more <==> x in sigs || x == sig;
    if Taken(common, sig) {
      assert Found(common, more) == Found(common, sigs) + {Find(common, sig.address)};
    } else {
      assert Found(common, more) == Found(common, sigs);
    }
  }

  lemma {:induction false} LunaticsPower(common: seq<Validator>, sigs: seq<CommitSig>)
    requires V.NonNegative(common)
    ensures TotalPower(Lunatics(common, sigs)) >= M.SumIn(Powers(common), Found(common, sigs))
  {
    if sigs == [] {
      M.SumInEmpty(Powers(common));
      assert Found(common, sigs) == {};
    } else {
      var (rest, sig) := (sigs[..|sigs| - 1], sigs[|sigs| - 1]);
      assert sigs == rest + [sig];
      LunaticsPower(common, rest);
      LunaticsStep(common, rest, sig);
      FoundStep(common, rest, sig);
      if Taken(common, sig) {
        OneMorePower(common, Lunatics(common, rest), Found(common, rest), Find(common, sig.address));
      }
    }
  }

  /** The lunatics convicted have at least the power of the validators of the common set
      with valid signatures. */
  lemma LunaticsConvicted(s: Scheme, chainID: string, ev: Attack, common: seq<Validator>, trusted: SignedHeader)
    requires V.NonNegative(common) && UniqueAddresses(common) && HeaderIsInvalid(ev, trusted.header)
    ensures TotalPower(Byzantine(ev, common, trusted))
            >= M.SumIn(Powers(common), V.TrustedSigners(s, chainID, common, ev.conflicting.signed.commit))
  {
    var commit := ev.conflicting.signed.commit;
    LunaticsPower(common, commit.signatures);
    ByPowerTotal(Lunatics(common, commit.signatures));
    forall k | k in V.TrustedSigners(s, chainID, common, commit) ensures k in Found(common, commit.signatures) {
      var j: nat :| V.SignedBy(s, chainID, common[k], commit, j);
      FindIs(common, common[k].address, k);
      assert commit.signatures[j] in commit.signatures;
    }
    M.SumInSubset(Powers(common), V.TrustedSigners(s, chainID, common, commit), Found(common, commit.signatures));
  }

  /** And that is more than the trusting check asks for, where it accepts. */
  lemma LunaticsOutweigh(s: Scheme, chainID: string, ev: Attack, common: seq<Validator>, trusted: SignedHeader,
      level: Fraction, supported: bool)
    requires V.BatchesValid(s) && V.NonNegative(common) && UniqueAddresses(common)
    requires Int64.InRange(TotalPower(common)) && IsFraction(level) && HeaderIsInvalid(ev, trusted.header)
    requires V.VerifyCommitLightTrusting(s, chainID, common, ev.conflicting.signed.commit, level, supported) == None
    ensures NeededPower(TotalPower(common), level).Ok?
    ensures TotalPower(Byzantine(ev, common, trusted)) > NeededPower(TotalPower(common), level).value
  {
    LunaticsConvicted(s, chainID, ev, common, trusted);
    V.TrustingSigners(s, chainID, common, ev.conflicting.signed.commit, level, supported);
  }

  ghost predicate LunaticIn(common: seq<Validator>, sigs: seq<CommitSig>, v: Validator) {
    exists j :: 0 <= j < |sigs| && Taken(common, sigs[j]) && common[Find(common, sigs[j].address)] == v
  }

  lemma LunaticInMore(common: seq<Validator>, sigs: seq<CommitSig>, sig: CommitSig, v: Validator)
    ensures LunaticIn(common, sigs + [sig], v)
            <==> LunaticIn(common, sigs, v) || (Taken(common, sig) && common[Find(common, sig.address)] == v)
  {
    var more := sigs + [sig];
    assert more[|sigs|] == sig && forall j :: 0 <= j < |sigs| ==> more[j] == sigs[j];
  }

  lemma {:induction false} LunaticsAre(common: seq<Validator>, sigs: seq<CommitSig>, v: Validator)
    ensures v in Lunatics(common, sigs) <==> LunaticIn(common, sigs, v)
  {
    if sigs != [] {
      var (rest, sig) := (sigs[..|sigs| - 1], sigs[|sigs| - 1]);
      assert sigs == rest + [sig];
      LunaticsAre(common, rest, v);
      LunaticsStep(common, rest, sig);
      LunaticInMore(common, rest, sig, v);
    }
  }

  /** No address twice among the signatures taken. */
  ghost predicate TakenOnce(common: seq<Validator>, sigs: seq<CommitSig>) {
    forall i, j :: 0 <= i < j < |sigs| && Taken(common, sigs[i]) && Taken(common, sigs[j]) ==>
      sigs[i].address != sigs[j].address
  }

  lemma UniqueSnoc(vals: seq<Validator>, v: Validator)
    ensures UniqueAddresses(vals + [v]) <==> UniqueAddresses(vals) && forall u :: u in vals ==> u.address != v.address
  {
    var more := vals + [v];
    if UniqueAddresses(more) {
      forall i, j | 0 <= i < j < |vals| ensures vals[i].address != vals[j].address {
        assert more[i].address != more[j].address;
      }
      forall u | u in vals ensures u.address != v.address {
        var i :| 0 <= i < |vals| && vals[i] == u;
        assert more[i].address != more[|vals|].address;
      }
    }
  }

  lemma TakenOnceSnoc(common: seq<Validator>, sigs: seq<CommitSig>, sig: CommitSig)
    ensures TakenOnce(common, sigs + [sig])
            <==> && TakenOnce(common, sigs)
                 && (Taken(common, sig) ==> forall v :: LunaticIn(common, sigs, v) ==> v.address != sig.address)
  {
    var more := sigs + [sig];
    assert more[|sigs|] == sig && forall j :: 0 <= j < |sigs| ==> more[j] == sigs[j];
    if TakenOnce(common, more) {
      forall i, j | 0 <= i < j < |sigs| && Taken(common, sigs[i]) && Taken(common, sigs[j])
        ensures sigs[i].address != sigs[j].address
      {
        assert more[i].address != more[j].address;
      }
    }
    forall i | 0 <= i < |sigs| && Taken(common, sigs[i])
      ensures LunaticIn(common, sigs, common[Find(common, sigs[i].address)])
    {
    }
  }

  /** A validator is returned once unless its address is in the commit twice. */
  lemma {:induction false} LunaticsOnce(common: seq<Validator>, sigs: seq<CommitSig>)
    ensures UniqueAddresses(Lunatics(common, sigs)) <==> TakenOnce(common, sigs)
  {
    if sigs != [] {
      var (rest, sig) := (sigs[..|sigs| - 1], sigs[|sigs| - 1]);
      assert sigs == rest + [sig];
      LunaticsOnce(common, rest);
      LunaticsStep(common, rest, sig);
      TakenOnceSnoc(common, rest, sig);
      if Taken(common, sig) {
        UniqueSnoc(Lunatics(common, rest), common[Find(common, sig.address)]);
        forall v ensures v in Lunatics(common, rest) <==> LunaticIn(common, rest, v) {
          LunaticsAre(common, rest, v);
        }
      }
    }
  }

  /** The validator has a valid signature for the block under its address. */
  ghost predicate Lunatic(s: Scheme, chainID: string, common: seq<Validator>, commit: Commit, v: Validator) {
    exists k :: k in V.TrustedSigners(s, chainID, common, commit) && common[k] == v
  }

  /** Signature `j` is valid for the validator it is taken for. */
  predicate TakenValid(s: Scheme, chainID: string, common: seq<Validator>, commit: Commit, j: int)
    requires 0 <= j < |commit.signatures| && Taken(common, commit.signatures[j])
  {
    V.SignedBy(s, chainID, common[Find(common, commit.signatures[j].address)], commit, j)
  }

  ghost predicate AllTakenValid(s: Scheme, chainID: string, common: seq<Validator>, commit: Commit) {
    forall j :: 0 <= j < |commit.signatures| && Taken(common, commit.signatures[j]) ==>
      TakenValid(s, chainID, common, commit, j)
  }

  lemma LunaticAt(s: Scheme, chainID: string, common: seq<Validator>, commit: Commit, j: int)
    requires UniqueAddresses(common) && TakenOnce(common, commit.signatures)
    requires 0 <= j < |commit.signatures| && Taken(common, commit.signatures[j])
    ensures Lunatic(s, chainID, common, commit, common[Find(common, commit.signatures[j].address)])
            <==> TakenValid(s, chainID, common, commit, j)
  {
    var k := Find(common, commit.signatures[j].address);
    if Lunatic(s, chainID, common, commit, common[k]) {
      var m :| m in V.TrustedSigners(s, chainID, common, commit) && common[m] == common[k];
      var i: nat :| V.SignedBy(s, chainID, common[m], commit, i);
      assert Taken(common, commit.signatures[i]) && commit.signatures[i].address == commit.signatures[j].address;
      assert i == j;
    }
    if TakenValid(s, chainID, common, commit, j) {
      assert V.SignedBy(s, chainID, common[k], commit, j);
      assert k in V.TrustedSigners(s, chainID, common, commit);
    }
  }

  lemma LunaticsReturned(ev: Attack, common: seq<Validator>, trusted: SignedHeader)
    requires HeaderIsInvalid(ev, trusted.header)
    ensures var r := Byzantine(ev, common, trusted);
            var found := Lunatics(common, ev.conflicting.signed.commit.signatures);
            && (UniqueAddresses(r) <==> UniqueAddresses(found)) && forall v :: v in r <==> v in found
  {
    var (found, r) := (Lunatics(common, ev.conflicting.signed.commit.signatures), Byzantine(ev, common, trusted));
    ByPowerTotal(found);
    SameElements(found, r);
    if UniqueAddresses(r) {
      C.UniqueRearranged(r, found);
    }
    if UniqueAddresses(found) {
      C.UniqueRearranged(found, r);
    }
  }

  /** In the lunatic case each is returned once exactly when no address of the common set
      signs twice, and besides everyone returned has a valid signature exactly when every
      signature taken is valid, read by a check or not. */
  lemma OnlyLunaticsIff(s: Scheme, chainID: string, ev: Attack, common: seq<Validator>, trusted: SignedHeader)
    requires UniqueAddresses(common) && HeaderIsInvalid(ev, trusted.header)
    ensures var (r, commit) := (Byzantine(ev, common, trusted), ev.conflicting.signed.commit);
            && (UniqueAddresses(r) <==> TakenOnce(common, commit.signatures))
            && (UniqueAddresses(r) && (forall v :: v in r ==> Lunatic(s, chainID, common, commit, v))
                <==> TakenOnce(common, commit.signatures) && AllTakenValid(s, chainID, common, commit))
  {
    var (r, commit) := (Byzantine(ev, common, trusted), ev.conflicting.signed.commit);
    LunaticsReturned(ev, common, trusted);
    LunaticsOnce(common, commit.signatures);
    forall v ensures v in r <==> LunaticIn(common, commit.signatures, v) {
      LunaticsAre(common, commit.signatures, v);
    }
    if TakenOnce(common, commit.signatures) {
      forall j | 0 <= j < |commit.signatures| && Taken(common, commit.signatures[j])
        ensures var v := common[Find(common, commit.signatures[j].address)];
                v in r && (Lunatic(s, chainID, common, commit, v) <==> TakenValid(s, chainID, common, commit, j))
      {
        LunaticAt(s, chainID, common, commit, j);
        assert LunaticIn(common, commit.signatures, common[Find(common, commit.signatures[j].address)]);
      }
    }
  }
}
