/** Why an accepted header is on the chain: one step of light verification, when no
    validator set of the chain has more than a third of its power off the chain. */
module LightSafety {
  import opened Common
  import opened Validators
  import opened Votes
  import opened Headers
  import opened TrustLevels
  import opened LightVerifier
  import Int64
  import V = Validation
  import M = ProposerMath

  /** A chain up to some height, and the keys that may sign for blocks not on it. */
  datatype World = World(
    chainID: string, top: int, header: int -> Header, vals: int -> seq<Validator>, faulty: Bytes -> bool)

  ghost function FaultyPositions(w: World, vals: seq<SimpleValidator>): set<int> {
    set i | 0 <= i < |vals| && w.faulty(vals[i].pubKey)
  }

  /** At most a third of the power is with keys that leave the chain. */
  ghost predicate FewFaulty(w: World, vals: seq<Validator>) {
    3 * M.SumIn(Powers(vals), FaultyPositions(w, Simple(vals))) <= TotalPower(vals)
  }

  /** The chain's headers name their heights, their sets and the next sets. */
  ghost predicate ChainAt(p: Params, w: World, h: int) {
    && w.header(h).height == h
    && w.header(h).chainID == w.chainID
    && w.header(h).validatorsHash == ValsHash(p.hashes, w.vals(h)) != []
    && w.header(h).nextValidatorsHash == ValsHash(p.hashes, w.vals(h + 1))
    && WellSized(w.vals(h))
    && FewFaulty(w, w.vals(h))
  }

  /** No other header and no other validator set has a hash of the chain's. */
  ghost predicate NoCollisionAt(p: Params, w: World, h: int) {
    && (forall g: Header :: HeaderHash(p.hashes, g) == HeaderHash(p.hashes, w.header(h)) ==> g == w.header(h))
    && (forall v: seq<SimpleValidator> ::
          p.hashes.ofVals(v) == ValsHash(p.hashes, w.vals(h)) ==> v == Simple(w.vals(h)))
  }

  /** A key that is not faulty precommits only to the chain's block. */
  ghost predicate Faithful(p: Params, w: World, key: Bytes) {
    forall h, round, b, time, sig ::
      1 <= h <= w.top && p.scheme.valid(key, VoteBytes(Precommit, h, round, Some(b), time, w.chainID), sig)
      ==> b.hash == HeaderHash(p.hashes, w.header(h))
  }

  /** What safety rests on, up to the height in question: headers that name their sets,
      hashes without collision, and at most a third of each set's power off the chain. */
  ghost predicate Secure(p: Params, w: World) {
    && Usable(p) && V.BatchesValid(p.scheme)
    && (forall h :: 1 <= h <= w.top ==> ChainAt(p, w, h) && NoCollisionAt(p, w, h))
    && (forall key :: !w.faulty(key) ==> Faithful(p, w, key))
  }

  ghost predicate OnChain(w: World, b: LightBlock) {
    && 1 <= b.signed.header.height <= w.top
    && b.signed.header == w.header(b.signed.header.height)
    && Simple(b.vals) == Simple(w.vals(b.signed.header.height))
  }

  lemma SimplePowers(a: seq<Validator>, b: seq<Validator>)
    requires Simple(a) == Simple(b)
    ensures Powers(a) == Powers(b) && TotalPower(a) == TotalPower(b) && |a| == |b|
    ensures forall i :: 0 <= i < |a| ==> a[i].pubKey == b[i].pubKey
    ensures WellSized(a) <==> WellSized(b)
  {
    assert |Simple(a)| == |a| && |Simple(b)| == |b|;
    forall i | 0 <= i < |a| ensures a[i].pubKey == b[i].pubKey && a[i].power == b[i].power {
      assert Simple(a)[i] == Simple(b)[i];
    }
    assert Powers(a) == Powers(b);
  }

  /** More power than the faulty have: someone faithful is among them. */
  lemma SomeoneFaithful(w: World, vals: seq<Validator>, signers: set<int>) returns (k: int)
    requires WellSized(vals) && FewFaulty(w, vals) && 3 * M.SumIn(Powers(vals), signers) > TotalPower(vals)
    requires forall i :: i in signers ==> 0 <= i < |vals|
    ensures k in signers && !w.faulty(vals[k].pubKey)
  {
    var faulty := FaultyPositions(w, Simple(vals));
    if forall i :: i in signers ==> w.faulty(vals[i].pubKey) {
      forall i | i in signers ensures i in faulty {
        assert Simple(vals)[i].pubKey == vals[i].pubKey;
      }
      M.SumInSubset(Powers(vals), signers, faulty);
      assert false;
    }
    k :| k in signers && !w.faulty(vals[k].pubKey);
  }

  /** One faithful signature on a commit for its block puts the block on the chain. */
  lemma FaithfulSignature(p: Params, w: World, key: Bytes, commit: Commit, j: nat)
    requires Faithful(p, w, key) && 1 <= commit.height <= w.top && !IsNil(commit.blockID)
    requires j < |commit.signatures| && commit.signatures[j].flag == ForBlock
    requires p.scheme.valid(key, CommitSignBytes(w.chainID, commit, j), commit.signatures[j].signature)
    ensures commit.blockID.hash == HeaderHash(p.hashes, w.header(commit.height))
  {
  }

  /** The header and the set then are the chain's. */
  lemma SameBlock(p: Params, w: World, trusted: SignedHeader, b: LightBlock, now: int)
    requires Secure(p, w) && NewHeaderOk(p, b, trusted, now) && b.signed.header.height <= w.top
    requires b.signed.commit.blockID.hash == HeaderHash(p.hashes, w.header(b.signed.commit.height))
    ensures OnChain(w, b)
  {
    var h := b.signed.header.height;
    assert ChainAt(p, w, h) && NoCollisionAt(p, w, h);
    assert HeaderHash(p.hashes, b.signed.header) == HeaderHash(p.hashes, w.header(h));
    assert b.signed.header == w.header(h);
    assert p.hashes.ofVals(Simple(b.vals)) == ValsHash(p.hashes, w.vals(h));
  }

  ghost predicate SignedByThird(p: Params, trusted: LightBlock, commit: Commit) {
    var signers := V.TrustedSigners(p.scheme, trusted.signed.header.chainID, trusted.vals, commit);
    3 * M.SumIn(Powers(trusted.vals), signers) > TotalPower(trusted.vals)
  }

  /** The signers the trusting check counts hold more than a third. */
  lemma TrustingThird(p: Params, trusted: LightBlock, commit: Commit)
    requires Usable(p) && V.BatchesValid(p.scheme) && WellSized(trusted.vals) && Allowed(p.level)
    requires ReadsRight(p.level, TotalPower(trusted.vals)) && TrustingCheck(p, trusted, commit) == None
    ensures SignedByThird(p, trusted, commit)
  {
    var chainID := trusted.signed.header.chainID;
    InRangeTotal(trusted.vals);
    V.TrustingSigners(p.scheme, chainID, trusted.vals, commit, p.level, p.batchable(trusted.vals));
    AsksForAThird(TotalPower(trusted.vals), p.level);
  }

  predicate NeededFails(p: Params, trusted: LightBlock)
    requires Usable(p) && WellSized(trusted.vals)
  {
    InRangeTotal(trusted.vals);
    NeededPower(TotalPower(trusted.vals), p.level).Err?
  }

  /** With a negative needed power even an empty commit passes. */
  lemma NobodySigned(p: Params, trusted: LightBlock)
    requires Usable(p) && WellSized(trusted.vals) && !NeededFails(p, trusted)
    requires Int64.InRange(TotalPower(trusted.vals)) && NeededPower(TotalPower(trusted.vals), p.level).value < 0
    ensures var empty := Commit(1, 0, NIL_BLOCK, []);
            TrustingCheck(p, trusted, empty) == None && !SignedByThird(p, trusted, empty)
  {
    var empty := Commit(1, 0, NIL_BLOCK, []);
    InRangeTotal(trusted.vals);
    assert V.TrustedSigners(p.scheme, trusted.signed.header.chainID, trusted.vals, empty) == {};
    M.SumInEmpty(Powers(trusted.vals));
  }

  /** Whether every commit the trusting check accepts has signers of more than a third of
      the set: exactly when the level reads right, or the check fails on it anyway. */
  lemma TrustingThirdIff(p: Params, trusted: LightBlock)
    requires Usable(p) && V.BatchesValid(p.scheme) && WellSized(trusted.vals) && Allowed(p.level)
    ensures (forall commit :: TrustingCheck(p, trusted, commit) == None ==> SignedByThird(p, trusted, commit))
            <==> ReadsRight(p.level, TotalPower(trusted.vals)) || NeededFails(p, trusted)
  {
    InRangeTotal(trusted.vals);
    var total := TotalPower(trusted.vals);
    if NeededPower(total, p.level).Ok? {
      AsksForAThird(total, p.level);
      if ReadsRight(p.level, total) {
        forall commit | TrustingCheck(p, trusted, commit) == None ensures SignedByThird(p, trusted, commit) {
          TrustingThird(p, trusted, commit);
        }
      } else {
        NobodySigned(p, trusted);
      }
    }
  }

  /** For a level that reads wrong, a header that nobody of the trusted set signed is
      accepted all the same. */
  lemma UnsafeLevel(p: Params, trusted: LightBlock, b: LightBlock, now: int)
    requires Usable(p) && V.BatchesValid(p.scheme) && WellSized(trusted.vals) && Allowed(p.level)
    requires !ReadsRight(p.level, TotalPower(trusted.vals)) && !NeededFails(p, trusted)
    requires RequiredFields(trusted.signed.header) && b.signed.header.height != trusted.signed.header.height + 1
    requires !HeaderExpired(b.signed, p.trustingPeriod, now) && NewHeaderOk(p, b, trusted.signed, now)
    requires LightCheck(p, trusted.signed.header.chainID, b) == None
    requires forall j :: 0 <= j < |b.signed.commit.signatures| ==>
               Find(trusted.vals, b.signed.commit.signatures[j].address) < 0
    ensures VerifyNonAdjacent(p, trusted, b, now) == None
  {
    var (total, commit) := (TotalPower(trusted.vals), b.signed.commit);
    InRangeTotal(trusted.vals);
    AsksForAThird(total, p.level);
    V.VerifyCommitLightTrustingIff(p.scheme, trusted.signed.header.chainID, trusted.vals, commit, p.level,
                                   p.batchable(trusted.vals));
  }

  lemma FaithfulTrusted(p: Params, w: World, trusted: LightBlock, commit: Commit)
    requires Secure(p, w) && OnChain(w, trusted) && WellSized(trusted.vals) && Allowed(p.level)
    requires ReadsRight(p.level, TotalPower(trusted.vals)) && TrustingCheck(p, trusted, commit) == None
    requires 1 <= commit.height <= w.top && !IsNil(commit.blockID)
    ensures commit.blockID.hash == HeaderHash(p.hashes, w.header(commit.height))
  {
    var h := trusted.signed.header.height;
    assert ChainAt(p, w, h);
    SimplePowers(trusted.vals, w.vals(h));
    TrustingThird(p, trusted, commit);
    var k := SomeoneFaithful(w, trusted.vals, V.TrustedSigners(p.scheme, w.chainID, trusted.vals, commit));
    var j: nat :| V.SignedBy(p.scheme, w.chainID, trusted.vals[k], commit, j);
    FaithfulSignature(p, w, trusted.vals[k].pubKey, commit, j);
  }

  lemma NonAdjacentSafe(p: Params, w: World, trusted: LightBlock, b: LightBlock, now: int)
    requires Secure(p, w) && OnChain(w, trusted) && WellSized(trusted.vals)
    requires ReadsRight(p.level, TotalPower(trusted.vals)) && b.signed.header.height <= w.top
    requires VerifyNonAdjacent(p, trusted, b, now) == None
    ensures OnChain(w, b)
  {
    FaithfulTrusted(p, w, trusted, b.signed.commit);
    SameBlock(p, w, trusted.signed, b, now);
  }

  /** The signers the light check counts hold more than two thirds. */
  lemma LightThird(p: Params, chainID: string, b: LightBlock)
    requires V.BatchesValid(p.scheme) && WellSized(b.vals) && LightCheck(p, chainID, b) == None
    ensures |b.signed.commit.signatures| == |b.vals|
    ensures var signers := V.ValidForBlock(p.scheme, chainID, b.vals, b.signed.commit);
            3 * M.SumIn(Powers(b.vals), signers) > TotalPower(b.vals)
  {
    InRangeTotal(b.vals);
    V.LightSigners(p.scheme, chainID, b.vals, b.signed.commit.blockID, b.signed.header.height, b.signed.commit,
                   p.batchable(b.vals));
  }

  lemma FaithfulNext(p: Params, w: World, b: LightBlock)
    requires Secure(p, w) && 1 <= b.signed.header.height <= w.top
    requires Simple(b.vals) == Simple(w.vals(b.signed.header.height))
    requires 1 <= b.signed.commit.height <= w.top && !IsNil(b.signed.commit.blockID)
    requires LightCheck(p, w.chainID, b) == None
    ensures b.signed.commit.blockID.hash == HeaderHash(p.hashes, w.header(b.signed.commit.height))
  {
    var (h, commit) := (b.signed.header.height, b.signed.commit);
    assert ChainAt(p, w, h);
    SimplePowers(b.vals, w.vals(h));
    LightThird(p, w.chainID, b);
    var k := SomeoneFaithful(w, b.vals, V.ValidForBlock(p.scheme, w.chainID, b.vals, commit));
    FaithfulSignature(p, w, b.vals[k].pubKey, commit, k);
  }

  lemma AdjacentSafe(p: Params, w: World, trusted: LightBlock, b: LightBlock, now: int)
    requires Secure(p, w) && OnChain(w, trusted)
    requires VerifyAdjacent(p, trusted, b, now) == None && b.signed.header.height <= w.top
    ensures OnChain(w, b)
  {
    var h := trusted.signed.header.height;
    assert ChainAt(p, w, h) && NoCollisionAt(p, w, h + 1);
    assert p.hashes.ofVals(Simple(b.vals)) == ValsHash(p.hashes, w.vals(h + 1));
    FaithfulNext(p, w, b);
    SameBlock(p, w, trusted.signed, b, now);
  }

  /** A header that Verify accepts from a block on the chain is on the chain, for every
      level if it is adjacent, and else for a level that reads right. */
  lemma StepSafe(p: Params, w: World, trusted: LightBlock, b: LightBlock, now: int)
    requires Secure(p, w) && OnChain(w, trusted) && WellSized(trusted.vals)
    requires Verify(p, trusted, b, now) == None && b.signed.header.height <= w.top
    requires b.signed.header.height == trusted.signed.header.height + 1 || ReadsRight(p.level, TotalPower(trusted.vals))
    ensures OnChain(w, b) && WellSized(b.vals)
  {
    if b.signed.header.height == trusted.signed.header.height + 1 {
      AdjacentSafe(p, w, trusted, b, now);
    } else {
      NonAdjacentSafe(p, w, trusted, b, now);
    }
    assert ChainAt(p, w, b.signed.header.height);
    SimplePowers(b.vals, w.vals(b.signed.header.height));
  }

  /** The next block carries the set that the trusted one names. */
  lemma NextNamed(p: Params, w: World, trusted: LightBlock, b: LightBlock)
    requires Secure(p, w) && OnChain(w, trusted) && OnChain(w, b)
    requires b.signed.header.height == trusted.signed.header.height + 1
    ensures trusted.signed.header.chainID == w.chainID && WellSized(b.vals)
    ensures b.signed.header.validatorsHash == ValsHash(p.hashes, b.vals)
            == trusted.signed.header.nextValidatorsHash != []
  {
    var h := trusted.signed.header.height;
    assert ChainAt(p, w, h) && ChainAt(p, w, h + 1);
    SimplePowers(b.vals, w.vals(h + 1));
  }

  lemma CommitChecks(p: Params, chainID: string, b: LightBlock, k: nat)
    requires V.BatchesValid(p.scheme) && WellSized(b.vals) && SignedHeaderBasic(p.hashes, b.signed, chainID)
    requires |b.signed.commit.signatures| == |b.vals|
    requires V.EnoughPrefix(V.LightCheck(p.scheme, chainID, b.vals, b.signed.commit), 0, k)
    ensures LightCheck(p, chainID, b) == None
  {
    V.VerifyCommitLightIff(p.scheme, chainID, b.vals, b.signed.commit.blockID, b.signed.header.height,
                           b.signed.commit, p.batchable(b.vals));
  }

  /** And the chain's next block is accepted, once its commit has a prefix of valid
      signatures with more than two thirds, inside the trusting period and clock drift. */
  lemma NextBlockAccepted(p: Params, w: World, trusted: LightBlock, b: LightBlock, now: int, k: nat)
    requires Secure(p, w) && OnChain(w, trusted) && OnChain(w, b) && WellSized(trusted.vals)
    requires b.signed.header.height == trusted.signed.header.height + 1
    requires trusted.signed.header.time != ZERO_TIME && w.chainID != ""
    requires SignedHeaderBasic(p.hashes, b.signed, w.chainID) && |b.signed.commit.signatures| == |b.vals|
    requires trusted.signed.header.time < b.signed.header.time < now + p.maxClockDrift
    requires now < b.signed.header.time + p.trustingPeriod
    requires V.EnoughPrefix(V.LightCheck(p.scheme, w.chainID, b.vals, b.signed.commit), 0, k)
    ensures Verify(p, trusted, b, now) == None
  {
    NextNamed(p, w, trusted, b);
    CommitChecks(p, w.chainID, b, k);
  }
}
