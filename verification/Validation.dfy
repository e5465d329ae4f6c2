/** Checking commits against validator sets (types/validation.go). */
module Validation {
  import opened Common
  import opened Validators
  import opened Votes
  import Int64
  import M = ProposerMath
  import opened TrustLevels

  datatype Error =
    | NotEnoughPower(got: int, needed: int)
    | DoubleVote(index: nat)
    | WrongSignature(index: nat)
    | BatchRefused(index: nat)
    | WrongSize
    | WrongHeight
    | WrongBlockID
    | BadLevel(level: TrustLevels.LevelError)

  /** Which signatures are skipped and counted, whether all are checked, and how
      their validators are found. */
  datatype Mode = Mode(ignore: CommitSig -> bool, count: CommitSig -> bool, countAll: bool, byIndex: bool)

  datatype Check = Check(
    s: Scheme, chainID: string, vals: seq<Validator>, commit: Commit, needed: int, mode: Mode)

  function Sigs(c: Check): seq<CommitSig> {
    c.commit.signatures
  }

  /** Looking up by index needs a validator for every signature. */
  predicate WellPosed(c: Check) {
    c.mode.byIndex ==> |Sigs(c)| <= |c.vals|
  }

  /** The validator of signature `j`, or -1. */
  function Lookup(c: Check, j: nat): (k: int)
    requires WellPosed(c) && j < |Sigs(c)|
    ensures -1 <= k < |c.vals|
  {
    if c.mode.byIndex then j else Find(c.vals, Sigs(c)[j].address)
  }

  predicate SigValid(c: Check, j: nat)
    requires WellPosed(c) && j < |Sigs(c)| && Lookup(c, j) >= 0
  {
    c.s.valid(c.vals[Lookup(c, j)].pubKey, CommitSignBytes(c.chainID, c.commit, j), Sigs(c)[j].signature)
  }

  function Enough(c: Check, tally: int): Option<Error> {
    if tally <= c.needed then Some(NotEnoughPower(tally, c.needed)) else None
  }

  /** What signature `j` adds to the tally. */
  function Adds(c: Check, j: nat): int
    requires WellPosed(c) && j < |Sigs(c)| && Lookup(c, j) >= 0
  {
    if c.mode.count(Sigs(c)[j]) then c.vals[Lookup(c, j)].power else 0
  }

  // ----- one signature at a time

  /** verifyCommitSingle from signature `j` on; None is acceptance. */
  function SingleFrom(c: Check, j: nat, tally: int, seen: set<int>): Option<Error>
    requires WellPosed(c) && j <= |Sigs(c)|
    decreases |Sigs(c)| - j
  {
    if j == |Sigs(c)| then Enough(c, tally)
    else if c.mode.ignore(Sigs(c)[j]) || Lookup(c, j) < 0 then SingleFrom(c, j + 1, tally, seen)
    else
      var k := Lookup(c, j);
      if !c.mode.byIndex && k in seen then Some(DoubleVote(j))
      else if !SigValid(c, j) then Some(WrongSignature(j))
      else if !c.mode.countAll && tally + Adds(c, j) > c.needed then None
      else SingleFrom(c, j + 1, tally + Adds(c, j), seen + {k})
  }

  method VerifyCommitSingle(c: Check) returns (r: Option<Error>)
    requires WellPosed(c)
    ensures r == SingleFrom(c, 0, 0, {})
  {
    var tally, seen := 0, {};
    for j := 0 to |Sigs(c)|
      invariant SingleFrom(c, j, tally, seen) == SingleFrom(c, 0, 0, {})
    {
      var sig := Sigs(c)[j];
      if !c.mode.ignore(sig) && Lookup(c, j) >= 0 {
        var k := Lookup(c, j);
        if !c.mode.byIndex && k in seen {
          return Some(DoubleVote(j));
        }
        seen := seen + {k};
        if !SigValid(c, j) {
          return Some(WrongSignature(j));
        }
        if c.mode.count(sig) {
          tally := tally + c.vals[k].power;
        }
        if !c.mode.countAll && tally > c.needed {
          return None;
        }
      }
    }
    return Enough(c, tally);
  }

  // ----- all signatures in a batch

  predicate Batched(c: Check, batch: seq<nat>)
    requires WellPosed(c)
  {
    forall i :: 0 <= i < |batch| ==> batch[i] < |Sigs(c)| && Lookup(c, batch[i]) >= 0
  }

  /** The batch is verified last: the first bad entry, if any. */
  function FirstBad(c: Check, batch: seq<nat>): Option<Error>
    requires WellPosed(c) && Batched(c, batch)
  {
    if batch == [] then None
    else if !SigValid(c, batch[0]) then Some(WrongSignature(batch[0]))
    else FirstBad(c, batch[1..])
  }

  function FinishBatch(c: Check, tally: int, batch: seq<nat>): Option<Error>
    requires WellPosed(c) && Batched(c, batch)
  {
    if tally <= c.needed then Some(NotEnoughPower(tally, c.needed)) else FirstBad(c, batch)
  }

  /** verifyCommitBatch from signature `j` on. */
  function BatchFrom(c: Check, j: nat, tally: int, seen: set<int>, batch: seq<nat>): Option<Error>
    requires WellPosed(c) && j <= |Sigs(c)| && Batched(c, batch)
    decreases |Sigs(c)| - j
  {
    if j == |Sigs(c)| then FinishBatch(c, tally, batch)
    else if c.mode.ignore(Sigs(c)[j]) || Lookup(c, j) < 0 then BatchFrom(c, j + 1, tally, seen, batch)
    else
      var k := Lookup(c, j);
      if !c.mode.byIndex && k in seen then Some(DoubleVote(j))
      else if !c.s.batchable(c.vals[k].pubKey, Sigs(c)[j].signature) then Some(BatchRefused(j))
      else if !c.mode.countAll && tally + Adds(c, j) > c.needed then FinishBatch(c, tally + Adds(c, j), batch + [j])
      else BatchFrom(c, j + 1, tally + Adds(c, j), seen + {k}, batch + [j])
  }

  method VerifyCommitBatch(c: Check) returns (r: Option<Error>)
    requires WellPosed(c)
    ensures r == BatchFrom(c, 0, 0, {}, [])
  {
    var tally, seen, batch: seq<nat> := 0, {}, [];
    var j := 0;
    while j < |Sigs(c)|
      invariant 0 <= j <= |Sigs(c)| && Batched(c, batch)
      invariant BatchFrom(c, j, tally, seen, batch) == BatchFrom(c, 0, 0, {}, [])
    {
      var sig := Sigs(c)[j];
      if !c.mode.ignore(sig) && Lookup(c, j) >= 0 {
        var k := Lookup(c, j);
        if !c.mode.byIndex && k in seen {
          return Some(DoubleVote(j));
        }
        seen := seen + {k};
        if !c.s.batchable(c.vals[k].pubKey, sig.signature) {
          return Some(BatchRefused(j));
        }
        batch := batch + [j];
        if c.mode.count(sig) {
          tally := tally + c.vals[k].power;
        }
        if !c.mode.countAll && tally > c.needed {
          return FinishBatch(c, tally, batch);
        }
      }
      j := j + 1;
    }
    return FinishBatch(c, tally, batch);
  }

  /** A valid signature is one the batch verifier takes (one batchable key type). */
  ghost predicate BatchesValid(s: Scheme) {
    forall key, msg, sig :: s.valid(key, msg, sig) ==> s.batchable(key, sig)
  }

  // ----- when the two forms give the same error

  /** The pass of the batch form that looks at no signature: what it stops at. */
  function ScanFrom(c: Check, j: nat, tally: int, seen: set<int>): Option<Error>
    requires WellPosed(c) && j <= |Sigs(c)|
    decreases |Sigs(c)| - j
  {
    if j == |Sigs(c)| then Enough(c, tally)
    else if c.mode.ignore(Sigs(c)[j]) || Lookup(c, j) < 0 then ScanFrom(c, j + 1, tally, seen)
    else
      var k := Lookup(c, j);
      if !c.mode.byIndex && k in seen then Some(DoubleVote(j))
      else if !c.s.batchable(c.vals[k].pubKey, Sigs(c)[j].signature) then Some(BatchRefused(j))
      else if !c.mode.countAll && tally + Adds(c, j) > c.needed then None
      else ScanFrom(c, j + 1, tally + Adds(c, j), seen + {k})
  }

  /** Every signature that pass comes to is valid. */
  predicate ReachedValid(c: Check, j: nat, tally: int, seen: set<int>)
    requires WellPosed(c) && j <= |Sigs(c)|
    decreases |Sigs(c)| - j
  {
    if j == |Sigs(c)| then true
    else if c.mode.ignore(Sigs(c)[j]) || Lookup(c, j) < 0 then ReachedValid(c, j + 1, tally, seen)
    else
      var k := Lookup(c, j);
      if !c.mode.byIndex && k in seen then true
      else if !SigValid(c, j) then false
      else if !c.mode.countAll && tally + Adds(c, j) > c.needed then true
      else ReachedValid(c, j + 1, tally + Adds(c, j), seen + {k})
  }

  lemma {:induction false} SingleScans(c: Check, j: nat, tally: int, seen: set<int>)
    requires WellPosed(c) && j <= |Sigs(c)| && BatchesValid(c.s)
    ensures ReachedValid(c, j, tally, seen) ==> SingleFrom(c, j, tally, seen) == ScanFrom(c, j, tally, seen)
    ensures !ReachedValid(c, j, tally, seen) ==>
              SingleFrom(c, j, tally, seen).Some? && SingleFrom(c, j, tally, seen).value.WrongSignature?
    ensures ScanFrom(c, j, tally, seen).Some? ==> !ScanFrom(c, j, tally, seen).value.WrongSignature?
    decreases |Sigs(c)| - j
  {
    if j < |Sigs(c)| {
      if c.mode.ignore(Sigs(c)[j]) || Lookup(c, j) < 0 {
        SingleScans(c, j + 1, tally, seen);
      } else {
        SingleScans(c, j + 1, tally + Adds(c, j), seen + {Lookup(c, j)});
      }
    }
  }

  lemma {:induction false} FirstBadSnoc(c: Check, batch: seq<nat>, j: nat)
    requires WellPosed(c) && Batched(c, batch) && j < |Sigs(c)| && Lookup(c, j) >= 0
    ensures Batched(c, batch + [j])
    ensures FirstBad(c, batch + [j]) == if FirstBad(c, batch).Some? then FirstBad(c, batch)
                                        else if SigValid(c, j) then None else Some(WrongSignature(j))
  {
    if batch != [] {
      FirstBadSnoc(c, batch[1..], j);
      assert (batch + [j])[1..] == batch[1..] + [j];
    }
  }

  /** The batch form reports what the pass stops at, and else the first bad signature. */
  lemma {:induction false} BatchScans(c: Check, j: nat, tally: int, seen: set<int>, batch: seq<nat>)
    requires WellPosed(c) && j <= |Sigs(c)| && Batched(c, batch) && BatchesValid(c.s)
    ensures BatchFrom(c, j, tally, seen, batch) ==
              if ScanFrom(c, j, tally, seen).Some? then ScanFrom(c, j, tally, seen)
              else if FirstBad(c, batch).Some? then FirstBad(c, batch)
              else SingleFrom(c, j, tally, seen)
    decreases |Sigs(c)| - j
  {
    if j < |Sigs(c)| {
      if c.mode.ignore(Sigs(c)[j]) || Lookup(c, j) < 0 {
        BatchScans(c, j + 1, tally, seen, batch);
      } else {
        FirstBadSnoc(c, batch, j);
        BatchScans(c, j + 1, tally + Adds(c, j), seen + {Lookup(c, j)}, batch + [j]);
      }
    }
  }

  /** The two forms return the same, error and all, exactly when every signature the pass
      comes to is valid or the pass stops at no fault of its own. */
  lemma SameErrorIff(c: Check)
    requires WellPosed(c) && BatchesValid(c.s)
    ensures BatchFrom(c, 0, 0, {}, []) == SingleFrom(c, 0, 0, {})
            <==> ReachedValid(c, 0, 0, {}) || ScanFrom(c, 0, 0, {}) == None
  {
    BatchScans(c, 0, 0, {}, []);
    SingleScans(c, 0, 0, {});
  }

  /** The batch form accepts exactly what the one-at-a-time form accepts, in every
      mode, although it checks powers before signatures. */
  lemma BatchIsSingle(c: Check)
    requires WellPosed(c) && BatchesValid(c.s)
    ensures BatchFrom(c, 0, 0, {}, []) == None <==> SingleFrom(c, 0, 0, {}) == None
  {
    BatchScans(c, 0, 0, {}, []);
    SingleScans(c, 0, 0, {});
  }

  /** When the single form finds too little power, so does the batch form. */
  lemma NotEnoughEither(c: Check)
    requires WellPosed(c) && BatchesValid(c.s)
    requires SingleFrom(c, 0, 0, {}).Some? && SingleFrom(c, 0, 0, {}).value.NotEnoughPower?
    ensures BatchFrom(c, 0, 0, {}, []) == SingleFrom(c, 0, 0, {})
  {
    BatchScans(c, 0, 0, {}, []);
    SingleScans(c, 0, 0, {});
  }

  // ----- what acceptance means

  /** Signature `j` is by a validator of the set, valid and counted. */
  predicate Counts(c: Check, j: nat)
    requires WellPosed(c) && j < |Sigs(c)|
  {
    !c.mode.ignore(Sigs(c)[j]) && Lookup(c, j) >= 0 && c.mode.count(Sigs(c)[j]) && SigValid(c, j)
  }

  /** The positions of the validators with a valid counted signature. */
  ghost function Signers(c: Check): set<int>
    requires WellPosed(c)
  {
    set j | 0 <= j < |Sigs(c)| && Counts(c, j) :: Lookup(c, j)
  }

  ghost predicate NonNegative(vals: seq<Validator>) {
    forall i :: 0 <= i < |vals| ==> vals[i].power >= 0
  }

  /** The tally so far is the power of the distinct validators counted so far. */
  ghost predicate Tallied(c: Check, j: nat, tally: int, seen: set<int>, counted: set<int>)
    requires WellPosed(c)
  {
    && tally == M.SumIn(Powers(c.vals), counted)
    && counted <= Signers(c)
    && (if c.mode.byIndex then forall k :: k in counted ==> k < j else counted <= seen)
  }

  ghost function AlsoCounted(c: Check, j: nat, counted: set<int>): set<int>
    requires WellPosed(c) && j < |Sigs(c)|
  {
    if c.mode.count(Sigs(c)[j]) then counted + {Lookup(c, j)} else counted
  }

  lemma CountOne(c: Check, j: nat, tally: int, seen: set<int>, counted: set<int>)
    requires WellPosed(c) && j < |Sigs(c)| && Tallied(c, j, tally, seen, counted)
    requires !c.mode.ignore(Sigs(c)[j]) && Lookup(c, j) >= 0 && SigValid(c, j)
    requires c.mode.byIndex || Lookup(c, j) !in seen
    ensures Tallied(c, j + 1, tally + Adds(c, j), seen + {Lookup(c, j)}, AlsoCounted(c, j, counted))
  {
    if c.mode.count(Sigs(c)[j]) {
      assert Counts(c, j);
      M.SumInAdd(Powers(c.vals), counted, Lookup(c, j));
    }
  }

  lemma TallyBelowSigners(c: Check, j: nat, tally: int, seen: set<int>, counted: set<int>)
    requires WellPosed(c) && NonNegative(c.vals) && Tallied(c, j, tally, seen, counted)
    ensures tally <= M.SumIn(Powers(c.vals), Signers(c)) <= TotalPower(c.vals)
  {
    M.SumInSubset(Powers(c.vals), counted, Signers(c));
    M.SumInAtMostSum(Powers(c.vals), Signers(c));
  }

  /** Acceptance means distinct validators with valid signatures hold more than the
      needed power. */
  lemma {:induction false} AcceptMeans(c: Check, j: nat, tally: int, seen: set<int>, counted: set<int>)
    requires WellPosed(c) && j <= |Sigs(c)| && NonNegative(c.vals)
    requires Tallied(c, j, tally, seen, counted) && SingleFrom(c, j, tally, seen) == None
    ensures M.SumIn(Powers(c.vals), Signers(c)) > c.needed
    decreases |Sigs(c)| - j
  {
    if j == |Sigs(c)| {
      TallyBelowSigners(c, j, tally, seen, counted);
    } else if c.mode.ignore(Sigs(c)[j]) || Lookup(c, j) < 0 {
      AcceptMeans(c, j + 1, tally, seen, counted);
    } else {
      CountOne(c, j, tally, seen, counted);
      var (k, more) := (Lookup(c, j), AlsoCounted(c, j, counted));
      TallyBelowSigners(c, j + 1, tally + Adds(c, j), seen + {k}, more);
      if c.mode.countAll || tally + Adds(c, j) <= c.needed {
        AcceptMeans(c, j + 1, tally + Adds(c, j), seen + {k}, more);
      }
    }
  }

  /** Both forms, from the start. */
  lemma Accepted(c: Check)
    requires WellPosed(c) && NonNegative(c.vals) && BatchesValid(c.s)
    ensures BatchFrom(c, 0, 0, {}, []) == None <==> SingleFrom(c, 0, 0, {}) == None
    ensures SingleFrom(c, 0, 0, {}) == None ==> M.SumIn(Powers(c.vals), Signers(c)) > c.needed
  {
    BatchIsSingle(c);
    if SingleFrom(c, 0, 0, {}) == None {
      M.SumInEmpty(Powers(c.vals));
      AcceptMeans(c, 0, 0, {}, {});
    }
  }

  // ----- the three public checks

  function TwoThirds(vals: seq<Validator>): int {
    TotalPower(vals) * 2 / 3
  }

  /** VerifyCommit's mode: check every signature that is there, count those for
      the block. */
  function FullMode(): Mode {
    Mode((s: CommitSig) => s.flag == Absent, (s: CommitSig) => s.flag == ForBlock, true, true)
  }

  /** The light modes: look only at signatures for the block and stop early. */
  function LightMode(byIndex: bool): Mode {
    Mode((s: CommitSig) => s.flag != ForBlock, (s: CommitSig) => true, false, byIndex)
  }

  /** verifyBasicValsAndCommit. */
  function BasicError(vals: seq<Validator>, blockID: BlockID, height: int, commit: Commit): Option<Error> {
    if |vals| != |commit.signatures| then Some(WrongSize)
    else if height != commit.height then Some(WrongHeight)
    else if blockID != commit.blockID then Some(WrongBlockID)
    else None
  }

  const BATCH_VERIFY_THRESHOLD: nat := 2

  /** The batch form is used for two signatures or more, when the proposer's key
      type supports it. */
  function RunCheck(c: Check, supported: bool): Option<Error>
    requires WellPosed(c)
  {
    if |Sigs(c)| >= BATCH_VERIFY_THRESHOLD && supported then BatchFrom(c, 0, 0, {}, []) else SingleFrom(c, 0, 0, {})
  }

  function VerifyCommit(s: Scheme, chainID: string, vals: seq<Validator>, blockID: BlockID, height: int,
      commit: Commit, supported: bool): Option<Error> {
    if BasicError(vals, blockID, height, commit).Some? then BasicError(vals, blockID, height, commit)
    else RunCheck(Check(s, chainID, vals, commit, TwoThirds(vals), FullMode()), supported)
  }

  function VerifyCommitLight(s: Scheme, chainID: string, vals: seq<Validator>, blockID: BlockID, height: int,
      commit: Commit, supported: bool): Option<Error> {
    if BasicError(vals, blockID, height, commit).Some? then BasicError(vals, blockID, height, commit)
    else RunCheck(Check(s, chainID, vals, commit, TwoThirds(vals), LightMode(true)), supported)
  }

  // ----- the trusting check

  function VerifyCommitLightTrusting(s: Scheme, chainID: string, vals: seq<Validator>, commit: Commit,
      level: Fraction, supported: bool): Option<Error>
    requires Int64.InRange(TotalPower(vals)) && IsFraction(level)
  {
    match NeededPower(TotalPower(vals), level)
    case Err(e) => Some(BadLevel(e))
    case Ok(needed) => RunCheck(Check(s, chainID, vals, commit, needed, LightMode(false)), supported)
  }

  // ----- exactly what the two-thirds checks accept

  /** The positions before `j` whose signature is for the block. */
  ghost function ForBlockBefore(commit: Commit, j: nat): set<int>
    requires j <= |commit.signatures|
  {
    set i | 0 <= i < j && commit.signatures[i].flag == ForBlock
  }

  predicate IndexValid(s: Scheme, chainID: string, vals: seq<Validator>, commit: Commit, i: nat)
    requires i < |commit.signatures| <= |vals|
  {
    s.valid(vals[i].pubKey, CommitSignBytes(chainID, commit, i), commit.signatures[i].signature)
  }

  lemma ForBlockStep(vals: seq<Validator>, commit: Commit, j: nat)
    requires j < |commit.signatures| <= |vals|
    ensures M.SumIn(Powers(vals), ForBlockBefore(commit, j + 1))
            == M.SumIn(Powers(vals), ForBlockBefore(commit, j))
               + (if commit.signatures[j].flag == ForBlock then vals[j].power else 0)
  {
    if commit.signatures[j].flag == ForBlock {
      assert ForBlockBefore(commit, j + 1) == ForBlockBefore(commit, j) + {j};
      M.SumInAdd(Powers(vals), ForBlockBefore(commit, j), j);
    } else {
      assert ForBlockBefore(commit, j + 1) == ForBlockBefore(commit, j);
    }
  }

  lemma {:induction false} FullFrom(c: Check, j: nat, seen: set<int>)
    requires c.mode == FullMode() && |Sigs(c)| <= |c.vals| && j <= |Sigs(c)|
    ensures SingleFrom(c, j, M.SumIn(Powers(c.vals), ForBlockBefore(c.commit, j)), seen) == None
            <==> && (forall i :: j <= i < |Sigs(c)| && Sigs(c)[i].flag != Absent ==>
                                   IndexValid(c.s, c.chainID, c.vals, c.commit, i))
                 && M.SumIn(Powers(c.vals), ForBlockBefore(c.commit, |Sigs(c)|)) > c.needed
    decreases |Sigs(c)| - j
  {
    if j < |Sigs(c)| {
      ForBlockStep(c.vals, c.commit, j);
      FullFrom(c, j + 1, if Sigs(c)[j].flag == Absent then seen else seen + {j});
    }
  }

  /** VerifyCommit accepts exactly the commits of the right size, height and block
      in which every signature that is there is valid and those for the block have
      more than two thirds of the power. */
  lemma VerifyCommitIff(s: Scheme, chainID: string, vals: seq<Validator>, blockID: BlockID, height: int,
      commit: Commit, supported: bool)
    requires BatchesValid(s) && NonNegative(vals)
    ensures VerifyCommit(s, chainID, vals, blockID, height, commit, supported) == None
            <==> && BasicError(vals, blockID, height, commit) == None
                 && (forall i :: 0 <= i < |commit.signatures| && commit.signatures[i].flag != Absent
                       ==> IndexValid(s, chainID, vals, commit, i))
                 && M.SumIn(Powers(vals), ForBlockBefore(commit, |commit.signatures|)) > TwoThirds(vals)
  {
    if BasicError(vals, blockID, height, commit) == None {
      var c := Check(s, chainID, vals, commit, TwoThirds(vals), FullMode());
      Accepted(c);
      M.SumInEmpty(Powers(vals));
      assert ForBlockBefore(commit, 0) == {};
      FullFrom(c, 0, {});
    }
  }

  /** A prefix of the signatures that is enough by itself. */
  ghost predicate EnoughPrefix(c: Check, j: nat, k: nat)
    requires |Sigs(c)| <= |c.vals|
  {
    && j <= k <= |Sigs(c)|
    && (forall i :: j <= i < k && Sigs(c)[i].flag == ForBlock ==> IndexValid(c.s, c.chainID, c.vals, c.commit, i))
    && M.SumIn(Powers(c.vals), ForBlockBefore(c.commit, k)) > c.needed
  }

  ghost predicate HasPrefix(c: Check, j: nat)
    requires |Sigs(c)| <= |c.vals|
  {
    exists k: nat :: EnoughPrefix(c, j, k)
  }

  lemma PrefixStep(c: Check, j: nat)
    requires |Sigs(c)| <= |c.vals| && j < |Sigs(c)|
    requires M.SumIn(Powers(c.vals), ForBlockBefore(c.commit, j)) <= c.needed
    ensures HasPrefix(c, j)
            <==> (Sigs(c)[j].flag == ForBlock ==> IndexValid(c.s, c.chainID, c.vals, c.commit, j))
                 && HasPrefix(c, j + 1)
  {
    var next := j + 1;
    if k: nat :| EnoughPrefix(c, j, k) {
      assert k != j;
      assert EnoughPrefix(c, j + 1, k);
    }
    if Sigs(c)[j].flag == ForBlock ==> IndexValid(c.s, c.chainID, c.vals, c.commit, j) {
      if k: nat :| EnoughPrefix(c, next, k) {
        assert EnoughPrefix(c, j, k);
      }
    }
  }

  lemma {:induction false} LightFrom(c: Check, j: nat, seen: set<int>)
    requires c.mode == LightMode(true) && |Sigs(c)| <= |c.vals| && j <= |Sigs(c)|
    requires M.SumIn(Powers(c.vals), ForBlockBefore(c.commit, j)) <= c.needed
    ensures SingleFrom(c, j, M.SumIn(Powers(c.vals), ForBlockBefore(c.commit, j)), seen) == None
            <==> HasPrefix(c, j)
    decreases |Sigs(c)| - j
  {
    if j < |Sigs(c)| {
      ForBlockStep(c.vals, c.commit, j);
      var more := M.SumIn(Powers(c.vals), ForBlockBefore(c.commit, j + 1));
      var forBlock := Sigs(c)[j].flag == ForBlock;
      PrefixStep(c, j);
      if forBlock && more > c.needed {
        if IndexValid(c.s, c.chainID, c.vals, c.commit, j) {
          assert EnoughPrefix(c, j, j + 1);
        }
      } else {
        LightFrom(c, j + 1, if forBlock then seen + {j} else seen);
      }
    }
  }

  function LightCheck(s: Scheme, chainID: string, vals: seq<Validator>, commit: Commit): Check {
    Check(s, chainID, vals, commit, TwoThirds(vals), LightMode(true))
  }

  /** VerifyCommitLight accepts exactly when some prefix of the signatures for the
      block is valid and has more than two thirds of the power. */
  lemma VerifyCommitLightIff(s: Scheme, chainID: string, vals: seq<Validator>, blockID: BlockID, height: int,
      commit: Commit, supported: bool)
    requires BatchesValid(s) && NonNegative(vals)
    ensures VerifyCommitLight(s, chainID, vals, blockID, height, commit, supported) == None
            <==> && BasicError(vals, blockID, height, commit) == None
                 && HasPrefix(LightCheck(s, chainID, vals, commit), 0)
  {
    if BasicError(vals, blockID, height, commit) == None {
      var c := LightCheck(s, chainID, vals, commit);
      Accepted(c);
      M.SumInEmpty(Powers(vals));
      SumBoundsLow(Powers(vals));
      assert ForBlockBefore(commit, 0) == {};
      LightFrom(c, 0, {});
    }
  }

  /** Where the light check stops: the first prefix with more than two thirds. */
  ghost function LightStop(vals: seq<Validator>, commit: Commit, j: nat): nat
    requires j <= |commit.signatures| <= |vals|
    decreases |commit.signatures| - j
  {
    if j == |commit.signatures| || M.SumIn(Powers(vals), ForBlockBefore(commit, j)) > TwoThirds(vals) then j
    else LightStop(vals, commit, j + 1)
  }

  lemma {:induction false} LightStopIs(vals: seq<Validator>, commit: Commit, j: nat)
    requires j <= |commit.signatures| <= |vals|
    ensures var stop := LightStop(vals, commit, j);
            && j <= stop <= |commit.signatures|
            && (stop < |commit.signatures| ==> M.SumIn(Powers(vals), ForBlockBefore(commit, stop)) > TwoThirds(vals))
            && forall k :: j <= k < stop ==> M.SumIn(Powers(vals), ForBlockBefore(commit, k)) <= TwoThirds(vals)
    decreases |commit.signatures| - j
  {
    if j < |commit.signatures| && M.SumIn(Powers(vals), ForBlockBefore(commit, j)) <= TwoThirds(vals) {
      LightStopIs(vals, commit, j + 1);
    }
  }

  /** VerifyCommitLight looks at the signatures for the block up to that prefix and at no
      others. */
  lemma LightLooksAt(s: Scheme, chainID: string, vals: seq<Validator>, blockID: BlockID, height: int, commit: Commit,
      supported: bool)
    requires BatchesValid(s) && NonNegative(vals)
    ensures VerifyCommitLight(s, chainID, vals, blockID, height, commit, supported) == None
            <==> && BasicError(vals, blockID, height, commit) == None
                 && EnoughPrefix(LightCheck(s, chainID, vals, commit), 0, LightStop(vals, commit, 0))
  {
    VerifyCommitLightIff(s, chainID, vals, blockID, height, commit, supported);
    if BasicError(vals, blockID, height, commit) == None {
      var c := LightCheck(s, chainID, vals, commit);
      LightStopIs(vals, commit, 0);
      if k: nat :| EnoughPrefix(c, 0, k) {
        assert LightStop(vals, commit, 0) <= k;
      }
    }
  }

  /** What the full check accepts, the light check accepts. */
  lemma FullImpliesLight(s: Scheme, chainID: string, vals: seq<Validator>, blockID: BlockID, height: int,
      commit: Commit, b1: bool, b2: bool)
    requires BatchesValid(s) && NonNegative(vals)
    requires VerifyCommit(s, chainID, vals, blockID, height, commit, b1) == None
    ensures VerifyCommitLight(s, chainID, vals, blockID, height, commit, b2) == None
  {
    VerifyCommitIff(s, chainID, vals, blockID, height, commit, b1);
    VerifyCommitLightIff(s, chainID, vals, blockID, height, commit, b2);
    assert EnoughPrefix(LightCheck(s, chainID, vals, commit), 0, |commit.signatures|);
  }

  /** The positions with a valid signature for the block. */
  ghost function ValidForBlock(s: Scheme, chainID: string, vals: seq<Validator>, commit: Commit): set<int>
    requires |commit.signatures| <= |vals|
  {
    set i | && 0 <= i < |commit.signatures| && commit.signatures[i].flag == ForBlock
            && IndexValid(s, chainID, vals, commit, i)
  }

  /** The validators that signed for the block hold more than two thirds. */
  lemma LightSigners(s: Scheme, chainID: string, vals: seq<Validator>, blockID: BlockID, height: int,
      commit: Commit, supported: bool)
    requires BatchesValid(s) && NonNegative(vals)
    requires VerifyCommitLight(s, chainID, vals, blockID, height, commit, supported) == None
    ensures |commit.signatures| == |vals| && commit.blockID == blockID && commit.height == height
    ensures M.SumIn(Powers(vals), ValidForBlock(s, chainID, vals, commit)) > TwoThirds(vals)
  {
    VerifyCommitLightIff(s, chainID, vals, blockID, height, commit, supported);
    var c := LightCheck(s, chainID, vals, commit);
    var k: nat :| EnoughPrefix(c, 0, k);
    M.SumInSubset(Powers(vals), ForBlockBefore(commit, k), ValidForBlock(s, chainID, vals, commit));
  }

  predicate SignedBy(s: Scheme, chainID: string, val: Validator, commit: Commit, j: nat) {
    && j < |commit.signatures|
    && commit.signatures[j].flag == ForBlock
    && commit.signatures[j].address == val.address
    && s.valid(val.pubKey, CommitSignBytes(chainID, commit, j), commit.signatures[j].signature)
  }

  /** The positions of the validators that have a valid signature for the block
      somewhere in the commit, under their address. */
  ghost function TrustedSigners(s: Scheme, chainID: string, vals: seq<Validator>, commit: Commit): set<int> {
    set k | 0 <= k < |vals| && exists j: nat :: SignedBy(s, chainID, vals[k], commit, j)
  }

  /** The trusting check accepts only if distinct validators of the set, with valid
      signatures for the block, hold more than the needed power. */
  lemma TrustingSigners(s: Scheme, chainID: string, vals: seq<Validator>, commit: Commit, level: Fraction,
      supported: bool)
    requires BatchesValid(s) && NonNegative(vals) && Int64.InRange(TotalPower(vals)) && IsFraction(level)
    requires VerifyCommitLightTrusting(s, chainID, vals, commit, level, supported) == None
    ensures NeededPower(TotalPower(vals), level).Ok?
    ensures M.SumIn(Powers(vals), TrustedSigners(s, chainID, vals, commit)) > NeededPower(TotalPower(vals), level).value
  {
    var c := Check(s, chainID, vals, commit, NeededPower(TotalPower(vals), level).value, LightMode(false));
    Accepted(c);
    forall k | k in Signers(c) ensures k in TrustedSigners(s, chainID, vals, commit) {
      var j :| 0 <= j < |Sigs(c)| && Counts(c, j) && Lookup(c, j) == k;
      assert SignedBy(s, chainID, vals[k], commit, j);
    }
    M.SumInSubset(Powers(vals), Signers(c), TrustedSigners(s, chainID, vals, commit));
  }

  /** The two forms need not give the same error: too little power and one bad
      signature. */
  lemma ErrorsDiffer(s: Scheme, chainID: string, key: Bytes, sig: Bytes, blockID: BlockID)
    requires s.batchable(key, sig)
    requires !s.valid(key, VoteBytes(Precommit, 1, 0, CanonicalBlockID(blockID), 0, chainID), sig)
    ensures var vals := [Validator([0], key, 1, 0), Validator([1], key, 1, 0)];
            var commit := Commit(1, 0, blockID, [CommitSig(ForBlock, [0], 0, sig), ABSENT_SIG]);
            && VerifyCommit(s, chainID, vals, blockID, 1, commit, true) == Some(NotEnoughPower(1, 1))
            && VerifyCommit(s, chainID, vals, blockID, 1, commit, false) == Some(WrongSignature(0))
  {
    var vals := [Validator([0], key, 1, 0), Validator([1], key, 1, 0)];
    var commit := Commit(1, 0, blockID, [CommitSig(ForBlock, [0], 0, sig), ABSENT_SIG]);
    var c := Check(s, chainID, vals, commit, TwoThirds(vals), FullMode());
    assert Powers(vals) == [1, 1];
    assert Sum([1]) == 1 && Sum([1, 1]) == 2 by {
      assert [1, 1][..1] == [1] && [1][..0] == [];
    }
    assert TwoThirds(vals) == 1;
    assert !SigValid(c, 0);
    assert BatchFrom(c, 2, 1, {0}, [0]) == Some(NotEnoughPower(1, 1));
    assert BatchFrom(c, 1, 1, {0}, [0]) == BatchFrom(c, 2, 1, {0}, [0]);
    assert {} + {0} == {0} && [] + [0] == [0];
  }

  // ----- exactly what the trusting check accepts

  /** Signature `i` is for the block and of a validator of the set. */
  predicate Relevant(c: Check, i: nat)
    requires WellPosed(c) && i < |Sigs(c)|
  {
    Sigs(c)[i].flag == ForBlock && Lookup(c, i) >= 0
  }

  /** The validators of the relevant signatures before `j`. */
  ghost function SeenBefore(c: Check, j: nat): set<int>
    requires WellPosed(c) && j <= |Sigs(c)|
  {
    set i | 0 <= i < j && Relevant(c, i) :: Lookup(c, i)
  }

  /** A prefix of signatures, valid and by different validators, that is enough. */
  ghost predicate TrustingPrefix(c: Check, j: nat, k: nat)
    requires WellPosed(c)
  {
    && j <= k <= |Sigs(c)|
    && (forall i :: j <= i < k && Relevant(c, i) ==> SigValid(c, i) && Lookup(c, i) !in SeenBefore(c, i))
    && M.SumIn(Powers(c.vals), SeenBefore(c, k)) > c.needed
  }

  ghost predicate HasTrustingPrefix(c: Check, j: nat)
    requires WellPosed(c)
  {
    exists k: nat :: TrustingPrefix(c, j, k)
  }

  lemma SeenStep(c: Check, j: nat)
    requires WellPosed(c) && j < |Sigs(c)|
    ensures SeenBefore(c, j + 1) == SeenBefore(c, j) + (if Relevant(c, j) then {Lookup(c, j)} else {})
    ensures !Relevant(c, j) ==> SeenBefore(c, j + 1) == SeenBefore(c, j)
    ensures Relevant(c, j) && Lookup(c, j) !in SeenBefore(c, j) ==>
              M.SumIn(Powers(c.vals), SeenBefore(c, j + 1))
              == M.SumIn(Powers(c.vals), SeenBefore(c, j)) + c.vals[Lookup(c, j)].power
  {
    assert SeenBefore(c, j + 1) == SeenBefore(c, j) + (if Relevant(c, j) then {Lookup(c, j)} else {});
    if Relevant(c, j) && Lookup(c, j) !in SeenBefore(c, j) {
      M.SumInAdd(Powers(c.vals), SeenBefore(c, j), Lookup(c, j));
    }
  }

  lemma TrustingPrefixStep(c: Check, j: nat)
    requires WellPosed(c) && j < |Sigs(c)| && M.SumIn(Powers(c.vals), SeenBefore(c, j)) <= c.needed
    ensures HasTrustingPrefix(c, j)
            <==> (Relevant(c, j) ==> SigValid(c, j) && Lookup(c, j) !in SeenBefore(c, j)) && HasTrustingPrefix(c, j + 1)
  {
    var next := j + 1;
    if k: nat :| TrustingPrefix(c, j, k) {
      assert k != j;
      assert TrustingPrefix(c, next, k);
    }
    if Relevant(c, j) ==> SigValid(c, j) && Lookup(c, j) !in SeenBefore(c, j) {
      if k: nat :| TrustingPrefix(c, next, k) {
        assert TrustingPrefix(c, j, k);
      }
    }
  }

  lemma {:induction false} TrustingFrom(c: Check, j: nat)
    requires c.mode == LightMode(false) && j <= |Sigs(c)| && M.SumIn(Powers(c.vals), SeenBefore(c, j)) <= c.needed
    ensures SingleFrom(c, j, M.SumIn(Powers(c.vals), SeenBefore(c, j)), SeenBefore(c, j)) == None
            <==> HasTrustingPrefix(c, j)
    decreases |Sigs(c)| - j
  {
    if j < |Sigs(c)| {
      SeenStep(c, j);
      TrustingPrefixStep(c, j);
      if M.SumIn(Powers(c.vals), SeenBefore(c, j + 1)) > c.needed {
        var next := j + 1;
        assert TrustingPrefix(c, next, next);
      } else {
        TrustingFrom(c, j + 1);
      }
    }
  }

  ghost predicate NoneRelevant(c: Check, j: nat, i: nat)
    requires WellPosed(c) && i <= |Sigs(c)|
  {
    forall k :: j <= k < i ==> !Relevant(c, k)
  }

  /** No signature from `j` on is relevant, or the first one that is, is valid. */
  ghost predicate FirstRelevantValid(c: Check, j: nat)
    requires WellPosed(c)
  {
    forall i :: j <= i < |Sigs(c)| && Relevant(c, i) && NoneRelevant(c, j, i) ==> SigValid(c, i)
  }

  lemma {:induction false} NegativeFrom(c: Check, j: nat)
    requires c.mode == LightMode(false) && j <= |Sigs(c)| && c.needed < 0 && NonNegative(c.vals)
    ensures SingleFrom(c, j, 0, {}) == None <==> FirstRelevantValid(c, j)
    decreases |Sigs(c)| - j
  {
    if j < |Sigs(c)| {
      if Relevant(c, j) {
        assert NoneRelevant(c, j, j);
        assert forall i :: j < i <= |Sigs(c)| ==> !NoneRelevant(c, j, i);
      } else {
        NegativeFrom(c, j + 1);
        assert forall i :: j < i <= |Sigs(c)| ==> (NoneRelevant(c, j, i) <==> NoneRelevant(c, j + 1, i));
      }
    }
  }

  function TrustingCheck(s: Scheme, chainID: string, vals: seq<Validator>, commit: Commit, needed: int): Check {
    Check(s, chainID, vals, commit, needed, LightMode(false))
  }

  /** VerifyCommitLightTrusting accepts exactly when some prefix of the signatures by
      validators of the set is valid, by different validators, and has more than the
      needed power. Where that power is negative it accepts exactly when the first
      signature by a validator of the set is valid or there is none: a commit that
      nobody of the set signed passes. */
  lemma VerifyCommitLightTrustingIff(s: Scheme, chainID: string, vals: seq<Validator>, commit: Commit,
      level: Fraction, supported: bool)
    requires BatchesValid(s) && NonNegative(vals) && Int64.InRange(TotalPower(vals)) && IsFraction(level)
    ensures VerifyCommitLightTrusting(s, chainID, vals, commit, level, supported) == None
            <==> && NeededPower(TotalPower(vals), level).Ok?
                 && var c := TrustingCheck(s, chainID, vals, commit, NeededPower(TotalPower(vals), level).value);
                    if c.needed >= 0 then HasTrustingPrefix(c, 0) else FirstRelevantValid(c, 0)
  {
    if NeededPower(TotalPower(vals), level).Ok? {
      var c := TrustingCheck(s, chainID, vals, commit, NeededPower(TotalPower(vals), level).value);
      Accepted(c);
      if c.needed >= 0 {
        M.SumInEmpty(Powers(vals));
        assert SeenBefore(c, 0) == {};
        TrustingFrom(c, 0);
      } else {
        NegativeFrom(c, 0);
      }
    }
  }
}
