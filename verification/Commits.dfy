/** From a vote set to a commit and back (types/vote_set.go, types/block.go). */
module Commits {
  import opened Common
  import opened Validators
  import opened Votes
  import opened VoteSets
  import opened VoteRuns
  import V = Validation
  import M = ProposerMath

  /** One signature of MakeExtendedCommit: votes for other blocks are left out. */
  function CommitSigOf(vote: Option<Vote>, maj23: BlockID): ExtendedCommitSig
    requires vote.Some? ==> NilOrComplete(vote.value.blockID)
  {
    var sig := ToExtendedCommitSig(vote);
    if sig.sig.flag == ForBlock && vote.Some? && vote.value.blockID != maj23 then ABSENT_EXTENDED_SIG else sig
  }

  /** What MakeExtendedCommit needs so as not to panic. */
  ghost predicate CanCommit(cfg: Config, t: Tally) {
    cfg.kind == Precommit && t.maj23.Some? && WholeVotes(t.votes)
  }

  ghost function ExtendedCommitOf(cfg: Config, t: Tally): ExtendedCommit
    requires CanCommit(cfg, t)
  {
    ExtendedCommit(cfg.height, cfg.round, t.maj23.value,
      seq(|t.votes|, i requires 0 <= i < |t.votes| => CommitSigOf(t.votes[i], t.maj23.value)))
  }

  method MakeExtendedCommit(voteSet: VoteSet) returns (ec: ExtendedCommit)
    requires CanCommit(voteSet.cfg, voteSet.State())
    ensures ec == ExtendedCommitOf(voteSet.cfg, voteSet.State())
  {
    var sigs: seq<ExtendedCommitSig> := [];
    for i := 0 to |voteSet.votes|
      invariant |sigs| == i
      invariant forall j :: 0 <= j < i ==> sigs[j] == CommitSigOf(voteSet.votes[j], voteSet.maj23.value)
    {
      var vote := voteSet.votes[i];
      var sig := ToExtendedCommitSig(vote);
      if sig.sig.flag == ForBlock && vote.value.blockID != voteSet.maj23.value {
        sig := ABSENT_EXTENDED_SIG;
      }
      sigs := sigs + [sig];
    }
    return ExtendedCommit(voteSet.cfg.height, voteSet.cfg.round, voteSet.maj23.value, sigs);
  }

  /** A vote the commit keeps is rebuilt from it exactly. */
  lemma KeptVote(cfg: Config, t: Tally, i: nat)
    requires CanCommit(cfg, t) && Entries(RulesOf(cfg), t.votes) && i < |t.votes|
    requires ExtendedCommitOf(cfg, t).signatures[i].sig.flag != Absent
    ensures t.votes[i] == Some(GetExtendedVote(ExtendedCommitOf(cfg, t), i))
  {
  }

  /** A canonical vote for the majority's block is kept. */
  lemma MajorityKept(cfg: Config, t: Tally, i: nat)
    requires CanCommit(cfg, t) && i < |t.votes| && t.votes[i].Some? && t.votes[i].value.blockID == t.maj23.value
    ensures ExtendedCommitOf(cfg, t).signatures[i].sig.flag == if IsComplete(t.maj23.value) then ForBlock else ForNil
  {
  }

  // ----- the commit is accepted

  lemma SignatureValid(cfg: Config, t: Tally, i: nat)
    requires CanCommit(cfg, t) && Entries(RulesOf(cfg), t.votes) && i < |t.votes|
    requires ToCommit(ExtendedCommitOf(cfg, t)).signatures[i].flag != Absent
    ensures V.IndexValid(cfg.scheme, cfg.chainID, cfg.vals, ToCommit(ExtendedCommitOf(cfg, t)), i)
  {
  }

  /** The votes tracked for the majority are all for its block, and canonical. */
  lemma MajorityVotes(cfg: Config, t: Tally, i: nat)
    requires Inv(cfg, t) && Whole(t) && t.maj23.Some? && i in Voted(t.byBlock[Key(t.maj23.value)].votes)
    ensures i < |t.votes| && t.votes[i].Some? && t.votes[i].value.blockID == t.maj23.value
  {
    var box := t.byBlock[Key(t.maj23.value)];
    assert Box(RulesOf(cfg), Key(t.maj23.value), box);
    KeyInjective(box.votes[i].value.blockID, t.maj23.value);
  }

  lemma ForBlockPower(cfg: Config, t: Tally)
    requires V.NonNegative(cfg.vals) && Inv(cfg, t) && Whole(t) && CanCommit(cfg, t)
    ensures var commit := ToCommit(ExtendedCommitOf(cfg, t));
            M.SumIn(Powers(cfg.vals), V.ForBlockBefore(commit, |commit.signatures|)) > V.TwoThirds(cfg.vals)
            <==> IsComplete(t.maj23.value)
  {
    var (maj23, commit) := (t.maj23.value, ToCommit(ExtendedCommitOf(cfg, t)));
    var forBlock := V.ForBlockBefore(commit, |commit.signatures|);
    if IsComplete(maj23) {
      var box := t.byBlock[Key(maj23)];
      assert Box(RulesOf(cfg), Key(maj23), box);
      forall i | i in Voted(box.votes) ensures i in forBlock {
        MajorityVotes(cfg, t, i);
        MajorityKept(cfg, t, i);
      }
      M.SumInSubset(Powers(cfg.vals), Voted(box.votes), forBlock);
    } else {
      assert forBlock == {};
      M.SumInEmpty(Powers(cfg.vals));
      SumBoundsLow(Powers(cfg.vals));
    }
  }

  /** The commit made from any reachable precommit set with a majority is accepted by
      VerifyCommit exactly when the majority is for a complete block ID. */
  lemma CommitAccepted(cfg: Config, events: seq<Event>, supported: bool)
    requires V.NonNegative(cfg.vals) && V.BatchesValid(cfg.scheme) && WholeEvents(events)
    requires cfg.kind == Precommit && Run(cfg, events).maj23.Some?
    ensures var t := Run(cfg, events);
            && CanCommit(cfg, t)
            && (V.VerifyCommit(cfg.scheme, cfg.chainID, cfg.vals, t.maj23.value, cfg.height,
                               ToCommit(ExtendedCommitOf(cfg, t)), supported) == None
                <==> IsComplete(t.maj23.value))
  {
    var t := Run(cfg, events);
    RunInv(cfg, events);
    RunWhole(cfg, events);
    var commit := ToCommit(ExtendedCommitOf(cfg, t));
    V.VerifyCommitIff(cfg.scheme, cfg.chainID, cfg.vals, t.maj23.value, cfg.height, commit, supported);
    ForBlockPower(cfg, t);
    forall i | 0 <= i < |commit.signatures| && commit.signatures[i].flag != Absent
      ensures V.IndexValid(cfg.scheme, cfg.chainID, cfg.vals, commit, i)
    {
      SignatureValid(cfg, t, i);
    }
  }

  // ----- and gives the set back

  /** addSigsToVoteSet from signature `i` on; None is a panic. */
  ghost function RebuiltFrom(cfg: Config, ec: ExtendedCommit, t: Tally, i: nat): Option<Tally>
    requires i <= |ec.signatures| && Sized(|cfg.vals|, t)
    decreases |ec.signatures| - i
  {
    if i == |ec.signatures| then Some(t)
    else if ec.signatures[i].sig.flag == Absent then RebuiltFrom(cfg, ec, t, i + 1)
    else
      var vote := GetExtendedVote(ec, i);
      var (next, outcome) := AddVoteTo(cfg, t, vote);
      AddVoteSized(cfg, t, vote);
      if !ValidateBasic(vote) || outcome != Added then None else RebuiltFrom(cfg, ec, next, i + 1)
  }

  /** addSigsToVoteSet; `ok` is false where it panics. */
  method AddSigsToVoteSet(ec: ExtendedCommit, voteSet: VoteSet) returns (ok: bool)
    requires voteSet.Valid()
    modifies voteSet
    ensures voteSet.Valid()
    ensures ok <==> RebuiltFrom(voteSet.cfg, ec, old(voteSet.State()), 0).Some?
    ensures ok ==> RebuiltFrom(voteSet.cfg, ec, old(voteSet.State()), 0) == Some(voteSet.State())
  {
    var i := 0;
    while i < |ec.signatures|
      invariant 0 <= i <= |ec.signatures| && voteSet.Valid()
      invariant RebuiltFrom(voteSet.cfg, ec, voteSet.State(), i)
                == RebuiltFrom(voteSet.cfg, ec, old(voteSet.State()), 0)
    {
      if ec.signatures[i].sig.flag != Absent {
        var vote := GetExtendedVote(ec, i);
        if !ValidateBasic(vote) {
          return false;
        }
        var outcome := voteSet.AddVote(vote);
        if outcome != Added {
          return false;
        }
      }
      i := i + 1;
    }
    return true;
  }

  /** ToVoteSet and ToExtendedVoteSet. */
  method ToVoteSet(ec: ExtendedCommit, scheme: Scheme, chainID: string, vals: seq<Validator>, extensions: bool)
    returns (r: Option<VoteSet>)
    requires ec.height != 0 && V.NonNegative(vals)
    ensures var cfg := Config(scheme, chainID, ec.height, ec.round, Precommit, vals, extensions);
            && (r.Some? <==> RebuiltFrom(cfg, ec, NewTally(|vals|), 0).Some?)
            && (r.Some? ==> fresh(r.value) && r.value.Valid() && r.value.cfg == cfg
                            && RebuiltFrom(cfg, ec, NewTally(|vals|), 0) == Some(r.value.State()))
  {
    var cfg := Config(scheme, chainID, ec.height, ec.round, Precommit, vals, extensions);
    var voteSet := new VoteSet(cfg);
    var ok := AddSigsToVoteSet(ec, voteSet);
    return if ok then Some(voteSet) else None;
  }

  /** The votes rebuilt from the first `i` signatures, as events. */
  ghost function Kept(ec: ExtendedCommit, i: nat): seq<Event>
    requires i <= |ec.signatures|
  {
    if i == 0 then []
    else if ec.signatures[i - 1].sig.flag == Absent then Kept(ec, i - 1)
    else Kept(ec, i - 1) + [Cast(GetExtendedVote(ec, i - 1))]
  }

  ghost predicate IsKept(ec: ExtendedCommit, j: int, vote: Vote) {
    0 <= j < |ec.signatures| && ec.signatures[j].sig.flag != Absent && vote == GetExtendedVote(ec, j)
  }

  lemma {:induction false} KeptAre(ec: ExtendedCommit, i: nat, e: Event)
    requires i <= |ec.signatures|
    ensures e in Kept(ec, i) <==> e.Cast? && e.vote.index < i && IsKept(ec, e.vote.index, e.vote)
  {
    if i > 0 {
      KeptAre(ec, i - 1, e);
    }
  }

  lemma KeptHonest(cfg: Config, ec: ExtendedCommit, i: nat)
    requires i <= |ec.signatures|
    ensures Honest(cfg, Kept(ec, i))
  {
    forall j, v, w | CastGood(cfg, Kept(ec, i), j, v) && CastGood(cfg, Kept(ec, i), j, w) ensures v == w {
      KeptAre(ec, i, Cast(v));
      KeptAre(ec, i, Cast(w));
    }
    forall p, b ensures Claim(p, b) !in Kept(ec, i) {
      KeptAre(ec, i, Claim(p, b));
    }
  }

  predicate RebuildableAt(cfg: Config, ec: ExtendedCommit, i: nat)
    requires i < |ec.signatures|
  {
    ec.signatures[i].sig.flag == Absent
    || (Good(cfg, GetExtendedVote(ec, i)) && ValidateBasic(GetExtendedVote(ec, i)))
  }

  /** All signatures there are of good, valid votes. */
  ghost predicate Rebuildable(cfg: Config, ec: ExtendedCommit) {
    |ec.signatures| == |cfg.vals| && forall i :: 0 <= i < |ec.signatures| ==> RebuildableAt(cfg, ec, i)
  }

  lemma FirstIsFresh(cfg: Config, t: Tally, vote: Vote)
    requires Sized(|cfg.vals|, t) && Derived(t) && Good(cfg, vote) && t.votes[vote.index].None?
    ensures AddVoteTo(cfg, t, vote).1 == Added
  {
  }

  lemma NextKept(cfg: Config, ec: ExtendedCommit, i: nat)
    requires i < |ec.signatures| && ec.signatures[i].sig.flag != Absent && Good(cfg, GetExtendedVote(ec, i))
    ensures var (t, vote) := (Run(cfg, Kept(ec, i)), GetExtendedVote(ec, i));
            AddVoteTo(cfg, t, vote) == (Run(cfg, Kept(ec, i + 1)), Added)
  {
    var (t, vote) := (Run(cfg, Kept(ec, i)), GetExtendedVote(ec, i));
    RunSnoc(cfg, Kept(ec, i), Cast(vote));
    KeptHonest(cfg, ec, i);
    RunLedger(cfg, Kept(ec, i));
    if t.votes[i].Some? {
      assert CastGood(cfg, Kept(ec, i), i, t.votes[i].value);
      KeptAre(ec, i, Cast(t.votes[i].value));
    }
    FirstIsFresh(cfg, t, vote);
  }

  lemma RebuiltStep(cfg: Config, ec: ExtendedCommit, t: Tally, next: Tally, i: nat)
    requires i < |ec.signatures| && Sized(|cfg.vals|, t) && Sized(|cfg.vals|, next)
    requires if ec.signatures[i].sig.flag == Absent then next == t
             else ValidateBasic(GetExtendedVote(ec, i)) && AddVoteTo(cfg, t, GetExtendedVote(ec, i)) == (next, Added)
    ensures RebuiltFrom(cfg, ec, t, i) == RebuiltFrom(cfg, ec, next, i + 1)
  {
  }

  lemma {:induction false} RebuiltIsRun(cfg: Config, ec: ExtendedCommit, t: Tally, i: nat)
    requires Rebuildable(cfg, ec) && i <= |ec.signatures| && t == Run(cfg, Kept(ec, i))
    ensures RebuiltFrom(cfg, ec, t, i) == Some(Run(cfg, Kept(ec, |ec.signatures|)))
    decreases |ec.signatures| - i
  {
    if i < |ec.signatures| {
      var next := Run(cfg, Kept(ec, i + 1));
      RebuiltIsRun(cfg, ec, next, i + 1);
      assert RebuildableAt(cfg, ec, i);
      if ec.signatures[i].sig.flag != Absent {
        NextKept(cfg, ec, i);
      }
      RebuiltStep(cfg, ec, t, next, i);
    }
  }

  lemma MadeRebuildable(cfg: Config, t: Tally)
    requires CanCommit(cfg, t) && Entries(RulesOf(cfg), t.votes)
    requires forall v :: Some(v) in t.votes ==> ValidateBasic(v)
    ensures Rebuildable(cfg, ExtendedCommitOf(cfg, t))
  {
  }

  /** The rebuilt set has the kept votes and no others. */
  lemma RebuiltVotes(cfg: Config, ec: ExtendedCommit, i: nat)
    requires Rebuildable(cfg, ec) && i < |ec.signatures|
    ensures Run(cfg, Kept(ec, |ec.signatures|)).votes[i]
            == if ec.signatures[i].sig.flag == Absent then None else Some(GetExtendedVote(ec, i))
  {
    var n := |ec.signatures|;
    var (events, u) := (Kept(ec, n), Run(cfg, Kept(ec, n)));
    KeptHonest(cfg, ec, n);
    RunLedger(cfg, events);
    if u.votes[i].Some? {
      assert CastGood(cfg, events, i, u.votes[i].value);
      KeptAre(ec, n, Cast(u.votes[i].value));
    }
    assert RebuildableAt(cfg, ec, i);
    if ec.signatures[i].sig.flag != Absent {
      KeptAre(ec, n, Cast(GetExtendedVote(ec, i)));
      assert CastGood(cfg, events, i, GetExtendedVote(ec, i));
    }
  }

  ghost function KeptAt(ec: ExtendedCommit, i: nat): Option<Vote>
    requires i < |ec.signatures|
  {
    if ec.signatures[i].sig.flag == Absent then None else Some(GetExtendedVote(ec, i))
  }

  /** The canonical votes are those the commit keeps. */
  ghost predicate HasKept(ec: ExtendedCommit, votes: seq<Option<Vote>>) {
    && |votes| == |ec.signatures|
    && forall i :: 0 <= i < |votes| ==> votes[i] == KeptAt(ec, i)
  }

  /** Where the canonical votes agree, so do the commits. */
  lemma SameCommit(cfg: Config, t: Tally, u: Tally)
    requires CanCommit(cfg, t) && Entries(RulesOf(cfg), t.votes) && u.maj23 == t.maj23
    requires HasKept(ExtendedCommitOf(cfg, t), u.votes)
    ensures CanCommit(cfg, u) && ExtendedCommitOf(cfg, u) == ExtendedCommitOf(cfg, t)
  {
  }

  lemma MajorityAgain(cfg: Config, t: Tally, u: Tally, i: nat)
    requires CanCommit(cfg, t) && Inv(cfg, t) && Whole(t) && i in Voted(t.byBlock[Key(t.maj23.value)].votes)
    requires HasKept(ExtendedCommitOf(cfg, t), u.votes)
    ensures i < |u.votes| && HasKey(u.votes[i], Key(t.maj23.value))
  {
    MajorityVotes(cfg, t, i);
    MajorityKept(cfg, t, i);
    KeptVote(cfg, t, i);
  }

  lemma SomeVoted(cfg: Config, votes: seq<Option<Vote>>, key: Bytes, voted: set<int>)
    requires forall i :: i in voted ==> 0 <= i < |votes| && HasKey(votes[i], key)
    requires M.SumIn(Powers(cfg.vals), voted) > 0
    ensures VotedFor(votes, key)
  {
    M.SumInEmpty(Powers(cfg.vals));
    if !VotedFor(votes, key) {
      M.SumInIrrelevant(Powers(cfg.vals), voted, {});
    }
  }

  /** A tally that derives from these votes tracks them all under the key. */
  lemma TracksAll(cfg: Config, u: Tally, key: Bytes, voted: set<int>)
    requires V.NonNegative(cfg.vals) && Boxes(RulesOf(cfg), u) && Derived(u)
    requires forall i :: i in voted ==> 0 <= i < |u.votes| && HasKey(u.votes[i], key)
    requires M.SumIn(Powers(cfg.vals), voted) >= Quorum(cfg)
    ensures key in u.byBlock && u.byBlock[key].sum >= Quorum(cfg)
  {
    SumBoundsLow(Powers(cfg.vals));
    SomeVoted(cfg, u.votes, key, voted);
    var box := u.byBlock[key];
    assert Box(RulesOf(cfg), key, box) && SortedInto(u.votes, key, box.votes);
    M.SumInSubset(Powers(cfg.vals), voted, Voted(box.votes));
  }

  /** The rebuilt set has the same majority. */
  lemma SameMajorityAgain(cfg: Config, t: Tally, u: Tally)
    requires V.NonNegative(cfg.vals) && CanCommit(cfg, t) && Inv(cfg, t) && Whole(t)
    requires Inv(cfg, u) && Whole(u) && Derived(u) && HasKept(ExtendedCommitOf(cfg, t), u.votes)
    ensures u.maj23 == t.maj23
  {
    var key := Key(t.maj23.value);
    var voted := Voted(t.byBlock[key].votes);
    assert Box(RulesOf(cfg), key, t.byBlock[key]);
    forall i | i in voted ensures 0 <= i < |u.votes| && HasKey(u.votes[i], key) {
      MajorityAgain(cfg, t, u, i);
    }
    TracksAll(cfg, u, key, voted);
    OneQuorum(cfg, u, key, Key(u.maj23.value));
    KeyInjective(t.maj23.value, u.maj23.value);
  }

  lemma KeptWhole(cfg: Config, ec: ExtendedCommit)
    requires Rebuildable(cfg, ec)
    ensures WholeEvents(Kept(ec, |ec.signatures|))
  {
    forall v | Cast(v) in Kept(ec, |ec.signatures|) ensures NilOrComplete(v.blockID) {
      KeptAre(ec, |ec.signatures|, Cast(v));
      assert RebuildableAt(cfg, ec, v.index);
    }
  }

  /** Rebuilding succeeds, with a set that has the kept votes and nothing else. */
  lemma Rebuilds(cfg: Config, ec: ExtendedCommit) returns (u: Tally)
    requires V.NonNegative(cfg.vals) && Rebuildable(cfg, ec)
    ensures RebuiltFrom(cfg, ec, NewTally(|cfg.vals|), 0) == Some(u)
    ensures Inv(cfg, u) && Whole(u) && Derived(u) && HasKept(ec, u.votes)
  {
    var kept := Kept(ec, |ec.signatures|);
    u := Run(cfg, kept);
    RebuiltIsRun(cfg, ec, NewTally(|cfg.vals|), 0);
    RunInv(cfg, kept);
    KeptWhole(cfg, ec);
    RunWhole(cfg, kept);
    KeptHonest(cfg, ec, |ec.signatures|);
    RunLedger(cfg, kept);
    forall i | 0 <= i < |u.votes| ensures u.votes[i] == KeptAt(ec, i) {
      RebuiltVotes(cfg, ec, i);
    }
  }

  /** Round trip: from a reachable precommit set with a majority, the commit rebuilds
      without a panic to a set with the same majority and the same commit. */
  lemma RoundTrip(cfg: Config, events: seq<Event>)
    requires V.NonNegative(cfg.vals) && cfg.kind == Precommit
    requires forall v :: Cast(v) in events ==> ValidateBasic(v)
    requires Run(cfg, events).maj23.Some?
    ensures var t := Run(cfg, events);
            && CanCommit(cfg, t)
            && var r := RebuiltFrom(cfg, ExtendedCommitOf(cfg, t), NewTally(|cfg.vals|), 0);
            && r.Some? && r.value.maj23 == t.maj23
            && CanCommit(cfg, r.value) && ExtendedCommitOf(cfg, r.value) == ExtendedCommitOf(cfg, t)
  {
    var t := Run(cfg, events);
    RunInv(cfg, events);
    RunWhole(cfg, events);
    RunSourced(cfg, events, events);
    MadeRebuildable(cfg, t);
    var u := Rebuilds(cfg, ExtendedCommitOf(cfg, t));
    SameMajorityAgain(cfg, t, u);
    SameCommit(cfg, t, u);
  }
}
