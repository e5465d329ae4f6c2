/** Tallying votes of one height, round and kind (types/vote_set.go).

    The tally is a value that the methods of the class VoteSet are proved against.
    Votes for a block are tracked under the block's key, as in the source. */
module VoteSets {
  import opened Common
  import opened Validators
  import opened Votes
  import V = Validation
  import M = ProposerMath

  /** What a vote set is made for. */
  datatype Config = Config(
    scheme: Scheme, chainID: string, height: int, round: int, kind: MsgType, vals: seq<Validator>, extensions: bool)

  datatype BlockVotes = BlockVotes(peerMaj23: bool, bits: seq<bool>, votes: seq<Option<Vote>>, sum: int)

  datatype Tally = Tally(
    votes: seq<Option<Vote>>,
    bits: seq<bool>,
    sum: int,
    maj23: Option<BlockID>,
    byBlock: map<Bytes, BlockVotes>,
    peers: map<string, BlockID>)

  datatype VoteError =
    | NegativeIndex
    | EmptyAddress
    | UnexpectedStep
    | NoSuchValidator
    | WrongAddress
    | NonDeterministicSignature
    | InvalidSignature
    | UnexpectedExtension

  datatype Outcome =
    | Refused(error: VoteError)
    | Duplicate
    | Added
    | Conflicting(existing: Vote, added: bool)

  function Quorum(cfg: Config): int {
    TotalPower(cfg.vals) * 2 / 3 + 1
  }

  function NoVotes(n: nat): seq<Option<Vote>> {
    seq(n, i => None)
  }

  function NoBits(n: nat): seq<bool> {
    seq(n, i => false)
  }

  function NewBlockVotes(peerMaj23: bool, n: nat): BlockVotes {
    BlockVotes(peerMaj23, NoBits(n), NoVotes(n), 0)
  }

  function NewTally(n: nat): Tally {
    Tally(NoVotes(n), NoBits(n), 0, None, map[], map[])
  }

  // ----- one operation

  /** Every list has a place for every validator. */
  predicate Sized(n: nat, t: Tally) {
    && |t.votes| == |t.bits| == n
    && forall k :: k in t.byBlock ==> |t.byBlock[k].votes| == |t.byBlock[k].bits| == n
  }

  /** getVote: a vote of validator `i` under this key, canonical or tracked. */
  function Known(t: Tally, i: nat, key: Bytes): Option<Vote>
    requires i < |t.votes| && Sized(|t.votes|, t)
  {
    if t.votes[i].Some? && Key(t.votes[i].value.blockID) == key then t.votes[i]
    else if key in t.byBlock then t.byBlock[key].votes[i]
    else None
  }

  predicate SignatureOk(cfg: Config, vote: Vote, pubKey: Bytes) {
    if cfg.extensions then VerifiedWithExtension(cfg.scheme, cfg.chainID, vote, pubKey)
    else Verified(cfg.scheme, cfg.chainID, vote, pubKey)
  }

  predicate ExtensionOk(cfg: Config, vote: Vote) {
    cfg.extensions || (vote.extension == [] && vote.extensionSignature == [])
  }

  /** The checks before the tally is looked at. */
  function Unfit(cfg: Config, vote: Vote): Option<VoteError> {
    if vote.index < 0 then Some(NegativeIndex)
    else if |vote.address| == 0 then Some(EmptyAddress)
    else if vote.height != cfg.height || vote.round != cfg.round || vote.kind != cfg.kind then Some(UnexpectedStep)
    else if vote.index >= |cfg.vals| then Some(NoSuchValidator)
    else if vote.address != cfg.vals[vote.index].address then Some(WrongAddress)
    else None
  }

  /** The checks after it. */
  function Unsigned(cfg: Config, vote: Vote): Option<VoteError>
    requires Unfit(cfg, vote) == None
  {
    if !SignatureOk(cfg, vote, cfg.vals[vote.index].pubKey) then Some(InvalidSignature)
    else if !ExtensionOk(cfg, vote) then Some(UnexpectedExtension)
    else None
  }

  /** A vote the set can take. */
  predicate Good(cfg: Config, vote: Vote) {
    Unfit(cfg, vote) == None && Unsigned(cfg, vote) == None
  }

  /** The first half of addVerifiedVote: the canonical votes. */
  function Placed(t: Tally, vote: Vote, power: int): Tally
    requires 0 <= vote.index < |t.votes| == |t.bits|
  {
    var i := vote.index;
    if t.votes[i].None? then
      t.(votes := t.votes[i := Some(vote)], bits := t.bits[i := true], sum := t.sum + power)
    else if t.maj23.Some? && Key(t.maj23.value) == Key(vote.blockID) then
      t.(votes := t.votes[i := Some(vote)], bits := t.bits[i := true])
    else t
  }

  /** A conflicting vote is tracked only where a peer claimed a majority. */
  predicate Untracked(t: Tally, vote: Vote)
    requires 0 <= vote.index < |t.votes|
  {
    var key := Key(vote.blockID);
    t.votes[vote.index].Some? && (key in t.byBlock ==> !t.byBlock[key].peerMaj23)
  }

  function VotesFor(t: Tally, key: Bytes): BlockVotes {
    if key in t.byBlock then t.byBlock[key] else NewBlockVotes(false, |t.votes|)
  }

  /** blockVotes.addVerifiedVote. */
  function Recorded(bv: BlockVotes, vote: Vote, power: int): BlockVotes
    requires 0 <= vote.index < |bv.votes| == |bv.bits|
  {
    var i := vote.index;
    if bv.votes[i].None? then
      BlockVotes(bv.peerMaj23, bv.bits[i := true], bv.votes[i := Some(vote)], bv.sum + power)
    else bv
  }

  function CopiedOver(votes: seq<Option<Vote>>, from: seq<Option<Vote>>): (r: seq<Option<Vote>>)
    requires |votes| == |from|
    ensures |r| == |votes|
  {
    seq(|votes|, i requires 0 <= i < |votes| => if from[i].Some? then from[i] else votes[i])
  }

  function Filed(t: Tally, vote: Vote, power: int): Tally
    requires 0 <= vote.index < |t.votes| && Sized(|t.votes|, t)
  {
    var key := Key(vote.blockID);
    t.(byBlock := t.byBlock[key := Recorded(VotesFor(t, key), vote, power)])
  }

  /** The second half: track the vote and look for a first majority. */
  function Tracked(quorum: int, t: Tally, vote: Vote, power: int): Tally
    requires 0 <= vote.index < |t.votes| && Sized(|t.votes|, t)
  {
    var before := VotesFor(t, Key(vote.blockID));
    var after := Recorded(before, vote, power);
    var filed := Filed(t, vote, power);
    if before.sum < quorum <= after.sum && t.maj23.None? then
      filed.(maj23 := Some(vote.blockID), votes := CopiedOver(t.votes, after.votes))
    else filed
  }

  /** addVerifiedVote; it panics on a vote for the canonical vote's own block. */
  function AddVerified(quorum: int, t: Tally, vote: Vote, power: int): (Tally, bool)
    requires 0 <= vote.index < |t.votes| && Sized(|t.votes|, t)
    requires t.votes[vote.index].Some? ==> t.votes[vote.index].value.blockID != vote.blockID
  {
    if Untracked(t, vote) then (Placed(t, vote, power), false)
    else (Tracked(quorum, Placed(t, vote, power), vote, power), true)
  }

  /** addVote. */
  function AddVoteTo(cfg: Config, t: Tally, vote: Vote): (Tally, Outcome)
    requires Sized(|cfg.vals|, t)
  {
    if Unfit(cfg, vote).Some? then (t, Refused(Unfit(cfg, vote).value))
    else
      var i := vote.index;
      var known := Known(t, i, Key(vote.blockID));
      if known.Some? then
        (t, if known.value.signature == vote.signature then Duplicate else Refused(NonDeterministicSignature))
      else if Unsigned(cfg, vote).Some? then (t, Refused(Unsigned(cfg, vote).value))
      else
        var (next, added) := AddVerified(Quorum(cfg), t, vote, cfg.vals[i].power);
        (next, if t.votes[i].Some? then Conflicting(t.votes[i].value, added) else Added)
  }

  /** SetPeerMaj23; the flag is false where it returns an error. */
  function ClaimMaj23(t: Tally, peer: string, blockID: BlockID): (Tally, bool) {
    if peer in t.peers then (t, t.peers[peer] == blockID)
    else
      var key := Key(blockID);
      var claimed := if key in t.byBlock then t.byBlock[key].(peerMaj23 := true) else NewBlockVotes(true, |t.votes|);
      (t.(peers := t.peers[peer := blockID], byBlock := t.byBlock[key := claimed]), true)
  }

  // ----- the invariant

  ghost predicate BitsAgree(bits: seq<bool>, votes: seq<Option<Vote>>) {
    |bits| == |votes| && forall i :: 0 <= i < |votes| ==> (bits[i] <==> votes[i].Some?)
  }

  ghost function Voted(votes: seq<Option<Vote>>): set<int> {
    set i | 0 <= i < |votes| && votes[i].Some?
  }

  /** What the invariant needs to know of a configuration. */
  datatype Rules = Rules(vals: seq<Validator>, quorum: int, good: Vote -> bool)

  predicate Fit(r: Rules, vote: Vote) {
    0 <= vote.index < |r.vals| && r.good(vote)
  }

  ghost predicate Entries(r: Rules, votes: seq<Option<Vote>>) {
    && |votes| == |r.vals|
    && forall i :: 0 <= i < |votes| && votes[i].Some? ==> votes[i].value.index == i && r.good(votes[i].value)
  }

  /** The votes tracked under a key: good votes for it, their bits and their power. */
  ghost predicate Box(r: Rules, key: Bytes, bv: BlockVotes) {
    && BitsAgree(bv.bits, bv.votes)
    && Entries(r, bv.votes)
    && bv.sum == M.SumIn(Powers(r.vals), Voted(bv.votes))
    && forall i :: 0 <= i < |bv.votes| && bv.votes[i].Some? ==> Key(bv.votes[i].value.blockID) == key
  }

  ghost predicate Boxes(r: Rules, t: Tally) {
    forall k :: k in t.byBlock ==> Box(r, k, t.byBlock[k]) && Voted(t.byBlock[k].votes) <= Voted(t.votes)
  }

  ghost predicate Canonical(r: Rules, t: Tally) {
    && BitsAgree(t.bits, t.votes)
    && Entries(r, t.votes)
    && t.sum == M.SumIn(Powers(r.vals), Voted(t.votes))
  }

  predicate IsMajKey(t: Tally, key: Bytes) {
    t.maj23.Some? && Key(t.maj23.value) == key
  }

  predicate Home(t: Tally, i: nat)
    requires i < |t.votes| && t.votes[i].Some?
  {
    var key := Key(t.votes[i].value.blockID);
    key in t.byBlock
    && (IsMajKey(t, key) || (i < |t.byBlock[key].votes| && t.byBlock[key].votes[i] == t.votes[i]))
  }

  /** A canonical vote is tracked under its key, unless it is for the majority. */
  ghost predicate Homes(t: Tally) {
    forall i :: 0 <= i < |t.votes| && t.votes[i].Some? ==> Home(t, i)
  }

  /** The majority is there exactly when some key has a quorum, and all votes
      tracked for it are canonical. */
  ghost predicate Majority(quorum: int, t: Tally) {
    match t.maj23
    case None => forall k :: k in t.byBlock ==> t.byBlock[k].sum < quorum
    case Some(b) =>
      && Key(b) in t.byBlock
      && t.byBlock[Key(b)].sum >= quorum
      && forall i :: 0 <= i < |t.byBlock[Key(b)].votes| && t.byBlock[Key(b)].votes[i].Some?
            ==> i < |t.votes| && t.votes[i] == t.byBlock[Key(b)].votes[i]
  }

  ghost predicate Claimed(peers: map<string, BlockID>, byBlock: map<Bytes, BlockVotes>) {
    forall p :: p in peers ==> Key(peers[p]) in byBlock && byBlock[Key(peers[p])].peerMaj23
  }

  /** One tracked key for each voter and each claim. */
  ghost predicate Bounded(t: Tally) {
    |t.byBlock| <= |Voted(t.votes)| + |t.peers| && Claimed(t.peers, t.byBlock)
  }

  /** The parts of the invariant that do not speak of the majority. */
  ghost predicate Settled(r: Rules, t: Tally) {
    Canonical(r, t) && Boxes(r, t) && Homes(t) && Bounded(t)
  }

  ghost predicate Consistent(r: Rules, t: Tally) {
    Settled(r, t) && Majority(r.quorum, t)
  }

  ghost function RulesOf(cfg: Config): Rules {
    Rules(cfg.vals, Quorum(cfg), (vote: Vote) => Good(cfg, vote))
  }

  ghost predicate Inv(cfg: Config, t: Tally) {
    Consistent(RulesOf(cfg), t)
  }

  lemma InvSized(cfg: Config, t: Tally)
    requires Inv(cfg, t)
    ensures Sized(|cfg.vals|, t)
  {
  }

  lemma NewInv(cfg: Config)
    requires V.NonNegative(cfg.vals)
    ensures Inv(cfg, NewTally(|cfg.vals|))
  {
    var t := NewTally(|cfg.vals|);
    M.SumInEmpty(Powers(cfg.vals));
    assert Voted(t.votes) == {};
  }

  // ----- every operation keeps it

  /** The vote's validator has no vote tracked for the vote's block. */
  predicate NewTo(t: Tally, vote: Vote) {
    && 0 <= vote.index < |t.votes| && Sized(|t.votes|, t)
    && VotesFor(t, Key(vote.blockID)).votes[vote.index].None?
  }

  lemma VotedSet(votes: seq<Option<Vote>>, i: nat, vote: Vote)
    requires i < |votes|
    ensures Voted(votes[i := Some(vote)]) == Voted(votes) + {i}
  {
  }

  lemma OneMoreVote(r: Rules, votes: seq<Option<Vote>>, i: nat, vote: Vote)
    requires i < |votes| == |r.vals| && votes[i].None?
    ensures M.SumIn(Powers(r.vals), Voted(votes[i := Some(vote)]))
            == M.SumIn(Powers(r.vals), Voted(votes)) + r.vals[i].power
  {
    VotedSet(votes, i, vote);
    M.SumInAdd(Powers(r.vals), Voted(votes), i);
  }

  lemma EntriesSet(r: Rules, votes: seq<Option<Vote>>, bits: seq<bool>, vote: Vote)
    requires Entries(r, votes) && BitsAgree(bits, votes) && Fit(r, vote)
    ensures Entries(r, votes[vote.index := Some(vote)])
    ensures BitsAgree(bits[vote.index := true], votes[vote.index := Some(vote)])
  {
  }

  lemma PlacedVoted(t: Tally, vote: Vote, power: int)
    requires 0 <= vote.index < |t.votes| == |t.bits|
    ensures Voted(Placed(t, vote, power).votes) == Voted(t.votes) + {vote.index}
  {
    VotedSet(t.votes, vote.index, vote);
    if t.votes[vote.index].Some? {
      assert Voted(t.votes) + {vote.index} == Voted(t.votes);
    }
  }

  lemma PlacedCanonical(r: Rules, t: Tally, vote: Vote, power: int)
    requires Canonical(r, t) && Fit(r, vote) && power == r.vals[vote.index].power
    ensures Canonical(r, Placed(t, vote, power))
    ensures Voted(Placed(t, vote, power).votes) == Voted(t.votes) + {vote.index}
  {
    VotedSet(t.votes, vote.index, vote);
    EntriesSet(r, t.votes, t.bits, vote);
    if t.votes[vote.index].None? {
      OneMoreVote(r, t.votes, vote.index, vote);
    } else {
      assert Voted(t.votes) + {vote.index} == Voted(t.votes);
    }
  }

  lemma RecordedBox(r: Rules, bv: BlockVotes, vote: Vote)
    requires Box(r, Key(vote.blockID), bv) && Fit(r, vote) && bv.votes[vote.index].None?
    ensures var after := Recorded(bv, vote, r.vals[vote.index].power);
            && Box(r, Key(vote.blockID), after)
            && Voted(after.votes) == Voted(bv.votes) + {vote.index}
  {
    VotedSet(bv.votes, vote.index, vote);
    EntriesSet(r, bv.votes, bv.bits, vote);
    OneMoreVote(r, bv.votes, vote.index, vote);
  }

  lemma NewBox(r: Rules, key: Bytes, peerMaj23: bool)
    ensures Box(r, key, NewBlockVotes(peerMaj23, |r.vals|))
    ensures Voted(NewBlockVotes(peerMaj23, |r.vals|).votes) == {}
  {
    M.SumInEmpty(Powers(r.vals));
    assert Voted(NewBlockVotes(peerMaj23, |r.vals|).votes) == {};
  }

  /** The box a new vote goes to, after it. */
  lemma FreshBox(r: Rules, t: Tally, vote: Vote, power: int)
    requires Boxes(r, t) && |t.votes| == |r.vals| && NewTo(t, vote)
    requires Fit(r, vote) && power == r.vals[vote.index].power
    ensures var after := Recorded(VotesFor(t, Key(vote.blockID)), vote, power);
            Box(r, Key(vote.blockID), after) && Voted(after.votes) <= Voted(t.votes) + {vote.index}
  {
    var key := Key(vote.blockID);
    NewBox(r, key, false);
    RecordedBox(r, VotesFor(t, key), vote);
  }

  lemma BoxesSet(r: Rules, t: Tally, next: Tally, key: Bytes, box: BlockVotes)
    requires Boxes(r, t) && Voted(t.votes) <= Voted(next.votes)
    requires next.byBlock == t.byBlock[key := box]
    requires Box(r, key, box) && Voted(box.votes) <= Voted(next.votes)
    ensures Boxes(r, next)
  {
  }

  lemma PlacedHomes(t: Tally, vote: Vote, power: int)
    requires 0 <= vote.index < |t.votes| && Sized(|t.votes|, t) && Homes(t) && Untracked(t, vote)
    requires t.maj23.Some? ==> Key(t.maj23.value) in t.byBlock
    ensures Homes(Placed(t, vote, power))
  {
  }

  lemma FiledHomes(t: Tally, vote: Vote, power: int)
    requires NewTo(t, vote) && Homes(t)
    ensures Homes(Filed(Placed(t, vote, power), vote, power))
  {
    var (i, key) := (vote.index, Key(vote.blockID));
    var placed := Placed(t, vote, power);
    var filed := Filed(placed, vote, power);
    var (before, after) := (VotesFor(t, key), filed.byBlock[key]);
    assert VotesFor(placed, key) == before && after.votes == before.votes[i := Some(vote)];
    forall j | 0 <= j < |t.votes| && filed.votes[j].Some? ensures Home(filed, j) {
      if filed.votes[j] == t.votes[j] {
        assert Home(t, j);
      }
    }
  }

  lemma PlacedMajority(quorum: int, t: Tally, vote: Vote, power: int)
    requires NewTo(t, vote) && Majority(quorum, t)
    requires t.maj23.Some? ==> Voted(t.byBlock[Key(t.maj23.value)].votes) <= Voted(t.votes)
    ensures Majority(quorum, Placed(t, vote, power))
  {
  }

  /** Another vote for the majority's block. */
  lemma FiledForMajority(quorum: int, t: Tally, vote: Vote, power: int)
    requires 0 <= vote.index < |t.votes| && Sized(|t.votes|, t) && Majority(quorum, t) && power >= 0
    requires IsMajKey(t, Key(vote.blockID)) && t.byBlock[Key(vote.blockID)].votes[vote.index].None?
    ensures Majority(quorum, Filed(Placed(t, vote, power), vote, power))
  {
  }

  lemma FiledMajority(quorum: int, t: Tally, vote: Vote, power: int)
    requires NewTo(t, vote) && Majority(quorum, t) && t.maj23.Some? && power >= 0
    requires Voted(t.byBlock[Key(t.maj23.value)].votes) <= Voted(t.votes)
    ensures Majority(quorum, Filed(Placed(t, vote, power), vote, power))
  {
    if IsMajKey(t, Key(vote.blockID)) {
      FiledForMajority(quorum, t, vote, power);
    } else {
      PlacedMajority(quorum, t, vote, power);
    }
  }

  lemma NotCrossed(quorum: int, t: Tally, vote: Vote, power: int)
    requires 0 <= vote.index < |t.votes| && Sized(|t.votes|, t) && Majority(quorum, t) && t.maj23.None?
    requires Recorded(VotesFor(t, Key(vote.blockID)), vote, power).sum < quorum
    ensures Majority(quorum, Filed(Placed(t, vote, power), vote, power))
  {
  }

  lemma PlacedBounded(t: Tally, vote: Vote, power: int)
    requires 0 <= vote.index < |t.votes| && Sized(|t.votes|, t) && Bounded(t)
    ensures Bounded(Placed(t, vote, power))
    ensures t.votes[vote.index].None? ==> |t.byBlock| + 1 <= |Voted(Placed(t, vote, power).votes)| + |t.peers|
  {
    VotedSet(t.votes, vote.index, vote);
    var voted := Voted(t.votes);
    if t.votes[vote.index].None? {
      assert vote.index !in voted && |voted + {vote.index}| == |voted| + 1;
    } else {
      assert voted + {vote.index} == voted;
    }
  }

  lemma MoreKeys<K, W>(m: map<K, W>, k: K, w: W)
    ensures |m[k := w]| == if k in m then |m| else |m| + 1
  {
  }

  lemma ClaimedSet(peers: map<string, BlockID>, byBlock: map<Bytes, BlockVotes>, key: Bytes, box: BlockVotes)
    requires Claimed(peers, byBlock) && (key in byBlock && byBlock[key].peerMaj23 ==> box.peerMaj23)
    ensures Claimed(peers, byBlock[key := box])
  {
  }

  lemma FiledBounded(t: Tally, vote: Vote, power: int)
    requires 0 <= vote.index < |t.votes| && Sized(|t.votes|, t) && Bounded(t) && !Untracked(t, vote)
    ensures Bounded(Filed(Placed(t, vote, power), vote, power))
  {
    PlacedBounded(t, vote, power);
    var key := Key(vote.blockID);
    var box := Recorded(VotesFor(t, key), vote, power);
    MoreKeys(t.byBlock, key, box);
    ClaimedSet(t.peers, t.byBlock, key, box);
  }

  /** Crossing the quorum: the tracked votes become the canonical ones. */
  lemma CopiedCanonical(r: Rules, t: Tally, after: BlockVotes, key: Bytes)
    requires Canonical(r, t) && Box(r, key, after) && Voted(after.votes) <= Voted(t.votes)
    ensures Canonical(r, t.(votes := CopiedOver(t.votes, after.votes)))
    ensures Voted(CopiedOver(t.votes, after.votes)) == Voted(t.votes)
  {
    var votes := CopiedOver(t.votes, after.votes);
    forall i | 0 <= i < |t.votes| ensures votes[i].Some? <==> t.votes[i].Some? {
      assert after.votes[i].Some? ==> i in Voted(after.votes);
    }
    assert Voted(votes) == Voted(t.votes);
  }

  lemma CopiedHomes(t: Tally, after: BlockVotes, b: BlockID)
    requires Homes(t) && t.maj23.None? && Key(b) in t.byBlock && |after.votes| == |t.votes|
    requires forall i :: 0 <= i < |after.votes| && after.votes[i].Some? ==> Key(after.votes[i].value.blockID) == Key(b)
    ensures Homes(t.(maj23 := Some(b), votes := CopiedOver(t.votes, after.votes)))
  {
  }

  lemma CrossedInv(r: Rules, t: Tally, vote: Vote, after: BlockVotes)
    requires Settled(r, t) && t.maj23.None?
    requires Key(vote.blockID) in t.byBlock && t.byBlock[Key(vote.blockID)] == after
    requires after.sum >= r.quorum && |after.votes| == |t.votes|
    ensures Consistent(r, t.(maj23 := Some(vote.blockID), votes := CopiedOver(t.votes, after.votes)))
  {
    CopiedCanonical(r, t, after, Key(vote.blockID));
    CopiedHomes(t, after, vote.blockID);
  }

  lemma PlacedBoxes(r: Rules, t: Tally, vote: Vote, power: int)
    requires Boxes(r, t) && 0 <= vote.index < |t.votes| == |t.bits|
    ensures Boxes(r, Placed(t, vote, power)) && vote.index in Voted(Placed(t, vote, power).votes)
  {
    PlacedVoted(t, vote, power);
  }

  lemma FiledBoxes(r: Rules, t: Tally, vote: Vote, power: int)
    requires Boxes(r, t) && |t.votes| == |r.vals| && NewTo(t, vote) && vote.index in Voted(t.votes)
    requires Fit(r, vote) && power == r.vals[vote.index].power
    ensures Boxes(r, Filed(t, vote, power))
  {
    FreshBox(r, t, vote, power);
    var filed := Filed(t, vote, power);
    BoxesSet(r, t, filed, Key(vote.blockID), filed.byBlock[Key(vote.blockID)]);
  }

  lemma FiledCanonical(r: Rules, t: Tally, vote: Vote, power: int)
    requires Canonical(r, t) && NewTo(t, vote)
    requires Fit(r, vote) && power == r.vals[vote.index].power
    ensures Canonical(r, Filed(Placed(t, vote, power), vote, power))
  {
    PlacedCanonical(r, t, vote, power);
  }

  lemma FiledSettled(r: Rules, t: Tally, vote: Vote, power: int)
    requires Settled(r, t) && NewTo(t, vote) && !Untracked(t, vote)
    requires Fit(r, vote) && power == r.vals[vote.index].power
    ensures Settled(r, Filed(Placed(t, vote, power), vote, power))
  {
    FiledCanonical(r, t, vote, power);
    PlacedBoxes(r, t, vote, power);
    FiledBoxes(r, Placed(t, vote, power), vote, power);
    FiledHomes(t, vote, power);
    FiledBounded(t, vote, power);
  }

  lemma PlacedInv(r: Rules, t: Tally, vote: Vote, power: int)
    requires Consistent(r, t) && NewTo(t, vote) && Untracked(t, vote)
    requires Fit(r, vote) && power == r.vals[vote.index].power
    ensures Consistent(r, Placed(t, vote, power))
  {
    PlacedCanonical(r, t, vote, power);
    PlacedHomes(t, vote, power);
    PlacedMajority(r.quorum, t, vote, power);
    PlacedBounded(t, vote, power);
  }

  lemma FirstCrossing(r: Rules, t: Tally, vote: Vote, power: int)
    requires NewTo(t, vote) && t.maj23.None? && Settled(r, Filed(t, vote, power))
    requires VotesFor(t, Key(vote.blockID)).sum < r.quorum
    requires Recorded(VotesFor(t, Key(vote.blockID)), vote, power).sum >= r.quorum
    ensures Consistent(r, Tracked(r.quorum, t, vote, power))
  {
    var after := Recorded(VotesFor(t, Key(vote.blockID)), vote, power);
    CrossedInv(r, Filed(t, vote, power), vote, after);
  }

  lemma JustFiled(quorum: int, t: Tally, vote: Vote, power: int)
    requires 0 <= vote.index < |t.votes| && Sized(|t.votes|, t)
    requires t.maj23.Some? || Recorded(VotesFor(t, Key(vote.blockID)), vote, power).sum < quorum
    ensures Tracked(quorum, t, vote, power) == Filed(t, vote, power)
  {
  }

  /** The quorum test of addVerifiedVote sees every first majority. */
  lemma FirstMajority(r: Rules, t: Tally, vote: Vote, power: int)
    requires NewTo(t, vote) && t.maj23.None? && Majority(r.quorum, t) && r.quorum > 0
    requires Settled(r, Filed(Placed(t, vote, power), vote, power))
    ensures Consistent(r, Tracked(r.quorum, Placed(t, vote, power), vote, power))
  {
    assert VotesFor(t, Key(vote.blockID)).sum < r.quorum;
    if Recorded(VotesFor(t, Key(vote.blockID)), vote, power).sum >= r.quorum {
      FirstCrossing(r, Placed(t, vote, power), vote, power);
    } else {
      NotCrossed(r.quorum, t, vote, power);
      JustFiled(r.quorum, Placed(t, vote, power), vote, power);
    }
  }

  lemma LaterMajority(r: Rules, t: Tally, vote: Vote, power: int)
    requires NewTo(t, vote) && Boxes(r, t) && Majority(r.quorum, t) && t.maj23.Some? && power >= 0
    ensures var placed := Placed(t, vote, power);
            && Majority(r.quorum, Filed(placed, vote, power))
            && Tracked(r.quorum, placed, vote, power) == Filed(placed, vote, power)
  {
    assert Voted(t.byBlock[Key(t.maj23.value)].votes) <= Voted(t.votes);
    FiledMajority(r.quorum, t, vote, power);
    JustFiled(r.quorum, Placed(t, vote, power), vote, power);
  }

  lemma TrackedInv(r: Rules, t: Tally, vote: Vote, power: int)
    requires r.quorum > 0 && Consistent(r, t) && NewTo(t, vote) && !Untracked(t, vote)
    requires Fit(r, vote) && power == r.vals[vote.index].power >= 0
    ensures Consistent(r, Tracked(r.quorum, Placed(t, vote, power), vote, power))
  {
    FiledSettled(r, t, vote, power);
    if t.maj23.Some? {
      LaterMajority(r, t, vote, power);
    } else {
      FirstMajority(r, t, vote, power);
    }
  }

  /** addVerifiedVote keeps the invariant. */
  lemma AddVerifiedInv(r: Rules, t: Tally, vote: Vote, power: int)
    requires V.NonNegative(r.vals) && r.quorum > 0 && Consistent(r, t) && NewTo(t, vote)
    requires Fit(r, vote) && power == r.vals[vote.index].power
    requires t.votes[vote.index].Some? ==> t.votes[vote.index].value.blockID != vote.blockID
    ensures Consistent(r, AddVerified(r.quorum, t, vote, power).0)
  {
    if Untracked(t, vote) {
      PlacedInv(r, t, vote, power);
    } else {
      TrackedInv(r, t, vote, power);
    }
  }

  lemma QuorumPositive(cfg: Config)
    requires V.NonNegative(cfg.vals)
    ensures Quorum(cfg) > 0
  {
    SumBoundsLow(Powers(cfg.vals));
  }

  /** AddVote, whatever the vote: no panic, and the invariant is kept. */
  lemma AddVoteInv(cfg: Config, t: Tally, vote: Vote)
    requires V.NonNegative(cfg.vals) && Inv(cfg, t) && Sized(|cfg.vals|, t)
    ensures Inv(cfg, AddVoteTo(cfg, t, vote).0)
  {
    if Unfit(cfg, vote) == None && Known(t, vote.index, Key(vote.blockID)) == None && Unsigned(cfg, vote) == None {
      QuorumPositive(cfg);
      AddVerifiedInv(RulesOf(cfg), t, vote, cfg.vals[vote.index].power);
    }
  }

  /** A validator without a canonical vote has no tracked vote either. */
  lemma NoneTracked(r: Rules, t: Tally, i: nat, key: Bytes)
    requires Boxes(r, t) && Sized(|t.votes|, t) && i < |t.votes| && t.votes[i].None?
    ensures Known(t, i, key) == None
  {
    if key in t.byBlock {
      assert i !in Voted(t.votes) && Voted(t.byBlock[key].votes) <= Voted(t.votes);
    }
  }

  lemma OutcomeIs(cfg: Config, t: Tally, vote: Vote)
    requires Sized(|cfg.vals|, t)
    requires Unfit(cfg, vote) == None && t.votes[vote.index].None? ==>
               Known(t, vote.index, Key(vote.blockID)) == None
    ensures AddVoteTo(cfg, t, vote).1 == Added <==> Good(cfg, vote) && t.votes[vote.index].None?
  {
  }

  /** A vote is added exactly when it is its validator's first good one. */
  lemma AddedIff(cfg: Config, t: Tally, vote: Vote)
    requires Inv(cfg, t) && Sized(|cfg.vals|, t)
    ensures AddVoteTo(cfg, t, vote).1 == Added <==> Good(cfg, vote) && t.votes[vote.index].None?
  {
    if Unfit(cfg, vote) == None && t.votes[vote.index].None? {
      NoneTracked(RulesOf(cfg), t, vote.index, Key(vote.blockID));
    }
    OutcomeIs(cfg, t, vote);
  }

  /** A reported conflict is two good votes of one validator for different blocks, the
      second one tracked only where a peer claimed a majority. */
  lemma ConflictsAre(cfg: Config, t: Tally, vote: Vote)
    requires Entries(RulesOf(cfg), t.votes) && Sized(|cfg.vals|, t) && AddVoteTo(cfg, t, vote).1.Conflicting?
    ensures var outcome := AddVoteTo(cfg, t, vote).1;
            && Good(cfg, vote) && Good(cfg, outcome.existing)
            && outcome.existing.index == vote.index && outcome.existing.blockID != vote.blockID
            && (outcome.added <==> Key(vote.blockID) in t.byBlock && t.byBlock[Key(vote.blockID)].peerMaj23)
  {
    assert RulesOf(cfg).good(t.votes[vote.index].value);
  }

  lemma TrackedSized(quorum: int, t: Tally, vote: Vote, power: int)
    requires 0 <= vote.index < |t.votes| && Sized(|t.votes|, t)
    ensures Sized(|t.votes|, Tracked(quorum, t, vote, power))
  {
  }

  lemma AddVoteSized(cfg: Config, t: Tally, vote: Vote)
    requires Sized(|cfg.vals|, t)
    ensures Sized(|cfg.vals|, AddVoteTo(cfg, t, vote).0)
  {
    if Unfit(cfg, vote) == None {
      TrackedSized(Quorum(cfg), Placed(t, vote, cfg.vals[vote.index].power), vote, cfg.vals[vote.index].power);
    }
  }

  lemma ClaimHomes(t: Tally, peer: string, blockID: BlockID)
    requires Homes(t) && peer !in t.peers
    ensures Homes(ClaimMaj23(t, peer, blockID).0)
  {
  }

  lemma ClaimMajority(quorum: int, t: Tally, peer: string, blockID: BlockID)
    requires Majority(quorum, t) && quorum > 0 && peer !in t.peers
    ensures Majority(quorum, ClaimMaj23(t, peer, blockID).0)
  {
  }

  lemma ClaimBounded(t: Tally, peer: string, blockID: BlockID)
    requires Bounded(t) && peer !in t.peers
    ensures Bounded(ClaimMaj23(t, peer, blockID).0)
  {
  }

  lemma ClaimConsistent(r: Rules, t: Tally, peer: string, blockID: BlockID)
    requires r.quorum > 0 && Consistent(r, t) && peer !in t.peers
    ensures Consistent(r, ClaimMaj23(t, peer, blockID).0)
  {
    var (key, next) := (Key(blockID), ClaimMaj23(t, peer, blockID).0);
    NewBox(r, key, true);
    BoxesSet(r, t, next, key, next.byBlock[key]);
    ClaimHomes(t, peer, blockID);
    ClaimMajority(r.quorum, t, peer, blockID);
    ClaimBounded(t, peer, blockID);
  }

  /** SetPeerMaj23, whatever the claim, keeps the invariant. */
  lemma ClaimInv(cfg: Config, t: Tally, peer: string, blockID: BlockID)
    requires V.NonNegative(cfg.vals) && Inv(cfg, t)
    ensures Inv(cfg, ClaimMaj23(t, peer, blockID).0)
  {
    if peer !in t.peers {
      QuorumPositive(cfg);
      ClaimConsistent(RulesOf(cfg), t, peer, blockID);
    }
  }

  // ----- the object

  class VoteSet {
    const cfg: Config
    var votes: seq<Option<Vote>>
    var bits: seq<bool>
    var sum: int
    var maj23: Option<BlockID>
    var byBlock: map<Bytes, BlockVotes>
    var peers: map<string, BlockID>

    ghost function State(): Tally
      reads this
    {
      Tally(votes, bits, sum, maj23, byBlock, peers)
    }

    ghost predicate Valid()
      reads this
    {
      V.NonNegative(cfg.vals) && Inv(cfg, State()) && Sized(|cfg.vals|, State())
    }

    /** NewVoteSet and NewExtendedVoteSet; height 0 panics. */
    constructor (cfg: Config)
      requires cfg.height != 0 && V.NonNegative(cfg.vals)
      ensures Valid() && this.cfg == cfg && State() == NewTally(|cfg.vals|)
    {
      this.cfg := cfg;
      var t := NewTally(|cfg.vals|);
      votes, bits, sum, maj23, byBlock, peers := t.votes, t.bits, t.sum, t.maj23, t.byBlock, t.peers;
      new;
      NewInv(cfg);
    }

    /** AddVote: it never panics and keeps the invariant. */
    method AddVote(vote: Vote) returns (outcome: Outcome)
      requires Valid()
      modifies this
      ensures Valid() && (State(), outcome) == AddVoteTo(cfg, old(State()), vote)
    {
      AddVoteInv(cfg, State(), vote);
      InvSized(cfg, AddVoteTo(cfg, State(), vote).0);
      outcome := CheckAndAdd(vote);
    }

    method CheckAndAdd(vote: Vote) returns (outcome: Outcome)
      requires Sized(|cfg.vals|, State())
      modifies this
      ensures (State(), outcome) == AddVoteTo(cfg, old(State()), vote)
    {
      if Unfit(cfg, vote).Some? {
        return Refused(Unfit(cfg, vote).value);
      }
      var i := vote.index;
      var known := GetVote(i, Key(vote.blockID));
      if known.Some? {
        return if known.value.signature == vote.signature then Duplicate else Refused(NonDeterministicSignature);
      }
      if Unsigned(cfg, vote).Some? {
        return Refused(Unsigned(cfg, vote).value);
      }
      var existing := votes[i];
      var added := AddVerifiedVote(vote, cfg.vals[i].power);
      outcome := if existing.Some? then Conflicting(existing.value, added) else Added;
    }

    method GetVote(i: nat, key: Bytes) returns (known: Option<Vote>)
      requires i < |votes| && Sized(|votes|, State())
      ensures known == Known(State(), i, key)
    {
      if votes[i].Some? && Key(votes[i].value.blockID) == key {
        return votes[i];
      }
      if key in byBlock {
        return byBlock[key].votes[i];
      }
      return None;
    }

    method AddVerifiedVote(vote: Vote, power: int) returns (added: bool)
      requires 0 <= vote.index < |votes| && Sized(|votes|, State())
      requires votes[vote.index].Some? ==> votes[vote.index].value.blockID != vote.blockID
      modifies this
      ensures (State(), added) == AddVerified(Quorum(cfg), old(State()), vote, power)
    {
      var key := Key(vote.blockID);
      var conflicting := votes[vote.index];
      PlaceVote(vote, power);
      if conflicting.Some? && (key !in byBlock || !byBlock[key].peerMaj23) {
        return false;
      }
      TrackVote(vote, power);
      return true;
    }

    /** The canonical votes: a new one, or one for the majority in place of another. */
    method PlaceVote(vote: Vote, power: int)
      requires 0 <= vote.index < |votes| == |bits|
      modifies this
      ensures State() == Placed(old(State()), vote, power)
    {
      var i := vote.index;
      if votes[i].Some? {
        if maj23.Some? && Key(maj23.value) == Key(vote.blockID) {
          votes := votes[i := Some(vote)];
          bits := bits[i := true];
        }
      } else {
        votes := votes[i := Some(vote)];
        bits := bits[i := true];
        sum := sum + power;
      }
    }

    /** The votes tracked for the block, and the first majority. */
    method TrackVote(vote: Vote, power: int)
      requires 0 <= vote.index < |votes| && Sized(|votes|, State())
      modifies this
      ensures State() == Tracked(Quorum(cfg), old(State()), vote, power)
    {
      var key := Key(vote.blockID);
      if key !in byBlock {
        byBlock := byBlock[key := NewBlockVotes(false, |votes|)];
      }
      var before := byBlock[key].sum;
      var quorum := TotalPower(cfg.vals) * 2 / 3 + 1;
      var after := Recorded(byBlock[key], vote, power);
      byBlock := byBlock[key := after];
      assert byBlock == Filed(old(State()), vote, power).byBlock;
      if before < quorum <= after.sum && maj23.None? {
        maj23 := Some(vote.blockID);
        CopyVotes(after.votes);
      }
    }

    method CopyVotes(from: seq<Option<Vote>>)
      requires |from| == |votes|
      modifies this`votes
      ensures votes == CopiedOver(old(votes), from)
    {
      var i := 0;
      while i < |from|
        invariant 0 <= i <= |from| == |votes|
        invariant forall j :: 0 <= j < i ==> votes[j] == CopiedOver(old(votes), from)[j]
        invariant forall j :: i <= j < |from| ==> votes[j] == old(votes)[j]
      {
        if from[i].Some? {
          votes := votes[i := from[i]];
        }
        i := i + 1;
      }
    }

    method SetPeerMaj23(peer: string, blockID: BlockID) returns (ok: bool)
      requires Valid()
      modifies this
      ensures Valid() && (State(), ok) == ClaimMaj23(old(State()), peer, blockID)
    {
      ClaimInv(cfg, State(), peer, blockID);
      InvSized(cfg, ClaimMaj23(State(), peer, blockID).0);
      ok := RecordClaim(peer, blockID);
    }

    method RecordClaim(peer: string, blockID: BlockID) returns (ok: bool)
      modifies this
      ensures (State(), ok) == ClaimMaj23(old(State()), peer, blockID)
    {
      if peer in peers {
        return peers[peer] == blockID;
      }
      peers := peers[peer := blockID];
      var key := Key(blockID);
      if key in byBlock {
        if byBlock[key].peerMaj23 {
          assert byBlock[key := byBlock[key].(peerMaj23 := true)] == byBlock;
          return true;
        }
        byBlock := byBlock[key := byBlock[key].(peerMaj23 := true)];
      } else {
        byBlock := byBlock[key := NewBlockVotes(true, |votes|)];
      }
      return true;
    }
  }
}
