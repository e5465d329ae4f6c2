/** Whole runs of a vote set: any votes and peer claims, in any order. */
module VoteRuns {
  import opened Common
  import opened Validators
  import opened Votes
  import opened VoteSets
  import V = Validation
  import M = ProposerMath

  datatype Event = Cast(vote: Vote) | Claim(peer: string, blockID: BlockID)

  function Step(cfg: Config, t: Tally, e: Event): Tally
    requires Sized(|cfg.vals|, t)
  {
    match e
    case Cast(vote) => AddVoteTo(cfg, t, vote).0
    case Claim(peer, blockID) => ClaimMaj23(t, peer, blockID).0
  }

  lemma StepSized(cfg: Config, t: Tally, e: Event)
    requires Sized(|cfg.vals|, t)
    ensures Sized(|cfg.vals|, Step(cfg, t, e))
  {
    if e.Cast? {
      AddVoteSized(cfg, t, e.vote);
    }
  }

  function Run(cfg: Config, events: seq<Event>): (t: Tally)
    ensures Sized(|cfg.vals|, t)
  {
    if events == [] then NewTally(|cfg.vals|)
    else
      var t := Run(cfg, events[..|events| - 1]);
      StepSized(cfg, t, events[|events| - 1]);
      Step(cfg, t, events[|events| - 1])
  }

  lemma RunSnoc(cfg: Config, events: seq<Event>, e: Event)
    ensures Run(cfg, events + [e]) == Step(cfg, Run(cfg, events), e)
  {
  }

  /** What one more event of some kind keeps, any number of them keeps. */
  lemma {:induction false} EventsKeep(good: seq<Event> -> bool, allowed: Event -> bool, start: seq<Event>,
      more: seq<Event>)
    requires good(start) && forall i :: 0 <= i < |more| ==> allowed(more[i])
    requires forall events, e :: good(events) && allowed(e) ==> good(events + [e])
    ensures good(start + more)
  {
    if more == [] {
      assert start + more == start;
    } else {
      var n := |more| - 1;
      EventsKeep(good, allowed, start, more[..n]);
      assert start + more == start + more[..n] + [more[n]];
    }
  }

  /** The invariant holds after every run. */
  lemma {:induction false} RunInv(cfg: Config, events: seq<Event>)
    requires V.NonNegative(cfg.vals)
    ensures Inv(cfg, Run(cfg, events))
  {
    if events == [] {
      NewInv(cfg);
    } else {
      var t := Run(cfg, events[..|events| - 1]);
      RunInv(cfg, events[..|events| - 1]);
      match events[|events| - 1]
      case Cast(vote) => AddVoteInv(cfg, t, vote);
      case Claim(peer, blockID) => ClaimInv(cfg, t, peer, blockID);
    }
  }

  /** What the invariant says to a reader: the counts are the power of the recorded
      voters, there is a majority exactly when a tracked block has the quorum, and
      the tracked blocks are at most as many as voters and claims. */
  lemma RefinesCount(cfg: Config, events: seq<Event>)
    requires V.NonNegative(cfg.vals)
    ensures var t := Run(cfg, events);
            && t.sum == M.SumIn(Powers(cfg.vals), Voted(t.votes)) <= TotalPower(cfg.vals)
            && (forall k :: k in t.byBlock ==>
                  t.byBlock[k].sum == M.SumIn(Powers(cfg.vals), Voted(t.byBlock[k].votes)) <= t.sum)
            && (t.maj23.Some? <==> exists k :: k in t.byBlock && t.byBlock[k].sum >= Quorum(cfg))
            && (t.maj23.Some? ==> Key(t.maj23.value) in t.byBlock && t.byBlock[Key(t.maj23.value)].sum >= Quorum(cfg)
                                  && forall i :: i in Voted(t.byBlock[Key(t.maj23.value)].votes)
                                       ==> t.votes[i] == t.byBlock[Key(t.maj23.value)].votes[i])
            && |t.byBlock| <= |Voted(t.votes)| + |t.peers|
  {
    RunInv(cfg, events);
    var t := Run(cfg, events);
    M.SumInAtMostSum(Powers(cfg.vals), Voted(t.votes));
    forall k | k in t.byBlock
      ensures t.byBlock[k].sum == M.SumIn(Powers(cfg.vals), Voted(t.byBlock[k].votes)) <= t.sum
    {
      assert Box(RulesOf(cfg), k, t.byBlock[k]) && Voted(t.byBlock[k].votes) <= Voted(t.votes);
      M.SumInSubset(Powers(cfg.vals), Voted(t.byBlock[k].votes), Voted(t.votes));
    }
  }

  lemma StepKeepsMajority(cfg: Config, t: Tally, e: Event)
    requires Sized(|cfg.vals|, t)
    ensures t.maj23.Some? ==> Step(cfg, t, e).maj23 == t.maj23
    ensures t.sum <= Step(cfg, t, e).sum || !V.NonNegative(cfg.vals)
  {
  }

  /** A majority, once seen, never changes, whatever comes after. */
  lemma {:induction false} MajorityIsFinal(cfg: Config, events: seq<Event>, k: nat)
    requires k <= |events| && Run(cfg, events[..k]).maj23.Some?
    ensures Run(cfg, events).maj23 == Run(cfg, events[..k]).maj23
  {
    if k == |events| {
      assert events[..k] == events;
    } else {
      var shorter := events[..|events| - 1];
      assert shorter[..k] == events[..k];
      MajorityIsFinal(cfg, shorter, k);
      StepKeepsMajority(cfg, Run(cfg, shorter), events[|events| - 1]);
    }
  }

  // ----- without equivocation the order of arrival does not matter

  predicate HasKey(vote: Option<Vote>, key: Bytes) {
    vote.Some? && Key(vote.value.blockID) == key
  }

  ghost predicate VotedFor(votes: seq<Option<Vote>>, key: Bytes) {
    exists i :: 0 <= i < |votes| && HasKey(votes[i], key)
  }

  ghost predicate ClaimedFor(peers: map<string, BlockID>, key: Bytes) {
    exists p :: p in peers && Key(peers[p]) == key
  }

  ghost predicate SortedInto(votes: seq<Option<Vote>>, key: Bytes, tracked: seq<Option<Vote>>) {
    && |tracked| == |votes|
    && forall i :: 0 <= i < |votes| ==> tracked[i] == if HasKey(votes[i], key) then votes[i] else None
  }

  /** The tracked votes are just the canonical ones, sorted by key. */
  ghost predicate Sorted(votes: seq<Option<Vote>>, byBlock: map<Bytes, BlockVotes>) {
    forall k :: k in byBlock ==> SortedInto(votes, k, byBlock[k].votes)
  }

  ghost predicate Named(t: Tally) {
    && (forall k :: k in t.byBlock <==> VotedFor(t.votes, k) || ClaimedFor(t.peers, k))
    && (forall k :: k in t.byBlock ==> (t.byBlock[k].peerMaj23 <==> ClaimedFor(t.peers, k)))
  }

  /** Nothing in the tally but the canonical votes and the claims. */
  ghost predicate Derived(t: Tally) {
    Sorted(t.votes, t.byBlock) && Named(t)
  }

  lemma SortedSet(votes: seq<Option<Vote>>, key: Bytes, tracked: seq<Option<Vote>>, vote: Vote)
    requires SortedInto(votes, key, tracked) && 0 <= vote.index < |votes| && votes[vote.index].None?
    ensures Key(vote.blockID) == key ==>
              SortedInto(votes[vote.index := Some(vote)], key, tracked[vote.index := Some(vote)])
    ensures Key(vote.blockID) != key ==> SortedInto(votes[vote.index := Some(vote)], key, tracked)
  {
  }

  lemma VotedForSet(votes: seq<Option<Vote>>, key: Bytes, vote: Vote)
    requires 0 <= vote.index < |votes| && votes[vote.index].None?
    ensures VotedFor(votes[vote.index := Some(vote)], key) <==> VotedFor(votes, key) || Key(vote.blockID) == key
  {
    var more := votes[vote.index := Some(vote)];
    if i :| 0 <= i < |votes| && HasKey(votes[i], key) {
      assert HasKey(more[i], key);
    }
    if Key(vote.blockID) == key {
      assert HasKey(more[vote.index], key);
    }
    if i :| 0 <= i < |more| && HasKey(more[i], key) {
      assert i != vote.index ==> HasKey(votes[i], key);
    }
  }

  /** The box a first vote goes to. */
  lemma FirstBox(t: Tally, vote: Vote, power: int)
    requires Derived(t) && Sized(|t.votes|, t) && 0 <= vote.index < |t.votes| && t.votes[vote.index].None?
    ensures var (key, before) := (Key(vote.blockID), VotesFor(t, Key(vote.blockID)));
            && before.votes[vote.index].None?
            && SortedInto(t.votes[vote.index := Some(vote)], key, Recorded(before, vote, power).votes)
            && (Recorded(before, vote, power).peerMaj23 <==> ClaimedFor(t.peers, key))
  {
  }

  lemma FiledDerived(t: Tally, vote: Vote, power: int)
    requires Derived(t) && Sized(|t.votes|, t) && 0 <= vote.index < |t.votes| && t.votes[vote.index].None?
    ensures Derived(Filed(Placed(t, vote, power), vote, power))
  {
    FirstBox(t, vote, power);
    var filed := Filed(Placed(t, vote, power), vote, power);
    assert filed.votes == t.votes[vote.index := Some(vote)];
    forall k | k in filed.byBlock ensures SortedInto(filed.votes, k, filed.byBlock[k].votes) {
      if k != Key(vote.blockID) {
        assert SortedInto(t.votes, k, t.byBlock[k].votes);
        SortedSet(t.votes, k, t.byBlock[k].votes, vote);
      }
    }
    forall k ensures VotedFor(filed.votes, k) <==> VotedFor(t.votes, k) || Key(vote.blockID) == k {
      VotedForSet(t.votes, k, vote);
    }
  }

  lemma CopiesNothing(votes: seq<Option<Vote>>, key: Bytes, tracked: seq<Option<Vote>>)
    requires SortedInto(votes, key, tracked)
    ensures CopiedOver(votes, tracked) == votes
  {
  }

  lemma TrackedDerived(cfg: Config, t: Tally, vote: Vote, power: int)
    requires 0 <= vote.index < |t.votes| && Sized(|t.votes|, t) && Derived(Filed(t, vote, power))
    ensures var next := Tracked(Quorum(cfg), t, vote, power);
            Derived(next) && next.votes == t.votes && next.peers == t.peers
  {
    var (key, filed) := (Key(vote.blockID), Filed(t, vote, power));
    assert SortedInto(filed.votes, key, filed.byBlock[key].votes);
    CopiesNothing(filed.votes, key, filed.byBlock[key].votes);
  }

  lemma FirstIsAdded(cfg: Config, t: Tally, vote: Vote)
    requires Sized(|cfg.vals|, t) && Good(cfg, vote) && t.votes[vote.index].None?
    requires VotesFor(t, Key(vote.blockID)).votes[vote.index].None?
    ensures var power := cfg.vals[vote.index].power;
            AddVoteTo(cfg, t, vote).0 == Tracked(Quorum(cfg), Placed(t, vote, power), vote, power)
  {
  }

  /** A first vote of a validator. */
  lemma FirstVote(cfg: Config, t: Tally, vote: Vote)
    requires Derived(t) && Sized(|cfg.vals|, t) && Good(cfg, vote) && t.votes[vote.index].None?
    ensures var next := AddVoteTo(cfg, t, vote).0;
            Derived(next) && next.votes == t.votes[vote.index := Some(vote)] && next.peers == t.peers
  {
    var power := cfg.vals[vote.index].power;
    FirstBox(t, vote, power);
    FiledDerived(t, vote, power);
    TrackedDerived(cfg, Placed(t, vote, power), vote, power);
    FirstIsAdded(cfg, t, vote);
  }

  lemma ClaimDerived(t: Tally, peer: string, blockID: BlockID)
    requires Derived(t) && Sized(|t.votes|, t) && peer !in t.peers
    ensures Derived(ClaimMaj23(t, peer, blockID).0)
  {
    var (key, u) := (Key(blockID), ClaimMaj23(t, peer, blockID).0);
    forall k | k in u.byBlock ensures SortedInto(u.votes, k, u.byBlock[k].votes) {
      if k in t.byBlock {
        assert SortedInto(t.votes, k, t.byBlock[k].votes);
      } else {
        assert !VotedFor(t.votes, k);
        assert forall i :: 0 <= i < |t.votes| ==> !HasKey(t.votes[i], k);
      }
    }
    forall k ensures ClaimedFor(u.peers, k) <==> ClaimedFor(t.peers, k) || k == key {
      if p :| p in t.peers && Key(t.peers[p]) == k {
        assert p in u.peers && Key(u.peers[p]) == k;
      }
      if k == key {
        assert peer in u.peers && Key(u.peers[peer]) == k;
      }
    }
  }

  predicate CastGood(cfg: Config, events: seq<Event>, i: int, vote: Vote) {
    Cast(vote) in events && Good(cfg, vote) && vote.index == i
  }

  /** Each canonical vote was cast, who cast a good vote has one, and the claims are those
      made. */
  ghost predicate Registered(cfg: Config, t: Tally, events: seq<Event>) {
    && (forall i :: 0 <= i < |t.votes| && t.votes[i].Some? ==> CastGood(cfg, events, i, t.votes[i].value))
    && (forall i, v :: 0 <= i < |t.votes| && CastGood(cfg, events, i, v) ==> t.votes[i].Some?)
    && (forall p, b :: p in t.peers && t.peers[p] == b <==> Claim(p, b) in events)
  }

  /** The canonical votes are the good votes cast, the claims those made. */
  ghost predicate Ledger(cfg: Config, t: Tally, events: seq<Event>) {
    && (forall i, v :: 0 <= i < |t.votes| ==> (t.votes[i] == Some(v) <==> CastGood(cfg, events, i, v)))
    && (forall p, b :: p in t.peers && t.peers[p] == b <==> Claim(p, b) in events)
  }

  /** No equivocation: no validator casts good votes for two blocks, and no peer makes two
      claims. */
  ghost predicate Loyal(cfg: Config, events: seq<Event>) {
    && (forall i, v, w :: CastGood(cfg, events, i, v) && CastGood(cfg, events, i, w) ==> v.blockID == w.blockID)
    && (forall p, b, c :: Claim(p, b) in events && Claim(p, c) in events ==> b == c)
  }

  /** And not even one block's vote in two forms. */
  ghost predicate Honest(cfg: Config, events: seq<Event>) {
    && Loyal(cfg, events)
    && (forall i, v, w :: CastGood(cfg, events, i, v) && CastGood(cfg, events, i, w) ==> v == w)
  }

  lemma LoyalPrefix(cfg: Config, events: seq<Event>, e: Event)
    requires Loyal(cfg, events + [e])
    ensures Loyal(cfg, events)
  {
    assert forall f :: f in events ==> f in events + [e];
    forall i, v, w | CastGood(cfg, events, i, v) && CastGood(cfg, events, i, w) ensures v.blockID == w.blockID {
      assert CastGood(cfg, events + [e], i, v) && CastGood(cfg, events + [e], i, w);
    }
  }

  /** A validator's second good vote changes nothing: it is a duplicate, or refused for its
      other signature. */
  lemma VotedAgain(cfg: Config, t: Tally, events: seq<Event>, vote: Vote)
    requires Sized(|cfg.vals|, t) && Registered(cfg, t, events) && Loyal(cfg, events + [Cast(vote)])
    requires Good(cfg, vote) && t.votes[vote.index].Some?
    ensures AddVoteTo(cfg, t, vote).0 == t
  {
    var (i, more) := (vote.index, events + [Cast(vote)]);
    assert CastGood(cfg, events, i, t.votes[i].value);
    assert CastGood(cfg, more, i, t.votes[i].value) && CastGood(cfg, more, i, vote);
  }

  lemma OneMoreCast(cfg: Config, t: Tally, next: Tally, events: seq<Event>, vote: Vote)
    requires Registered(cfg, t, events) && Good(cfg, vote) && 0 <= vote.index < |t.votes| && next.peers == t.peers
    requires next.votes == if t.votes[vote.index].None? then t.votes[vote.index := Some(vote)] else t.votes
    ensures Registered(cfg, next, events + [Cast(vote)])
  {
    var (i, more) := (vote.index, events + [Cast(vote)]);
    assert forall p, b :: Claim(p, b) in more <==> Claim(p, b) in events;
    assert CastGood(cfg, more, i, vote);
    assert forall j, v :: CastGood(cfg, more, j, v) <==> CastGood(cfg, events, j, v) || (j == i && v == vote);
  }

  lemma VoteRegistered(cfg: Config, t: Tally, events: seq<Event>, vote: Vote)
    requires Derived(t) && Sized(|cfg.vals|, t) && Registered(cfg, t, events) && Loyal(cfg, events + [Cast(vote)])
    ensures Derived(AddVoteTo(cfg, t, vote).0)
    ensures Registered(cfg, AddVoteTo(cfg, t, vote).0, events + [Cast(vote)])
  {
    if Good(cfg, vote) {
      if t.votes[vote.index].None? {
        FirstVote(cfg, t, vote);
      } else {
        VotedAgain(cfg, t, events, vote);
      }
      OneMoreCast(cfg, t, AddVoteTo(cfg, t, vote).0, events, vote);
    } else {
      var more := events + [Cast(vote)];
      assert forall p, b :: Claim(p, b) in more <==> Claim(p, b) in events;
      assert forall j, v :: CastGood(cfg, more, j, v) <==> CastGood(cfg, events, j, v);
    }
  }

  lemma ClaimRegistered(cfg: Config, t: Tally, events: seq<Event>, peer: string, blockID: BlockID)
    requires Derived(t) && Sized(|cfg.vals|, t)
    requires Registered(cfg, t, events) && Loyal(cfg, events + [Claim(peer, blockID)])
    ensures Derived(ClaimMaj23(t, peer, blockID).0)
    ensures Registered(cfg, ClaimMaj23(t, peer, blockID).0, events + [Claim(peer, blockID)])
  {
    var (more, next) := (events + [Claim(peer, blockID)], ClaimMaj23(t, peer, blockID).0);
    assert forall j, v :: CastGood(cfg, more, j, v) <==> CastGood(cfg, events, j, v);
    if peer in t.peers {
      assert Claim(peer, t.peers[peer]) in events;
      assert Claim(peer, t.peers[peer]) in more && Claim(peer, blockID) in more;
    } else {
      ClaimDerived(t, peer, blockID);
      assert forall b :: Claim(peer, b) !in events;
    }
  }

  /** Without equivocation the canonical votes are good votes cast, one of everyone who cast
      any, and the rest derives from them and the claims. */
  lemma {:induction false} RunRegistered(cfg: Config, events: seq<Event>)
    requires Loyal(cfg, events)
    ensures Derived(Run(cfg, events)) && Registered(cfg, Run(cfg, events), events)
  {
    if events == [] {
      assert Derived(NewTally(|cfg.vals|));
    } else {
      var (shorter, e) := (events[..|events| - 1], events[|events| - 1]);
      assert events == shorter + [e];
      LoyalPrefix(cfg, shorter, e);
      RunRegistered(cfg, shorter);
      match e
      case Cast(vote) => VoteRegistered(cfg, Run(cfg, shorter), shorter, vote);
      case Claim(peer, blockID) => ClaimRegistered(cfg, Run(cfg, shorter), shorter, peer, blockID);
    }
  }

  /** And where no vote comes in two forms, they are exactly the good votes cast. */
  lemma RunLedger(cfg: Config, events: seq<Event>)
    requires Honest(cfg, events)
    ensures Derived(Run(cfg, events)) && Ledger(cfg, Run(cfg, events), events)
  {
    RunRegistered(cfg, events);
  }

  // ----- block IDs that are nil or complete

  ghost predicate WholeVotes(votes: seq<Option<Vote>>) {
    forall i :: 0 <= i < |votes| && votes[i].Some? ==> NilOrComplete(votes[i].value.blockID)
  }

  ghost predicate Whole(t: Tally) {
    && WholeVotes(t.votes)
    && (t.maj23.Some? ==> NilOrComplete(t.maj23.value))
    && (forall k :: k in t.byBlock ==> WholeVotes(t.byBlock[k].votes))
  }

  ghost predicate WholeEvents(events: seq<Event>) {
    forall v :: Cast(v) in events ==> NilOrComplete(v.blockID)
  }

  ghost predicate AllCast(votes: seq<Option<Vote>>, events: seq<Event>) {
    forall i :: 0 <= i < |votes| && votes[i].Some? ==> Cast(votes[i].value) in events
  }

  /** Whatever is in the tally was cast. */
  ghost predicate Sourced(t: Tally, events: seq<Event>) {
    && AllCast(t.votes, events)
    && (t.maj23.Some? ==> exists v :: Cast(v) in events && v.blockID == t.maj23.value)
    && (forall k :: k in t.byBlock ==> AllCast(t.byBlock[k].votes, events))
  }

  lemma TrackedSourced(quorum: int, t: Tally, vote: Vote, power: int, events: seq<Event>)
    requires Sourced(t, events) && Sized(|t.votes|, t) && 0 <= vote.index < |t.votes| && Cast(vote) in events
    ensures Sourced(Tracked(quorum, t, vote, power), events)
  {
    var box := Recorded(VotesFor(t, Key(vote.blockID)), vote, power);
    assert AllCast(box.votes, events);
  }

  lemma PlacedSourced(t: Tally, vote: Vote, power: int, events: seq<Event>)
    requires Sourced(t, events) && 0 <= vote.index < |t.votes| == |t.bits| && Cast(vote) in events
    ensures Sourced(Placed(t, vote, power), events)
  {
  }

  lemma ClaimSourced(t: Tally, peer: string, blockID: BlockID, events: seq<Event>)
    requires Sourced(t, events)
    ensures Sourced(ClaimMaj23(t, peer, blockID).0, events)
  {
  }

  lemma VoteSourced(cfg: Config, t: Tally, vote: Vote, events: seq<Event>)
    requires Sourced(t, events) && Sized(|cfg.vals|, t) && Cast(vote) in events
    ensures Sourced(AddVoteTo(cfg, t, vote).0, events)
  {
    if Unfit(cfg, vote) == None {
      var power := cfg.vals[vote.index].power;
      PlacedSourced(t, vote, power, events);
      TrackedSourced(Quorum(cfg), Placed(t, vote, power), vote, power, events);
    }
  }

  lemma StepSourced(cfg: Config, t: Tally, e: Event, events: seq<Event>)
    requires Sourced(t, events) && Sized(|cfg.vals|, t) && e in events
    ensures Sourced(Step(cfg, t, e), events)
  {
    match e
    case Cast(vote) => VoteSourced(cfg, t, vote, events);
    case Claim(peer, blockID) => ClaimSourced(t, peer, blockID, events);
  }

  lemma {:induction false} RunSourced(cfg: Config, events: seq<Event>, all: seq<Event>)
    requires forall e :: e in events ==> e in all
    ensures Sourced(Run(cfg, events), all)
  {
    if events != [] {
      var (shorter, e) := (events[..|events| - 1], events[|events| - 1]);
      assert forall f :: f in shorter ==> f in events;
      RunSourced(cfg, shorter, all);
      StepSourced(cfg, Run(cfg, shorter), e, all);
    }
  }

  lemma RunWhole(cfg: Config, events: seq<Event>)
    requires WholeEvents(events)
    ensures Whole(Run(cfg, events))
  {
    RunSourced(cfg, events, events);
  }

  // ----- the count is determined by who voted for what and the claims

  /** The same voters, each for the same block. */
  ghost predicate SameChoices(a: seq<Option<Vote>>, b: seq<Option<Vote>>) {
    && |a| == |b|
    && forall i :: 0 <= i < |a| ==>
         (a[i].Some? <==> b[i].Some?) && (a[i].Some? ==> a[i].value.blockID == b[i].value.blockID)
  }

  ghost predicate SameBox(a: BlockVotes, b: BlockVotes) {
    a.peerMaj23 == b.peerMaj23 && a.bits == b.bits && a.sum == b.sum && SameChoices(a.votes, b.votes)
  }

  /** Tallies that are equal up to timestamps and signatures. */
  ghost predicate SameCount(t: Tally, u: Tally) {
    && SameChoices(t.votes, u.votes) && t.bits == u.bits && t.sum == u.sum
    && t.maj23 == u.maj23 && t.peers == u.peers
    && t.byBlock.Keys == u.byBlock.Keys
    && forall k :: k in t.byBlock ==> SameBox(t.byBlock[k], u.byBlock[k])
  }

  lemma SameVoted(a: seq<Option<Vote>>, b: seq<Option<Vote>>)
    requires SameChoices(a, b)
    ensures Voted(a) == Voted(b)
    ensures forall x, y :: BitsAgree(x, a) && BitsAgree(y, b) ==> x == y
  {
  }

  lemma SameSorted(a: seq<Option<Vote>>, b: seq<Option<Vote>>, key: Bytes, x: seq<Option<Vote>>, y: seq<Option<Vote>>)
    requires SameChoices(a, b) && SortedInto(a, key, x) && SortedInto(b, key, y)
    ensures SameChoices(x, y)
  {
    forall i | 0 <= i < |a| ensures HasKey(a[i], key) <==> HasKey(b[i], key) {
    }
  }

  lemma SameVotedFor(a: seq<Option<Vote>>, b: seq<Option<Vote>>, key: Bytes)
    requires SameChoices(a, b) && VotedFor(a, key)
    ensures VotedFor(b, key)
  {
    var i :| 0 <= i < |a| && HasKey(a[i], key);
    assert HasKey(b[i], key);
  }

  lemma SameKeys(t: Tally, u: Tally, k: Bytes)
    requires Named(t) && Named(u) && SameChoices(t.votes, u.votes) && t.peers == u.peers
    ensures k in t.byBlock <==> k in u.byBlock
  {
    if VotedFor(t.votes, k) {
      SameVotedFor(t.votes, u.votes, k);
    }
    if VotedFor(u.votes, k) {
      SameVotedFor(u.votes, t.votes, k);
    }
  }

  /** The same keys, claimed or not. */
  ghost predicate SameNames(a: map<Bytes, BlockVotes>, b: map<Bytes, BlockVotes>) {
    a.Keys == b.Keys && forall k :: k in a ==> a[k].peerMaj23 == b[k].peerMaj23
  }

  lemma NamesAgree(t: Tally, u: Tally)
    requires Named(t) && Named(u) && SameChoices(t.votes, u.votes) && t.peers == u.peers
    ensures SameNames(t.byBlock, u.byBlock)
  {
    forall k ensures k in t.byBlock <==> k in u.byBlock {
      SameKeys(t, u, k);
    }
  }

  lemma BoxesAgree(r: Rules, k: Bytes, votes: seq<Option<Vote>>, others: seq<Option<Vote>>, a: BlockVotes,
      b: BlockVotes)
    requires SameChoices(votes, others) && a.peerMaj23 == b.peerMaj23 && Box(r, k, a) && Box(r, k, b)
    requires SortedInto(votes, k, a.votes) && SortedInto(others, k, b.votes)
    ensures SameBox(a, b)
  {
    SameSorted(votes, others, k, a.votes, b.votes);
    SameVoted(a.votes, b.votes);
  }

  lemma SameBoxes(r: Rules, t: Tally, u: Tally)
    requires Boxes(r, t) && Boxes(r, u) && Sorted(t.votes, t.byBlock) && Sorted(u.votes, u.byBlock)
    requires SameChoices(t.votes, u.votes) && SameNames(t.byBlock, u.byBlock)
    ensures forall k :: k in t.byBlock ==> SameBox(t.byBlock[k], u.byBlock[k])
  {
    forall k | k in t.byBlock ensures SameBox(t.byBlock[k], u.byBlock[k]) {
      assert k in u.byBlock.Keys;
      BoxesAgree(r, k, t.votes, u.votes, t.byBlock[k], u.byBlock[k]);
    }
  }

  /** Two keys cannot both have a quorum when nobody votes twice. */
  lemma OneQuorum(cfg: Config, t: Tally, j: Bytes, k: Bytes)
    requires V.NonNegative(cfg.vals) && Boxes(RulesOf(cfg), t) && Sorted(t.votes, t.byBlock)
    requires j in t.byBlock && k in t.byBlock
    requires t.byBlock[j].sum >= Quorum(cfg) && t.byBlock[k].sum >= Quorum(cfg)
    ensures j == k
  {
    var (a, b) := (Voted(t.byBlock[j].votes), Voted(t.byBlock[k].votes));
    var powers := Powers(cfg.vals);
    assert Box(RulesOf(cfg), j, t.byBlock[j]) && Box(RulesOf(cfg), k, t.byBlock[k]);
    assert SortedInto(t.votes, j, t.byBlock[j].votes) && SortedInto(t.votes, k, t.byBlock[k].votes);
    assert j != k ==> a * b == {};
    M.SumInOverlap(powers, a, b);
    M.SumInAtMostSum(powers, a + b);
    M.SumInEmpty(powers);
  }

  lemma SameMaj23(cfg: Config, t: Tally, u: Tally)
    requires V.NonNegative(cfg.vals) && Boxes(RulesOf(cfg), t) && Sorted(t.votes, t.byBlock)
    requires t.byBlock.Keys == u.byBlock.Keys && forall k :: k in t.byBlock ==> t.byBlock[k].sum == u.byBlock[k].sum
    requires Majority(Quorum(cfg), t) && Majority(Quorum(cfg), u) && Whole(t) && Whole(u)
    ensures t.maj23 == u.maj23
  {
    if t.maj23.Some? {
      assert Key(t.maj23.value) in u.byBlock;
    }
    if u.maj23.Some? {
      assert Key(u.maj23.value) in t.byBlock.Keys;
    }
    if t.maj23.Some? && u.maj23.Some? {
      OneQuorum(cfg, t, Key(t.maj23.value), Key(u.maj23.value));
      KeyInjective(t.maj23.value, u.maj23.value);
    }
  }

  lemma CountIsSame(cfg: Config, t: Tally, u: Tally)
    requires V.NonNegative(cfg.vals) && Inv(cfg, t) && Inv(cfg, u) && Whole(t) && Whole(u)
    requires Derived(t) && Derived(u) && SameChoices(t.votes, u.votes) && t.peers == u.peers
    ensures SameCount(t, u)
  {
    NamesAgree(t, u);
    SameBoxes(RulesOf(cfg), t, u);
    SameMaj23(cfg, t, u);
    SameVoted(t.votes, u.votes);
  }

  lemma SortedUnique(votes: seq<Option<Vote>>, key: Bytes, a: seq<Option<Vote>>, b: seq<Option<Vote>>)
    requires SortedInto(votes, key, a) && SortedInto(votes, key, b)
    ensures a == b
  {
  }

  lemma SameTally(cfg: Config, t: Tally, u: Tally)
    requires SameCount(t, u) && Derived(t) && Derived(u) && t.votes == u.votes
    ensures t == u
  {
    forall k | k in t.byBlock ensures k in u.byBlock && t.byBlock[k] == u.byBlock[k] {
      assert k in u.byBlock.Keys;
      SortedUnique(t.votes, k, t.byBlock[k].votes, u.byBlock[k].votes);
    }
    assert t.byBlock == u.byBlock;
  }

  lemma SamePeers(cfg: Config, t: Tally, u: Tally, events: seq<Event>)
    requires Registered(cfg, t, events) && Registered(cfg, u, events)
    ensures t.peers == u.peers
  {
    forall p | p in t.peers ensures p in u.peers && t.peers[p] == u.peers[p] {
      assert Claim(p, t.peers[p]) in events;
    }
    forall p | p in u.peers ensures p in t.peers {
      assert Claim(p, u.peers[p]) in events;
    }
  }

  lemma SameEvents(cfg: Config, t: Tally, u: Tally, events: seq<Event>)
    requires |t.votes| == |u.votes| && Registered(cfg, t, events) && Registered(cfg, u, events) && Loyal(cfg, events)
    ensures SameChoices(t.votes, u.votes)
    ensures Honest(cfg, events) ==> t.votes == u.votes
  {
    forall i | 0 <= i < |t.votes|
      ensures t.votes[i].Some? <==> u.votes[i].Some?
      ensures t.votes[i].Some? ==> t.votes[i].value.blockID == u.votes[i].value.blockID
      ensures Honest(cfg, events) ==> t.votes[i] == u.votes[i]
    {
      if t.votes[i].Some? {
        assert CastGood(cfg, events, i, t.votes[i].value);
      }
      if u.votes[i].Some? {
        assert CastGood(cfg, events, i, u.votes[i].value);
      }
    }
  }

  ghost predicate SameEventsIn(events: seq<Event>, others: seq<Event>) {
    forall e :: e in events <==> e in others
  }

  /** When no validator votes for two blocks and no peer makes two claims, the same events in
      any order, with any repetition, lead to the same count: voters and their blocks, bits,
      sums, the majority, the claims and everything tracked. Only which of a validator's
      votes for its block is kept can differ; and where nobody casts two, nothing does. */
  lemma OrderIndependent(cfg: Config, events: seq<Event>, others: seq<Event>)
    requires V.NonNegative(cfg.vals) && Loyal(cfg, events) && WholeEvents(events)
    requires SameEventsIn(events, others)
    ensures SameCount(Run(cfg, events), Run(cfg, others))
    ensures Honest(cfg, events) ==> Run(cfg, events) == Run(cfg, others)
  {
    var (t, u) := (Run(cfg, events), Run(cfg, others));
    assert forall i, v :: CastGood(cfg, events, i, v) <==> CastGood(cfg, others, i, v);
    RunInv(cfg, events);
    RunInv(cfg, others);
    RunWhole(cfg, events);
    RunWhole(cfg, others);
    RunRegistered(cfg, events);
    RunRegistered(cfg, others);
    SamePeers(cfg, t, u, events);
    SameEvents(cfg, t, u, events);
    CountIsSame(cfg, t, u);
    if Honest(cfg, events) {
      SameTally(cfg, t, u);
    }
  }

  // ----- and with equivocation it does

  /** The votes of a run, or its claims. */
  function Only(events: seq<Event>, casts: bool): seq<Event> {
    if events == [] then []
    else
      var (rest, e) := (Only(events[..|events| - 1], casts), events[|events| - 1]);
      if e.Cast? == casts then rest + [e] else rest
  }

  lemma {:induction false} OnlyIs(events: seq<Event>, casts: bool, e: Event)
    ensures e in Only(events, casts) <==> e in events && e.Cast? == casts
  {
    if events != [] {
      var n := |events| - 1;
      OnlyIs(events[..n], casts, e);
      assert events == events[..n] + [events[n]];
    }
  }

  /** The vote is tracked, and no other of its validator. */
  ghost predicate Alone(t: Tally, v: Vote) {
    && Sized(|t.votes|, t) && 0 <= v.index < |t.votes| && t.votes[v.index].Some?
    && Key(v.blockID) in t.byBlock
    && forall k :: k in t.byBlock ==> t.byBlock[k].votes[v.index] == if k == Key(v.blockID) then Some(v) else None
  }

  ghost predicate Unclaimed(t: Tally) {
    forall k :: k in t.byBlock ==> !t.byBlock[k].peerMaj23
  }

  lemma FirstAlone(cfg: Config, v: Vote)
    requires Good(cfg, v)
    ensures var t := AddVoteTo(cfg, NewTally(|cfg.vals|), v).0; Alone(t, v) && Unclaimed(t)
  {
    FirstIsAdded(cfg, NewTally(|cfg.vals|), v);
  }

  lemma TrackedAlone(quorum: int, t: Tally, v: Vote, vote: Vote, power: int)
    requires Alone(t, v) && Unclaimed(t) && 0 <= vote.index < |t.votes| && vote.index != v.index
    ensures var next := Tracked(quorum, t, vote, power); Alone(next, v) && Unclaimed(next)
  {
    TrackedSized(quorum, t, vote, power);
  }

  lemma PlacedAlone(t: Tally, v: Vote, vote: Vote, power: int)
    requires Alone(t, v) && Unclaimed(t) && 0 <= vote.index < |t.votes|
    ensures Alone(Placed(t, vote, power), v) && Unclaimed(Placed(t, vote, power))
    ensures vote.index == v.index ==> Untracked(t, vote)
  {
  }

  lemma CastAlone(cfg: Config, t: Tally, v: Vote, vote: Vote)
    requires Sized(|cfg.vals|, t) && Alone(t, v) && Unclaimed(t)
    ensures var next := AddVoteTo(cfg, t, vote).0; Alone(next, v) && Unclaimed(next)
  {
    if Unfit(cfg, vote) == None {
      var power := cfg.vals[vote.index].power;
      PlacedAlone(t, v, vote, power);
      if vote.index != v.index {
        TrackedAlone(Quorum(cfg), Placed(t, vote, power), v, vote, power);
      }
    }
  }

  lemma ClaimAlone(t: Tally, v: Vote, peer: string, blockID: BlockID)
    requires Alone(t, v)
    ensures Alone(ClaimMaj23(t, peer, blockID).0, v)
  {
  }

  lemma StepAlone(cfg: Config, t: Tally, v: Vote, e: Event)
    requires Sized(|cfg.vals|, t) && Alone(t, v) && (e.Cast? ==> Unclaimed(t))
    ensures Alone(Step(cfg, t, e), v) && (e.Cast? ==> Unclaimed(Step(cfg, t, e)))
  {
    match e
    case Cast(vote) => CastAlone(cfg, t, v, vote);
    case Claim(peer, blockID) => ClaimAlone(t, v, peer, blockID);
  }

  lemma NextAlone(cfg: Config, events: seq<Event>, v: Vote, e: Event)
    requires Alone(Run(cfg, events), v) && (e.Cast? ==> Unclaimed(Run(cfg, events)))
    ensures Alone(Run(cfg, events + [e]), v) && (e.Cast? ==> Unclaimed(Run(cfg, events + [e])))
  {
    RunSnoc(cfg, events, e);
    StepAlone(cfg, Run(cfg, events), v, e);
  }

  lemma OneAlone(cfg: Config, v: Vote)
    requires Good(cfg, v)
    ensures Alone(Run(cfg, [Cast(v)]), v) && Unclaimed(Run(cfg, [Cast(v)]))
  {
    RunSnoc(cfg, [], Cast(v));
    assert [] + [Cast(v)] == [Cast(v)];
    FirstAlone(cfg, v);
  }

  lemma CastsAlone(cfg: Config, v: Vote, casts: seq<Event>)
    requires Good(cfg, v) && forall e :: e in casts ==> e.Cast?
    ensures Alone(Run(cfg, [Cast(v)] + casts), v)
  {
    var good := (events: seq<Event>) => Alone(Run(cfg, events), v) && Unclaimed(Run(cfg, events));
    OneAlone(cfg, v);
    forall events, e: Event | good(events) && e.Cast? ensures good(events + [e]) {
      NextAlone(cfg, events, v, e);
    }
    EventsKeep(good, (e: Event) => e.Cast?, [Cast(v)], casts);
  }

  lemma ClaimsAlone(cfg: Config, v: Vote, start: seq<Event>, claims: seq<Event>)
    requires Alone(Run(cfg, start), v) && forall e :: e in claims ==> e.Claim?
    ensures Alone(Run(cfg, start + claims), v)
  {
    var good := (events: seq<Event>) => Alone(Run(cfg, events), v);
    forall events, e: Event | good(events) && e.Claim? ensures good(events + [e]) {
      NextAlone(cfg, events, v, e);
    }
    EventsKeep(good, (e: Event) => e.Claim?, start, claims);
  }

  /** The same events, this vote first and the claims last. */
  function VoteFirst(events: seq<Event>, v: Vote): seq<Event> {
    [Cast(v)] + Only(events, true) + Only(events, false)
  }

  lemma VoteFirstIs(cfg: Config, events: seq<Event>, v: Vote)
    requires Good(cfg, v) && Cast(v) in events
    ensures SameEventsIn(events, VoteFirst(events, v)) && Alone(Run(cfg, VoteFirst(events, v)), v)
  {
    var (casts, claims) := (Only(events, true), Only(events, false));
    forall e ensures e in casts <==> e in events && e.Cast?
             ensures e in claims <==> e in events && e.Claim?
    {
      OnlyIs(events, true, e);
      OnlyIs(events, false, e);
    }
    CastsAlone(cfg, v, casts);
    ClaimsAlone(cfg, v, [Cast(v)] + casts, claims);
  }

  ghost predicate Claims(t: Tally, peer: string, b: BlockID) {
    peer in t.peers && t.peers[peer] == b
  }

  lemma StepKeepsClaims(cfg: Config, t: Tally, e: Event, peer: string, b: BlockID)
    requires Sized(|cfg.vals|, t) && Claims(t, peer, b)
    ensures Claims(Step(cfg, t, e), peer, b)
  {
  }

  lemma NextClaims(cfg: Config, events: seq<Event>, e: Event, peer: string, b: BlockID)
    requires Claims(Run(cfg, events), peer, b)
    ensures Claims(Run(cfg, events + [e]), peer, b)
  {
    RunSnoc(cfg, events, e);
    StepKeepsClaims(cfg, Run(cfg, events), e, peer, b);
  }

  lemma FirstClaimStays(cfg: Config, peer: string, b: BlockID, events: seq<Event>)
    ensures Claims(Run(cfg, [Claim(peer, b)] + events), peer, b)
  {
    var good := (past: seq<Event>) => Claims(Run(cfg, past), peer, b);
    RunSnoc(cfg, [], Claim(peer, b));
    assert [] + [Claim(peer, b)] == [Claim(peer, b)];
    forall past, e | good(past) ensures good(past + [e]) {
      NextClaims(cfg, past, e, peer, b);
    }
    EventsKeep(good, (e: Event) => true, [Claim(peer, b)], events);
  }

  /** Two votes of one validator in two orders. */
  lemma TwoVotesShow(cfg: Config, t: Tally, u: Tally, v: Vote, w: Vote)
    requires Alone(t, v) && Alone(u, w) && v.index == w.index && v != w
    ensures t != u && (Key(v.blockID) != Key(w.blockID) ==> !SameCount(t, u))
  {
  }

  ghost predicate AnyOrderCounts(cfg: Config, events: seq<Event>) {
    forall a, b :: SameEventsIn(events, a) && SameEventsIn(events, b) ==> SameCount(Run(cfg, a), Run(cfg, b))
  }

  ghost predicate AnyOrderSame(cfg: Config, events: seq<Event>) {
    forall a, b :: SameEventsIn(events, a) && SameEventsIn(events, b) ==> Run(cfg, a) == Run(cfg, b)
  }

  lemma VotesShow(cfg: Config, events: seq<Event>, i: int, v: Vote, w: Vote)
    requires CastGood(cfg, events, i, v) && CastGood(cfg, events, i, w) && v != w
    ensures !AnyOrderSame(cfg, events)
    ensures Key(v.blockID) != Key(w.blockID) ==> !AnyOrderCounts(cfg, events)
  {
    var (a, b) := (VoteFirst(events, v), VoteFirst(events, w));
    VoteFirstIs(cfg, events, v);
    VoteFirstIs(cfg, events, w);
    TwoVotesShow(cfg, Run(cfg, a), Run(cfg, b), v, w);
    assert SameEventsIn(events, a) && SameEventsIn(events, b);
  }

  lemma ClaimsShow(cfg: Config, events: seq<Event>, peer: string, x: BlockID, y: BlockID)
    requires Claim(peer, x) in events && Claim(peer, y) in events && x != y
    ensures !AnyOrderCounts(cfg, events) && !AnyOrderSame(cfg, events)
  {
    var (a, b) := ([Claim(peer, x)] + events, [Claim(peer, y)] + events);
    FirstClaimStays(cfg, peer, x, events);
    FirstClaimStays(cfg, peer, y, events);
    assert SameEventsIn(events, a) && SameEventsIn(events, b);
    assert Run(cfg, a).peers != Run(cfg, b).peers;
  }

  lemma SameHypotheses(cfg: Config, events: seq<Event>, others: seq<Event>)
    requires SameEventsIn(events, others)
    ensures Loyal(cfg, events) ==> Loyal(cfg, others)
    ensures Honest(cfg, events) ==> Honest(cfg, others)
    ensures WholeEvents(events) ==> WholeEvents(others)
  {
    assert forall i, v :: CastGood(cfg, others, i, v) <==> CastGood(cfg, events, i, v);
  }

  /** Every order of the same events leads to the same count exactly when no validator casts
      good votes for two blocks and no peer makes two claims, and to the very same tally
      exactly when, besides, no vote comes in two forms. */
  lemma OrderIndependentIff(cfg: Config, events: seq<Event>)
    requires V.NonNegative(cfg.vals) && WholeEvents(events)
    ensures AnyOrderCounts(cfg, events) <==> Loyal(cfg, events)
    ensures AnyOrderSame(cfg, events) <==> Honest(cfg, events)
  {
    if p, x, y :| Claim(p, x) in events && Claim(p, y) in events && x != y {
      ClaimsShow(cfg, events, p, x, y);
    } else if i, v, w :| CastGood(cfg, events, i, v) && CastGood(cfg, events, i, w) && v.blockID != w.blockID {
      KeyInjective(v.blockID, w.blockID);
      VotesShow(cfg, events, i, v, w);
    } else {
      forall a, b | SameEventsIn(events, a) && SameEventsIn(events, b)
        ensures SameCount(Run(cfg, a), Run(cfg, b)) && (Honest(cfg, events) ==> Run(cfg, a) == Run(cfg, b))
      {
        SameHypotheses(cfg, events, a);
        OrderIndependent(cfg, a, b);
      }
      if i, v, w :| CastGood(cfg, events, i, v) && CastGood(cfg, events, i, w) && v != w {
        VotesShow(cfg, events, i, v, w);
      }
    }
  }

  // ----- canonical votes that are not tracked

  predicate IsTracked(t: Tally, i: nat)
    requires i < |t.votes| && t.votes[i].Some?
  {
    var key := Key(t.votes[i].value.blockID);
    key in t.byBlock && i < |t.byBlock[key].votes| && t.byBlock[key].votes[i] == t.votes[i]
  }

  ghost predicate AllTracked(t: Tally) {
    forall i :: 0 <= i < |t.votes| && t.votes[i].Some? ==> IsTracked(t, i)
  }

  /** A good second vote of a validator, for the majority's block, which no peer has
      claimed. */
  predicate ReplacesOnly(cfg: Config, t: Tally, vote: Vote)
    requires Sized(|cfg.vals|, t)
  {
    && Good(cfg, vote)
    && Known(t, vote.index, Key(vote.blockID)) == None
    && t.votes[vote.index].Some?
    && IsMajKey(t, Key(vote.blockID))
    && (Key(vote.blockID) in t.byBlock ==> !t.byBlock[Key(vote.blockID)].peerMaj23)
  }

  lemma FiledTracked(t: Tally, vote: Vote, power: int)
    requires NewTo(t, vote) && AllTracked(t)
    ensures AllTracked(Filed(Placed(t, vote, power), vote, power))
  {
    var filed := Filed(Placed(t, vote, power), vote, power);
    forall i | 0 <= i < |filed.votes| && filed.votes[i].Some? ensures IsTracked(filed, i) {
      if i != vote.index || filed.votes[i] == t.votes[i] {
        assert IsTracked(t, i);
      }
    }
  }

  lemma CopiedTracked(t: Tally, blockID: BlockID)
    requires AllTracked(t) && Key(blockID) in t.byBlock && |t.byBlock[Key(blockID)].votes| == |t.votes|
    requires forall v :: v in t.byBlock[Key(blockID)].votes && v.Some? ==> HasKey(v, Key(blockID))
    ensures AllTracked(t.(maj23 := Some(blockID), votes := CopiedOver(t.votes, t.byBlock[Key(blockID)].votes)))
  {
  }

  lemma AddedTracked(cfg: Config, t: Tally, vote: Vote)
    requires Inv(cfg, t) && AllTracked(t) && NewTo(t, vote) && Good(cfg, vote) && !Untracked(t, vote)
    ensures var power := cfg.vals[vote.index].power;
            AllTracked(Tracked(Quorum(cfg), Placed(t, vote, power), vote, power))
  {
    var power := cfg.vals[vote.index].power;
    var (placed, filed) := (Placed(t, vote, power), Filed(Placed(t, vote, power), vote, power));
    FiledTracked(t, vote, power);
    PlacedBoxes(RulesOf(cfg), t, vote, power);
    FiledBoxes(RulesOf(cfg), placed, vote, power);
    assert Box(RulesOf(cfg), Key(vote.blockID), filed.byBlock[Key(vote.blockID)]);
    CopiedTracked(filed, vote.blockID);
  }

  lemma ReplacedTracked(t: Tally, vote: Vote, power: int)
    requires NewTo(t, vote) && AllTracked(t) && Untracked(t, vote)
    ensures AllTracked(Placed(t, vote, power)) <==> !IsMajKey(t, Key(vote.blockID))
  {
    var placed := Placed(t, vote, power);
    if IsMajKey(t, Key(vote.blockID)) {
      assert placed.votes[vote.index] == Some(vote);
      assert !IsTracked(placed, vote.index);
    }
  }

  /** A vote leaves some canonical vote untracked exactly when it replaces one for the
      majority's sake where no peer has claimed the majority. */
  lemma UntrackedIff(cfg: Config, t: Tally, vote: Vote)
    requires Inv(cfg, t) && Sized(|cfg.vals|, t) && AllTracked(t)
    ensures AllTracked(AddVoteTo(cfg, t, vote).0) <==> !ReplacesOnly(cfg, t, vote)
  {
    var next := AddVoteTo(cfg, t, vote).0;
    if Good(cfg, vote) && Known(t, vote.index, Key(vote.blockID)) == None {
      var power := cfg.vals[vote.index].power;
      if Untracked(t, vote) {
        assert next == Placed(t, vote, power);
        ReplacedTracked(t, vote, power);
      } else {
        AddedTracked(cfg, t, vote);
      }
    }
  }

  /** A canonical vote for the majority without an entry among the tracked ones. */
  predicate Stuck(t: Tally, i: int) {
    && 0 <= i < |t.votes| && Sized(|t.votes|, t) && t.votes[i].Some?
    && var key := Key(t.votes[i].value.blockID);
    && IsMajKey(t, key) && key in t.byBlock && t.byBlock[key].votes[i].None?
  }

  lemma ReplacingSticks(cfg: Config, t: Tally, vote: Vote)
    requires Sized(|cfg.vals|, t) && ReplacesOnly(cfg, t, vote) && Majority(Quorum(cfg), t)
    ensures Stuck(AddVoteTo(cfg, t, vote).0, vote.index)
  {
    assert AddVoteTo(cfg, t, vote).0 == Placed(t, vote, cfg.vals[vote.index].power);
  }

  lemma TrackedStuck(quorum: int, t: Tally, i: int, vote: Vote, power: int)
    requires Stuck(t, i) && 0 <= vote.index < |t.votes|
    requires vote.index == i ==> !IsMajKey(t, Key(vote.blockID))
    ensures Stuck(Tracked(quorum, t, vote, power), i)
  {
    TrackedSized(quorum, t, vote, power);
    JustFiled(quorum, t, vote, power);
  }

  lemma VoteStuck(cfg: Config, t: Tally, i: int, vote: Vote)
    requires Sized(|cfg.vals|, t) && Stuck(t, i)
    ensures Stuck(AddVoteTo(cfg, t, vote).0, i)
  {
    if Unfit(cfg, vote) == None && Known(t, vote.index, Key(vote.blockID)) == None {
      var power := cfg.vals[vote.index].power;
      assert vote.index == i ==> !IsMajKey(t, Key(vote.blockID));
      assert Stuck(Placed(t, vote, power), i);
      TrackedStuck(Quorum(cfg), Placed(t, vote, power), i, vote, power);
    }
  }

  lemma ClaimStuck(t: Tally, i: int, peer: string, blockID: BlockID)
    requires Stuck(t, i)
    ensures Stuck(ClaimMaj23(t, peer, blockID).0, i)
  {
  }

  lemma StepStuck(cfg: Config, t: Tally, i: int, e: Event)
    requires Sized(|cfg.vals|, t) && Stuck(t, i)
    ensures Stuck(Step(cfg, t, e), i)
  {
    match e
    case Cast(vote) => VoteStuck(cfg, t, i, vote);
    case Claim(peer, blockID) => ClaimStuck(t, i, peer, blockID);
  }

  lemma NextStuck(cfg: Config, events: seq<Event>, e: Event, i: int)
    requires Stuck(Run(cfg, events), i)
    ensures Stuck(Run(cfg, events + [e]), i)
  {
    RunSnoc(cfg, events, e);
    StepStuck(cfg, Run(cfg, events), i, e);
  }

  lemma StuckForGood(cfg: Config, start: seq<Event>, more: seq<Event>, i: int)
    requires Stuck(Run(cfg, start), i)
    ensures Stuck(Run(cfg, start + more), i)
  {
    var good := (past: seq<Event>) => Stuck(Run(cfg, past), i);
    forall past, e | good(past) ensures good(past + [e]) {
      NextStuck(cfg, past, e, i);
    }
    EventsKeep(good, (e: Event) => true, start, more);
  }

  /** Event `k` of the run is such a second vote. */
  predicate ReplacesAt(cfg: Config, events: seq<Event>, k: int) {
    0 <= k < |events| && events[k].Cast? && ReplacesOnly(cfg, Run(cfg, events[..k]), events[k].vote)
  }

  lemma StuckIsUntracked(t: Tally, i: int)
    requires Stuck(t, i)
    ensures !AllTracked(t)
  {
    assert !IsTracked(t, i);
  }

  lemma ReplacedSticks(cfg: Config, before: seq<Event>, vote: Vote)
    requires V.NonNegative(cfg.vals) && ReplacesOnly(cfg, Run(cfg, before), vote)
    ensures Stuck(Run(cfg, before + [Cast(vote)]), vote.index)
  {
    RunInv(cfg, before);
    RunSnoc(cfg, before, Cast(vote));
    ReplacingSticks(cfg, Run(cfg, before), vote);
  }

  lemma ReplacedForGood(cfg: Config, before: seq<Event>, vote: Vote, after: seq<Event>)
    requires V.NonNegative(cfg.vals) && ReplacesOnly(cfg, Run(cfg, before), vote)
    ensures !AllTracked(Run(cfg, before + [Cast(vote)] + after))
  {
    ReplacedSticks(cfg, before, vote);
    StuckForGood(cfg, before + [Cast(vote)], after, vote.index);
    StuckIsUntracked(Run(cfg, before + [Cast(vote)] + after), vote.index);
  }

  lemma ClaimTracked(t: Tally, peer: string, blockID: BlockID)
    requires AllTracked(t)
    ensures AllTracked(ClaimMaj23(t, peer, blockID).0)
  {
    var next := ClaimMaj23(t, peer, blockID).0;
    forall i | 0 <= i < |next.votes| && next.votes[i].Some? ensures IsTracked(next, i) {
      assert IsTracked(t, i);
    }
  }

  lemma StepTracked(cfg: Config, t: Tally, e: Event)
    requires Inv(cfg, t) && Sized(|cfg.vals|, t) && AllTracked(t)
    requires e.Cast? ==> !ReplacesOnly(cfg, t, e.vote)
    ensures AllTracked(Step(cfg, t, e))
  {
    match e
    case Cast(vote) => UntrackedIff(cfg, t, vote);
    case Claim(peer, blockID) => ClaimTracked(t, peer, blockID);
  }

  lemma NextTracked(cfg: Config, events: seq<Event>, e: Event)
    requires V.NonNegative(cfg.vals) && AllTracked(Run(cfg, events))
    requires e.Cast? ==> !ReplacesOnly(cfg, Run(cfg, events), e.vote)
    ensures AllTracked(Run(cfg, events + [e]))
  {
    RunInv(cfg, events);
    RunSnoc(cfg, events, e);
    StepTracked(cfg, Run(cfg, events), e);
  }

  /** Over whole runs: every canonical vote has its entry among the tracked ones exactly when
      no vote of the run was such a second one. Once lost, an entry does not come back. */
  lemma {:induction false} UntrackedRunIff(cfg: Config, events: seq<Event>)
    requires V.NonNegative(cfg.vals)
    ensures AllTracked(Run(cfg, events)) <==> forall k :: 0 <= k < |events| ==> !ReplacesAt(cfg, events, k)
  {
    if k :| ReplacesAt(cfg, events, k) {
      ReplacedForGood(cfg, events[..k], events[k].vote, events[k + 1..]);
      assert events[..k] + [events[k]] + events[k + 1..] == events;
    } else if events != [] {
      var n := |events| - 1;
      forall k | 0 <= k < n ensures !ReplacesAt(cfg, events[..n], k) {
        assert events[..n][..k] == events[..k] && !ReplacesAt(cfg, events, k);
      }
      UntrackedRunIff(cfg, events[..n]);
      assert !ReplacesAt(cfg, events, n) && events == events[..n] + [events[n]];
      NextTracked(cfg, events[..n], events[n]);
    }
  }

  /** A validator of power 3 and one of power 1. */
  function TwoValidators(s: Scheme, key: Bytes, other: Bytes): Config {
    var vals := [Validator(s.addressOf(key), key, 3, 0), Validator(s.addressOf(other), other, 1, 0)];
    Config(s, "", 1, 0, Precommit, vals, false)
  }

  function VoteOf(cfg: Config, i: nat, blockID: BlockID, sig: Bytes): Vote
    requires i < |cfg.vals|
  {
    Vote(cfg.kind, cfg.height, cfg.round, blockID, 0, cfg.vals[i].address, i, sig, [], [])
  }

  lemma TwoQuorum(s: Scheme, key: Bytes, other: Bytes)
    ensures Quorum(TwoValidators(s, key, other)) == 3
  {
    var powers := Powers(TwoValidators(s, key, other).vals);
    assert powers == [3, 1] && [3, 1][..1] == [3] && [3][..0] == [];
    assert Sum([3]) == 3 && Sum([3, 1]) == 4;
  }

  /** The larger one makes a majority. */
  lemma LargerVotes(s: Scheme, key: Bytes, other: Bytes, a: BlockID, sig: Bytes)
    requires var cfg := TwoValidators(s, key, other); Good(cfg, VoteOf(cfg, 0, a, sig))
    ensures var cfg := TwoValidators(s, key, other);
            var t := AddVoteTo(cfg, NewTally(2), VoteOf(cfg, 0, a, sig)).0;
            && t.maj23 == Some(a) && t.votes == [Some(VoteOf(cfg, 0, a, sig)), None] && t.bits == [true, false]
            && t.byBlock == map[Key(a) := BlockVotes(false, [true, false], [Some(VoteOf(cfg, 0, a, sig)), None], 3)]
  {
    var cfg := TwoValidators(s, key, other);
    var (t, vote) := (NewTally(2), VoteOf(cfg, 0, a, sig));
    TwoQuorum(s, key, other);
    FirstIsAdded(cfg, t, vote);
    var placed := Placed(t, vote, 3);
    assert placed.votes == [Some(vote), None] && placed.bits == [true, false];
    var after := Recorded(VotesFor(placed, Key(a)), vote, 3);
    assert after == BlockVotes(false, [true, false], [Some(vote), None], 3);
    assert CopiedOver(placed.votes, after.votes) == [Some(vote), None];
  }

  /** The smaller one votes for something else. */
  lemma SmallerVotes(cfg: Config, t: Tally, a: BlockID, b: BlockID, sig: Bytes)
    requires |cfg.vals| == 2 && Sized(2, t) && t.maj23 == Some(a) && t.votes[1].None? && Key(b) !in t.byBlock
    requires Good(cfg, VoteOf(cfg, 1, b, sig))
    ensures var next := AddVoteTo(cfg, t, VoteOf(cfg, 1, b, sig)).0;
            && next.maj23 == t.maj23 && next.votes == t.votes[1 := Some(VoteOf(cfg, 1, b, sig))]
            && Key(b) in next.byBlock && next.byBlock == t.byBlock[Key(b) := next.byBlock[Key(b)]]
  {
  }

  lemma LateVote(cfg: Config, t: Tally, vote: Vote)
    requires Sized(|cfg.vals|, t) && ReplacesOnly(cfg, t, vote)
    ensures !AllTracked(AddVoteTo(cfg, t, vote).0)
  {
    var next := AddVoteTo(cfg, t, vote).0;
    assert next == Placed(t, vote, cfg.vals[vote.index].power);
    assert !IsTracked(next, vote.index);
  }

  /** And then for the majority: its vote becomes canonical and is not tracked. */
  lemma UntrackedHappens(s: Scheme, key: Bytes, other: Bytes, a: BlockID, b: BlockID, sigs: seq<Bytes>)
    requires |sigs| == 3 && Key(a) != Key(b) && s.addressOf(key) != [] && s.addressOf(other) != []
    requires var cfg := TwoValidators(s, key, other);
             && s.valid(key, VoteSignBytes("", VoteOf(cfg, 0, a, sigs[0])), sigs[0])
             && s.valid(other, VoteSignBytes("", VoteOf(cfg, 1, b, sigs[1])), sigs[1])
             && s.valid(other, VoteSignBytes("", VoteOf(cfg, 1, a, sigs[2])), sigs[2])
    ensures var cfg := TwoValidators(s, key, other);
            !AllTracked(Run(cfg, [Cast(VoteOf(cfg, 0, a, sigs[0])), Cast(VoteOf(cfg, 1, b, sigs[1])),
                                  Cast(VoteOf(cfg, 1, a, sigs[2]))]))
  {
    var cfg := TwoValidators(s, key, other);
    var (v, w, x) := (VoteOf(cfg, 0, a, sigs[0]), VoteOf(cfg, 1, b, sigs[1]), VoteOf(cfg, 1, a, sigs[2]));
    LargerVotes(s, key, other, a, sigs[0]);
    RunSnoc(cfg, [], Cast(v));
    var t1 := Run(cfg, [] + [Cast(v)]);
    SmallerVotes(cfg, t1, a, b, sigs[1]);
    RunSnoc(cfg, [] + [Cast(v)], Cast(w));
    var t2 := Run(cfg, [] + [Cast(v)] + [Cast(w)]);
    RunSnoc(cfg, [] + [Cast(v)] + [Cast(w)], Cast(x));
    assert [] + [Cast(v)] + [Cast(w)] + [Cast(x)] == [Cast(v), Cast(w), Cast(x)];
    LateVote(cfg, t2, x);
  }
}
