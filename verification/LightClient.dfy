/** Skipping verification (light/client.go): a bisection over the blocks a provider
    returns, with a cache of the ones that could not be verified yet. */
module LightClient {
  import opened Common
  import opened Validators
  import opened Votes
  import opened Headers
  import opened LightVerifier
  import opened LightSafety
  import opened TrustLevels
  import Arithmetic
  import Int64

  function Height(b: LightBlock): int {
    b.signed.header.height
  }

  // ----- where to try next

  const VERIFY_SKIPPING_NUMERATOR: int := 9
  const VERIFY_SKIPPING_DENOMINATOR: int := 16

  /** schedule, in int64 arithmetic. */
  function Schedule(verified: int, failed: int): int {
    var product := Int64.Wrap(Int64.Wrap(failed - verified) * VERIFY_SKIPPING_NUMERATOR);
    Int64.Wrap(verified + Int64.Quo(product, VERIFY_SKIPPING_DENOMINATOR))
  }

  /** The product in `Schedule` as a 64-bit pattern. */
  function Pattern(distance: int): int {
    (distance * VERIFY_SKIPPING_NUMERATOR) % Int64.MODULUS
  }

  lemma SameRemainder(x: int, m: int, q: int, r: int)
    requires m > 0 && x == q * m + r && 0 <= r < m
    ensures x % m == r
  {
    assert (x / m - q) * m == r - x % m;
    if x / m - q >= 1 { Arithmetic.MulMono(1, x / m - q, m); }
    if x / m - q <= -1 { Arithmetic.MulMono(x / m - q, -1, m); }
  }

  lemma WrapPattern(x: int)
    requires x >= 0
    ensures var r := x % Int64.MODULUS; Int64.Wrap(x) == if r <= Int64.MAX then r else r - Int64.MODULUS
  {
    var m := Int64.MODULUS;
    var (q, r) := (x / m, x % m);
    assert x - Int64.MIN == q * m + (r - Int64.MIN);
    if r <= Int64.MAX {
      SameRemainder(x - Int64.MIN, m, q, r - Int64.MIN);
    } else {
      SameRemainder(x - Int64.MIN, m, q + 1, r - Int64.MIN - m);
    }
  }

  /** The pivot lies strictly between the two heights exactly when the product does not
      overflow into the sign bit; in particular whenever nine times the distance fits. */
  lemma ScheduleBetween(verified: int, failed: int)
    requires 0 <= verified && verified + 2 <= failed <= Int64.MAX
    ensures verified < Schedule(verified, failed) < failed <==> 16 <= Pattern(failed - verified) <= Int64.MAX
    ensures 9 * (failed - verified) <= Int64.MAX ==> verified < Schedule(verified, failed) < failed
  {
    var d := failed - verified;
    assert Int64.Wrap(d) == d;
    WrapPattern(d * 9);
    var product := Int64.Wrap(d * 9);
    assert product <= d * 9;
    if product >= 0 {
      assert Int64.Quo(product, 16) == product / 16;
    } else {
      assert Int64.Quo(product, 16) == -((-product) / 16);
    }
  }

  /** The pivot never reaches the failed height, overflow or not. */
  lemma ScheduleBelow(verified: int, failed: int)
    requires 0 <= verified && verified + 2 <= failed <= Int64.MAX
    ensures Schedule(verified, failed) < failed
  {
    var d := failed - verified;
    assert Int64.Wrap(d) == d;
    WrapPattern(d * 9);
    var product := Int64.Wrap(d * 9);
    if product >= 0 {
      assert Int64.Quo(product, 16) == product / 16;
    } else {
      assert Int64.Quo(product, 16) == -((-product) / 16) <= 0;
    }
  }

  /** With heights this far apart the pivot falls below the verified height. */
  lemma ScheduleOverflows()
    ensures var failed := 1 + Int64.MAX / 9 + 1;
            1 < failed <= Int64.MAX && Schedule(1, failed) < 1
  {
    var failed := 1 + Int64.MAX / 9 + 1;
    assert failed == 1 + 0x0E38_E38E_38E3_8E38 + 1;
    WrapPattern((failed - 1) * 9);
  }

  // ----- the loop

  type Provider = int -> Option<LightBlock>

  /** A provider answers with a block of the height asked for, or not at all. */
  ghost predicate Answers(provider: Provider) {
    forall h :: provider(h).Some? ==> Height(provider(h).value) == h
  }

  /** What is to be verified, from what, how, and who is asked. */
  datatype Query = Query(
    check: (LightBlock, LightBlock) -> Option<VerifyError>,
    schedule: (int, int) -> int,
    provider: Provider,
    trusted: LightBlock,
    target: LightBlock)

  /** Only a higher block is accepted, and only one that is not adjacent can be left
      for later. */
  ghost predicate Upward(check: (LightBlock, LightBlock) -> Option<VerifyError>) {
    && (forall a, b :: check(a, b) == None ==> Height(b) > Height(a))
    && (forall a, b :: check(a, b) == Some(CantBeTrusted) ==> Height(b) > Height(a) + 1)
  }

  /** Pivots are below the block that failed. */
  ghost predicate Lowering(q: Query) {
    forall v, f :: Height(q.trusted) <= v && v + 2 <= f <= Height(q.target) ==> q.schedule(v, f) < f
  }

  /** Pivots lie strictly between, for heights in the gap. */
  ghost predicate Halving(q: Query) {
    forall v, f :: Height(q.trusted) <= v && v + 2 <= f <= Height(q.target) ==> v < q.schedule(v, f) < f
  }

  /** How a run ends: with the target verified, with a block that fails for good, or
      without an answer. In each case, the blocks verified on the way. */
  datatype Outcome =
    | Verified(trace: seq<LightBlock>)
    | Rejected(trace: seq<LightBlock>, block: LightBlock, error: VerifyError)
    | NotFound(trace: seq<LightBlock>, height: int)

  /** A block is the target or what the provider gave. */
  predicate From(q: Query, b: LightBlock) {
    b == q.target || q.provider(Height(b)) == Some(b)
  }

  /** The trace starts with the trusted block and each further block, from the target or
      the provider, was accepted from the one before. */
  ghost predicate Chained(q: Query, trace: seq<LightBlock>) {
    && |trace| >= 1 && trace[0] == q.trusted
    && forall i :: 0 < i < |trace| ==> q.check(trace[i - 1], trace[i]) == None && From(q, trace[i])
  }

  /** The cache runs from the target down. */
  ghost predicate Descending(q: Query, cache: seq<LightBlock>) {
    && |cache| >= 1 && cache[0] == q.target
    && (forall i, j :: 0 <= i < j < |cache| ==> Height(cache[i]) > Height(cache[j]))
    && forall i :: 0 <= i < |cache| ==> From(q, cache[i])
  }

  predicate InCache(cache: seq<LightBlock>, h: int) {
    exists k :: 0 <= k < |cache| && Height(cache[k]) == h
  }

  predicate Distinct(s: seq<int>) {
    forall i, j :: 0 <= i < j < |s| ==> s[i] != s[j]
  }

  ghost predicate Within(s: seq<int>, lo: int, hi: int) {
    forall i :: 0 <= i < |s| ==> lo < s[i] < hi
  }

  /** Everything fetched is in the cache or already passed. */
  ghost predicate Kept(fetched: seq<int>, cache: seq<LightBlock>, verified: int) {
    forall i :: 0 <= i < |fetched| ==> fetched[i] <= verified || InCache(cache, fetched[i])
  }

  /** No height was fetched twice, and none outside the gap. */
  ghost predicate Fetched(q: Query, fetched: seq<int>) {
    Distinct(fetched) && Within(fetched, Height(q.trusted), Height(q.target))
  }

  lemma {:induction false} DistinctBound(s: seq<int>, lo: int, hi: int)
    requires Distinct(s) && Within(s, lo, hi)
    ensures |s| == 0 || |s| <= hi - lo - 1
    decreases if hi > lo then hi - lo else 0
  {
    if |s| > 0 {
      assert lo < s[0] < hi;
      if k :| 0 <= k < |s| && s[k] == hi - 1 {
        var rest := s[..k] + s[k + 1..];
        assert forall i :: 0 <= i < |rest| ==> rest[i] == if i < k then s[i] else s[i + 1];
        DistinctBound(rest, lo, hi - 1);
      } else {
        DistinctBound(s, lo, hi - 1);
      }
    }
  }

  /** The state of the search. */
  ghost predicate Searching(q: Query, cache: seq<LightBlock>, trace: seq<LightBlock>, fetched: seq<int>) {
    && Chained(q, trace) && Descending(q, cache) && Fetched(q, fetched)
    && var verified := Height(trace[|trace| - 1]);
    && verified >= Height(q.trusted)
    && (|cache| > 1 ==> Height(cache[|cache| - 1]) > verified)
    && Kept(fetched, cache, verified)
  }

  lemma KeptBelow(q: Query, fetched: seq<int>, cache: seq<LightBlock>, verified: int, depth: nat)
    requires Descending(q, cache) && depth < |cache|
    requires Kept(fetched, cache, verified) && verified <= Height(cache[depth])
    ensures Kept(fetched, cache[..depth], Height(cache[depth]))
  {
    var (rest, h) := (cache[..depth], Height(cache[depth]));
    forall i | 0 <= i < |fetched| ensures fetched[i] <= h || InCache(rest, fetched[i]) {
      if fetched[i] > h {
        var k :| 0 <= k < |cache| && Height(cache[k]) == fetched[i];
        assert Height(rest[k]) == fetched[i];
      }
    }
  }

  /** After a block of the cache is verified, the rest of the cache is above it. */
  lemma Narrowed(q: Query, cache: seq<LightBlock>, trace: seq<LightBlock>, fetched: seq<int>, depth: nat)
    requires Upward(q.check) && Searching(q, cache, trace, fetched) && 0 < depth < |cache|
    requires q.check(trace[|trace| - 1], cache[depth]) == None
    ensures Searching(q, cache[..depth], trace + [cache[depth]], fetched)
  {
    KeptBelow(q, fetched, cache, Height(trace[|trace| - 1]), depth);
  }

  lemma KeptMore(fetched: seq<int>, cache: seq<LightBlock>, verified: int, b: LightBlock)
    requires Kept(fetched, cache, verified)
    ensures Kept(fetched + [Height(b)], cache + [b], verified)
  {
    var more := fetched + [Height(b)];
    forall i | 0 <= i < |more| ensures more[i] <= verified || InCache(cache + [b], more[i]) {
      if i == |fetched| {
        assert Height((cache + [b])[|cache|]) == more[i];
      } else if fetched[i] > verified {
        var k :| 0 <= k < |cache| && Height(cache[k]) == fetched[i];
        assert Height((cache + [b])[k]) == fetched[i];
      }
    }
  }

  lemma NotYetFetched(q: Query, fetched: seq<int>, cache: seq<LightBlock>, verified: int, h: int)
    requires Kept(fetched, cache, verified) && Descending(q, cache) && verified < h < Height(cache[|cache| - 1])
    ensures h !in fetched
  {
    forall i | 0 <= i < |fetched| ensures fetched[i] != h {
      if fetched[i] > verified {
        var k :| 0 <= k < |cache| && Height(cache[k]) == fetched[i];
      }
    }
  }

  /** A new block, between the verified one and the cache. */
  lemma Widened(q: Query, cache: seq<LightBlock>, trace: seq<LightBlock>, fetched: seq<int>, b: LightBlock)
    requires Searching(q, cache, trace, fetched) && From(q, b)
    requires Height(trace[|trace| - 1]) < Height(b) < Height(cache[|cache| - 1])
    ensures Searching(q, cache + [b], trace, fetched + [Height(b)])
  {
    NotYetFetched(q, fetched, cache, Height(trace[|trace| - 1]), Height(b));
    KeptMore(fetched, cache, Height(trace[|trace| - 1]), b);
  }

  lemma Finished(q: Query, cache: seq<LightBlock>, trace: seq<LightBlock>, fetched: seq<int>)
    requires Searching(q, cache, trace, fetched) && q.check(trace[|trace| - 1], cache[0]) == None
    ensures Chained(q, trace + [cache[0]]) && cache[0] == q.target
  {
  }

  lemma GapBound(q: Query, cache: seq<LightBlock>, trace: seq<LightBlock>, fetched: seq<int>, depth: nat)
    requires Searching(q, cache, trace, fetched) && depth < |cache|
    ensures Height(q.trusted) <= Height(trace[|trace| - 1]) && Height(cache[depth]) <= Height(q.target)
    ensures From(q, cache[depth])
  {
  }

  /** Only the last height fetched is out of place. */
  ghost predicate StrayFetch(q: Query, fetched: seq<int>, verified: int, h: int) {
    && fetched != [] && fetched[|fetched| - 1] == h <= verified
    && Fetched(q, fetched[..|fetched| - 1])
  }

  /** The last block fetched is not above the verified one: the next check rejects it. */
  ghost predicate Stray(q: Query, cache: seq<LightBlock>, depth: int, trace: seq<LightBlock>, fetched: seq<int>) {
    && Chained(q, trace) && |cache| > 1 && depth == |cache| - 1 && From(q, cache[depth]) && !Halving(q)
    && StrayFetch(q, fetched, Height(trace[|trace| - 1]), Height(cache[depth]))
  }

  /** The loop's invariant. */
  ghost predicate Going(q: Query, cache: seq<LightBlock>, depth: int, trace: seq<LightBlock>, fetched: seq<int>) {
    && 0 <= depth < |cache| && |trace| >= 1
    && (Searching(q, cache, trace, fetched) || Stray(q, cache, depth, trace, fetched))
  }

  lemma NotStray(q: Query, cache: seq<LightBlock>, depth: int, trace: seq<LightBlock>, fetched: seq<int>)
    requires Upward(q.check) && Going(q, cache, depth, trace, fetched)
    requires var r := q.check(trace[|trace| - 1], cache[depth]); r.Some? ==> r.value == CantBeTrusted
    ensures Searching(q, cache, trace, fetched)
  {
  }

  /** No answer for the pivot below a block that cannot be trusted yet. */
  ghost predicate Unanswered(q: Query, verified: LightBlock, pivot: int) {
    && q.provider(pivot) == None
    && exists b :: From(q, b) && q.check(verified, b) == Some(CantBeTrusted)
                   && pivot == q.schedule(Height(verified), Height(b))
  }

  /** How the run ended is accounted for. */
  ghost predicate Ended(q: Query, r: Outcome) {
    && Chained(q, r.trace)
    && var last := r.trace[|r.trace| - 1];
       match r
       case Verified(trace) => last == q.target && |trace| >= 2
       case Rejected(_, block, error) => From(q, block) && error != CantBeTrusted && q.check(last, block) == Some(error)
       case NotFound(_, height) => Unanswered(q, last, height)
  }

  lemma AddFetched(q: Query, cache: seq<LightBlock>, trace: seq<LightBlock>, fetched: seq<int>, b: LightBlock)
    requires Searching(q, cache, trace, fetched) && From(q, b) && Height(b) < Height(cache[|cache| - 1])
    requires Halving(q) ==> Height(trace[|trace| - 1]) < Height(b)
    ensures Going(q, cache + [b], |cache|, trace, fetched + [Height(b)])
  {
    if Height(trace[|trace| - 1]) < Height(b) {
      Widened(q, cache, trace, fetched, b);
    } else {
      assert (fetched + [Height(b)])[..|fetched|] == fetched;
    }
  }

  /** What the pivot of the lowest block in the cache leads to. */
  lemma PivotStep(q: Query, cache: seq<LightBlock>, trace: seq<LightBlock>, fetched: seq<int>, pivot: int)
    requires Upward(q.check) && Answers(q.provider) && Lowering(q) && Searching(q, cache, trace, fetched)
    requires var (verified, block) := (trace[|trace| - 1], cache[|cache| - 1]);
             q.check(verified, block) == Some(CantBeTrusted) && pivot == q.schedule(Height(verified), Height(block))
    ensures pivot < Height(cache[|cache| - 1])
    ensures match q.provider(pivot)
            case None => Unanswered(q, trace[|trace| - 1], pivot)
            case Some(b) => Height(b) == pivot && Going(q, cache + [b], |cache|, trace, fetched + [pivot])
  {
    GapBound(q, cache, trace, fetched, |cache| - 1);
    if q.provider(pivot).Some? {
      AddFetched(q, cache, trace, fetched, q.provider(pivot).value);
    }
  }

  lemma EndsRejected(q: Query, cache: seq<LightBlock>, depth: nat, trace: seq<LightBlock>, fetched: seq<int>,
      error: VerifyError)
    requires Going(q, cache, depth, trace, fetched) && error != CantBeTrusted
    requires q.check(trace[|trace| - 1], cache[depth]) == Some(error)
    ensures Ended(q, Rejected(trace, cache[depth], error))
    ensures Fetched(q, fetched)
            || (!Halving(q) && StrayFetch(q, fetched, Height(trace[|trace| - 1]), Height(cache[depth])))
  {
  }

  /** verifySkipping over any check and schedule. It ends, whatever the provider answers; it
      fetches no height twice and only heights in between, but for a last one that an
      overflowing schedule names and the next check rejects. */
  method Skip(q: Query) returns (r: Outcome, fetched: seq<int>)
    requires Upward(q.check) && Answers(q.provider) && Lowering(q)
    ensures Ended(q, r)
    ensures || Fetched(q, fetched)
            || (r.Rejected? && !Halving(q) && StrayFetch(q, fetched, Height(r.trace[|r.trace| - 1]), Height(r.block)))
  {
    var cache, depth := [q.target], 0;
    var verified, trace := q.trusted, [q.trusted];
    fetched := [];
    while true
      invariant Going(q, cache, depth, trace, fetched) && trace[|trace| - 1] == verified
      decreases Height(q.target) - Height(verified), Height(cache[|cache| - 1]) - Height(verified), |cache| - depth
    {
      var block := cache[depth];
      match q.check(verified, block)
      case None =>
        NotStray(q, cache, depth, trace, fetched);
        if depth == 0 {
          Finished(q, cache, trace, fetched);
          return Verified(trace + [block]), fetched;
        }
        GapBound(q, cache, trace, fetched, depth);
        Narrowed(q, cache, trace, fetched, depth);
        verified := block;
        cache := cache[..depth];
        depth := 0;
        trace := trace + [verified];
      case Some(CantBeTrusted) =>
        NotStray(q, cache, depth, trace, fetched);
        if depth == |cache| - 1 {
          var pivot := q.schedule(Height(verified), Height(block));
          PivotStep(q, cache, trace, fetched, pivot);
          var interim := q.provider(pivot);
          if interim.None? {
            return NotFound(trace, pivot), fetched;
          }
          fetched := fetched + [pivot];
          cache := cache + [interim.value];
        }
        depth := depth + 1;
      case Some(error) =>
        EndsRejected(q, cache, depth, trace, fetched, error);
        return Rejected(trace, block, error), fetched;
    }
  }

  // ----- with the verifier's check

  /** Verify, for a set whose total power is in bounds. */
  function Checked(p: Params, now: int, a: LightBlock, b: LightBlock): Option<VerifyError>
    requires Usable(p)
  {
    if WellSized(a.vals) then Verify(p, a, b, now) else Some(Unusable)
  }

  function QueryFor(p: Params, provider: Provider, trusted: LightBlock, target: LightBlock, now: int): Query
    requires Usable(p)
  {
    Query((a, b) => Checked(p, now, a, b), Schedule, provider, trusted, target)
  }

  lemma CheckedUpward(p: Params, now: int)
    requires Usable(p)
    ensures forall a, b :: Checked(p, now, a, b) == None ==> Height(b) > Height(a)
    ensures forall a, b :: Checked(p, now, a, b) == Some(CantBeTrusted) ==> Height(b) > Height(a) + 1
  {
    forall a: LightBlock, b: LightBlock | WellSized(a.vals)
      ensures Verify(p, a, b, now) == None ==> Height(b) > Height(a)
      ensures Verify(p, a, b, now) == Some(CantBeTrusted) ==> Height(b) > Height(a) + 1
    {
      VerifyMeans(p, a, b, now);
    }
  }

  /** Heights of the source's int64 type. */
  predicate HeightsFit(trusted: LightBlock, target: LightBlock) {
    0 <= Height(trusted) && Height(target) <= Int64.MAX
  }

  /** The gap is small enough for the int64 product in the schedule. */
  predicate GapFits(trusted: LightBlock, target: LightBlock) {
    9 * (Height(target) - Height(trusted)) <= Int64.MAX
  }

  lemma QueryFits(p: Params, provider: Provider, trusted: LightBlock, target: LightBlock, now: int)
    requires Usable(p) && HeightsFit(trusted, target)
    ensures var q := QueryFor(p, provider, trusted, target, now);
            Upward(q.check) && Lowering(q) && (GapFits(trusted, target) ==> Halving(q))
  {
    CheckedUpward(p, now);
    var q := QueryFor(p, provider, trusted, target, now);
    forall v, f | Height(trusted) <= v && v + 2 <= f <= Height(target)
      ensures q.schedule(v, f) < f
      ensures GapFits(trusted, target) ==> v < q.schedule(v, f)
    {
      ScheduleBelow(v, f);
      if GapFits(trusted, target) {
        ScheduleBetween(v, f);
      }
    }
  }

  /** verifySkipping. For gaps up to MaxInt64 / 9 no height is fetched twice and none
      outside the gap; beyond that, one more at the end, which is rejected. */
  method VerifySkipping(p: Params, provider: Provider, trusted: LightBlock, target: LightBlock, now: int)
    returns (r: Outcome, fetched: seq<int>)
    requires Usable(p) && Answers(provider) && HeightsFit(trusted, target)
    ensures var q := QueryFor(p, provider, trusted, target, now);
            && Ended(q, r)
            && (GapFits(trusted, target) ==> Fetched(q, fetched))
            && (|| Fetched(q, fetched)
                || (r.Rejected? && StrayFetch(q, fetched, Height(r.trace[|r.trace| - 1]), Height(r.block))))
    ensures |fetched| <= 1 || |fetched| <= Height(target) - Height(trusted)
    ensures GapFits(trusted, target) ==> |fetched| == 0 || |fetched| <= Height(target) - Height(trusted) - 1
  {
    QueryFits(p, provider, trusted, target, now);
    ghost var q := QueryFor(p, provider, trusted, target, now);
    r, fetched := Skip(QueryFor(p, provider, trusted, target, now));
    if Fetched(q, fetched) {
      DistinctBound(fetched, Height(trusted), Height(target));
    } else {
      DistinctBound(fetched[..|fetched| - 1], Height(trusted), Height(target));
    }
  }

  /** Heights and times go up along a trace, all of it within the trusting period and
      the clock drift. */
  lemma TraceAdvances(p: Params, provider: Provider, trusted: LightBlock, target: LightBlock, now: int,
      trace: seq<LightBlock>, i: nat)
    requires Usable(p) && Chained(QueryFor(p, provider, trusted, target, now), trace) && 0 < i < |trace|
    ensures Height(trace[i - 1]) < Height(trace[i])
    ensures trace[i - 1].signed.header.time < trace[i].signed.header.time < now + p.maxClockDrift
    ensures now < trace[i].signed.header.time + p.trustingPeriod
  {
    assert Checked(p, now, trace[i - 1], trace[i]) == None;
    VerifyMeans(p, trace[i - 1], trace[i], now);
  }

  /** What every accepted step keeps holds along a trace. */
  lemma {:induction false} TraceKeeps(q: Query, trace: seq<LightBlock>, good: LightBlock -> bool, i: nat)
    requires Chained(q, trace) && i < |trace| && good(q.trusted)
    requires forall a, b :: good(a) && q.check(a, b) == None ==> good(b)
    ensures good(trace[i])
  {
    if i > 0 {
      TraceKeeps(q, trace, good, i - 1);
    }
  }

  /** On the chain, as far as the chain goes. */
  ghost predicate SafeBlock(w: World, b: LightBlock) {
    Height(b) <= w.top ==> OnChain(w, b)
  }

  /** The level reads right for every set of the chain. */
  ghost predicate LevelFits(p: Params, w: World) {
    forall h :: 1 <= h <= w.top ==> ReadsRight(p.level, TotalPower(w.vals(h)))
  }

  lemma CheckedSafe(p: Params, w: World, a: LightBlock, b: LightBlock, now: int)
    requires Secure(p, w) && LevelFits(p, w) && SafeBlock(w, a) && Checked(p, now, a, b) == None
    ensures SafeBlock(w, b)
  {
    VerifyMeans(p, a, b, now);
    if Height(b) <= w.top {
      SimplePowers(a.vals, w.vals(Height(a)));
      StepSafe(p, w, a, b, now);
    }
  }

  /** Safety: if the chain is secure up to some height and the trusted block is on it,
      then so is every block up to that height of every trace, whatever the provider. */
  lemma TraceSafe(p: Params, w: World, provider: Provider, trusted: LightBlock, target: LightBlock, now: int,
      trace: seq<LightBlock>)
    requires Secure(p, w) && LevelFits(p, w) && OnChain(w, trusted)
    requires Chained(QueryFor(p, provider, trusted, target, now), trace)
    ensures forall i :: 0 <= i < |trace| && Height(trace[i]) <= w.top ==> OnChain(w, trace[i])
  {
    var q := QueryFor(p, provider, trusted, target, now);
    forall a, b | SafeBlock(w, a) && q.check(a, b) == None ensures SafeBlock(w, b) {
      CheckedSafe(p, w, a, b, now);
    }
    forall i | 0 <= i < |trace| ensures SafeBlock(w, trace[i]) {
      TraceKeeps(q, trace, b => SafeBlock(w, b), i);
    }
  }
}
