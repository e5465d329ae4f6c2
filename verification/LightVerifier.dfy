/** Verifying one header against a trusted one (light/verifier.go). */
module LightVerifier {
  import opened Common
  import opened Validators
  import opened Votes
  import opened Headers
  import opened TrustLevels
  import Int64
  import V = Validation

  /** What the checks depend on besides the headers: signatures and hashes, which sets
      can be verified in a batch, and the light client's settings. */
  datatype Params = Params(
    scheme: Scheme,
    hashes: Hashes,
    batchable: seq<Validator> -> bool,
    trustingPeriod: int,
    maxClockDrift: int,
    level: Fraction)

  datatype VerifyError = CantBeTrusted | InvalidHeader | Expired | Unusable

  predicate WellSized(vals: seq<Validator>) {
    (forall i :: 0 <= i < |vals| ==> vals[i].power >= 0) && TotalPower(vals) <= MAX_TOTAL_VOTING_POWER
  }

  predicate Usable(p: Params) {
    IsFraction(p.level)
  }

  predicate HeaderExpired(sh: SignedHeader, period: int, now: int) {
    !(sh.header.time + period > now)
  }

  /** checkRequiredHeaderFields. */
  predicate RequiredFields(h: Header) {
    h.height != 0 && h.time != ZERO_TIME && h.chainID != ""
  }

  /** verifyNewHeaderAndVals. */
  predicate NewHeaderOk(p: Params, untrusted: LightBlock, trusted: SignedHeader, now: int) {
    && SignedHeaderBasic(p.hashes, untrusted.signed, trusted.header.chainID)
    && untrusted.signed.header.height > trusted.header.height
    && untrusted.signed.header.time > trusted.header.time
    && untrusted.signed.header.time < now + p.maxClockDrift
    && untrusted.signed.header.validatorsHash == ValsHash(p.hashes, untrusted.vals)
  }

  function LightCheck(p: Params, chainID: string, b: LightBlock): Option<V.Error> {
    V.VerifyCommitLight(p.scheme, chainID, b.vals, b.signed.commit.blockID, b.signed.header.height, b.signed.commit,
                        p.batchable(b.vals))
  }

  lemma InRangeTotal(vals: seq<Validator>)
    requires WellSized(vals)
    ensures 0 <= TotalPower(vals) && Int64.InRange(TotalPower(vals))
  {
    SumBoundsLow(Powers(vals));
  }

  function TrustingCheck(p: Params, trusted: LightBlock, commit: Commit): Option<V.Error>
    requires Usable(p) && WellSized(trusted.vals)
  {
    InRangeTotal(trusted.vals);
    V.VerifyCommitLightTrusting(p.scheme, trusted.signed.header.chainID, trusted.vals, commit, p.level,
                                p.batchable(trusted.vals))
  }

  function VerifyNonAdjacent(p: Params, trusted: LightBlock, untrusted: LightBlock, now: int): Option<VerifyError>
    requires Usable(p) && WellSized(trusted.vals)
  {
    if !RequiredFields(trusted.signed.header) then Some(Unusable)
    else if untrusted.signed.header.height == trusted.signed.header.height + 1 then Some(Unusable)
    else if !Allowed(p.level) then Some(Unusable)
    else if HeaderExpired(untrusted.signed, p.trustingPeriod, now) then Some(Expired)
    else if !NewHeaderOk(p, untrusted, trusted.signed, now) then Some(InvalidHeader)
    else
      var trust := TrustingCheck(p, trusted, untrusted.signed.commit);
      if trust.Some? then Some(if trust.value.NotEnoughPower? then CantBeTrusted else InvalidHeader)
      else if LightCheck(p, trusted.signed.header.chainID, untrusted).Some? then Some(InvalidHeader)
      else None
  }

  function VerifyAdjacent(p: Params, trusted: LightBlock, untrusted: LightBlock, now: int): Option<VerifyError> {
    if !RequiredFields(trusted.signed.header) then Some(Unusable)
    else if |trusted.signed.header.nextValidatorsHash| == 0 then Some(Unusable)
    else if untrusted.signed.header.height != trusted.signed.header.height + 1 then Some(Unusable)
    else if HeaderExpired(untrusted.signed, p.trustingPeriod, now) then Some(Expired)
    else if !NewHeaderOk(p, untrusted, trusted.signed, now) then Some(InvalidHeader)
    else if untrusted.signed.header.validatorsHash != trusted.signed.header.nextValidatorsHash then Some(InvalidHeader)
    else if LightCheck(p, trusted.signed.header.chainID, untrusted).Some? then Some(InvalidHeader)
    else None
  }

  /** The two together. */
  function Verify(p: Params, trusted: LightBlock, untrusted: LightBlock, now: int): Option<VerifyError>
    requires Usable(p) && WellSized(trusted.vals)
  {
    if untrusted.signed.header.height != trusted.signed.header.height + 1
    then VerifyNonAdjacent(p, trusted, untrusted, now)
    else VerifyAdjacent(p, trusted, untrusted, now)
  }

  /** What any outcome of Verify but a hard error says. */
  lemma VerifyMeans(p: Params, trusted: LightBlock, untrusted: LightBlock, now: int)
    requires Usable(p) && WellSized(trusted.vals)
    ensures var r := Verify(p, trusted, untrusted, now);
            r == None || r == Some(CantBeTrusted) ==>
              && untrusted.signed.header.height > trusted.signed.header.height
              && untrusted.signed.header.time > trusted.signed.header.time
              && now < untrusted.signed.header.time + p.trustingPeriod
              && untrusted.signed.header.time < now + p.maxClockDrift
    ensures Verify(p, trusted, untrusted, now) == Some(CantBeTrusted) ==>
              untrusted.signed.header.height > trusted.signed.header.height + 1
  {
  }
}
