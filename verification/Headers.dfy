/** Headers, signed headers and light blocks (types/block.go, types/light.go). */
module Headers {
  import opened Common
  import opened Validators
  import opened Votes

  const BLOCK_PROTOCOL: nat := 11
  const MAX_CHAIN_ID_LEN: nat := 50

  datatype Header = Header(
    version: nat,
    chainID: string,
    height: int,
    time: int,
    lastBlockID: BlockID,
    lastCommitHash: Bytes,
    dataHash: Bytes,
    validatorsHash: Bytes,
    nextValidatorsHash: Bytes,
    consensusHash: Bytes,
    appHash: Bytes,
    lastResultsHash: Bytes,
    evidenceHash: Bytes,
    proposerAddress: Bytes)

  datatype SignedHeader = SignedHeader(header: Header, commit: Commit)

  datatype LightBlock = LightBlock(signed: SignedHeader, vals: seq<Validator>)

  /** What a validator set's hash covers of a validator: not its address. */
  datatype SimpleValidator = SimpleValidator(pubKey: Bytes, power: int)

  function Simple(vals: seq<Validator>): seq<SimpleValidator> {
    seq(|vals|, i requires 0 <= i < |vals| => SimpleValidator(vals[i].pubKey, vals[i].power))
  }

  /** The hashes of headers and of validator sets. */
  datatype Hashes = Hashes(ofHeader: Header -> Bytes, ofVals: seq<SimpleValidator> -> Bytes)

  /** Header.Hash: nil without a validators hash. */
  function HeaderHash(hs: Hashes, h: Header): Bytes {
    if |h.validatorsHash| == 0 then [] else hs.ofHeader(h)
  }

  function ValsHash(hs: Hashes, vals: seq<Validator>): Bytes {
    hs.ofVals(Simple(vals))
  }

  predicate BlockIDBasic(b: BlockID) {
    ValidHash(b.hash) && ValidHash(b.parts.hash)
  }

  /** Header.ValidateBasic. */
  predicate HeaderBasic(h: Header) {
    && h.version == BLOCK_PROTOCOL
    && |h.chainID| <= MAX_CHAIN_ID_LEN
    && h.height > 0
    && BlockIDBasic(h.lastBlockID)
    && ValidHash(h.lastCommitHash) && ValidHash(h.dataHash) && ValidHash(h.evidenceHash)
    && |h.proposerAddress| == ADDRESS_SIZE
    && ValidHash(h.validatorsHash) && ValidHash(h.nextValidatorsHash)
    && ValidHash(h.consensusHash) && ValidHash(h.lastResultsHash)
  }

  /** CommitSig.ValidateBasic. */
  predicate CommitSigBasic(sig: CommitSig) {
    if sig.flag == Absent then sig.address == [] && sig.timestamp == ZERO_TIME && sig.signature == []
    else |sig.address| == ADDRESS_SIZE && 0 < |sig.signature| <= MAX_SIGNATURE_SIZE
  }

  /** Commit.ValidateBasic. */
  predicate CommitBasic(c: Commit) {
    && c.height >= 0
    && c.round >= 0
    && (c.height >= 1 ==>
          && !IsNil(c.blockID)
          && |c.signatures| > 0
          && forall i :: 0 <= i < |c.signatures| ==> CommitSigBasic(c.signatures[i]))
  }

  /** SignedHeader.ValidateBasic. */
  predicate SignedHeaderBasic(hs: Hashes, sh: SignedHeader, chainID: string) {
    && HeaderBasic(sh.header)
    && CommitBasic(sh.commit)
    && sh.header.chainID == chainID
    && sh.commit.height == sh.header.height
    && HeaderHash(hs, sh.header) == sh.commit.blockID.hash
  }
}
