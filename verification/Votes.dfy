/** Block IDs, votes, commits and what gets signed (types/vote.go, types/block.go,
    types/canonical.go).

    Keys and signatures are byte strings; the signature scheme is a parameter. The
    bytes that are signed are represented by the canonical message they encode. */
module Votes {
  import opened Common
  import opened PartSets
  import Merkle

  const ADDRESS_SIZE: nat := 20
  const MAX_SIGNATURE_SIZE: nat := 64

  // ----- block IDs

  datatype BlockID = BlockID(hash: Bytes, parts: PartSetHeader)

  const NIL_BLOCK: BlockID := BlockID([], PartSetHeader(0, []))

  predicate IsNil(b: BlockID) {
    |b.hash| == 0 && b.parts.total == 0 && |b.parts.hash| == 0
  }

  predicate IsComplete(b: BlockID) {
    |b.hash| == Merkle.HASH_SIZE && b.parts.total > 0 && |b.parts.hash| == Merkle.HASH_SIZE
  }

  predicate NilOrComplete(b: BlockID) {
    IsNil(b) || IsComplete(b)
  }

  /** The protobuf varint: seven bits a byte, the high bit meaning more. */
  function Varint(n: nat): Bytes {
    if n < 128 then [n] else [n % 128 + 128] + Varint(n / 128)
  }

  function Marshal(header: PartSetHeader): Bytes {
    (if header.total != 0 then [0x08] + Varint(header.total) else [])
    + (if header.hash != [] then [0x12] + Varint(|header.hash|) + header.hash else [])
  }

  /** BlockID.Key: the map key votes are tracked under. */
  function Key(b: BlockID): Bytes {
    b.hash + Marshal(b.parts)
  }

  lemma {:induction false} VarintInjective(m: nat, n: nat)
    requires Varint(m) == Varint(n)
    ensures m == n
  {
    var s, t := Varint(m), Varint(n);
    assert s[0] == t[0];
    if m >= 128 && n >= 128 {
      assert s[1..] == Varint(m / 128) && t[1..] == Varint(n / 128);
      VarintInjective(m / 128, n / 128);
    }
  }

  lemma KeyShape(b: BlockID)
    requires NilOrComplete(b)
    ensures IsNil(b) ==> Key(b) == []
    ensures IsComplete(b) ==>
              Key(b) == b.hash + [0x08] + Varint(b.parts.total) + [0x12, 32] + b.parts.hash
  {
  }

  /** Votes for different blocks never share a key, for the block IDs that votes
      may have; so a map by key is a map by block ID. */
  lemma KeyInjective(a: BlockID, b: BlockID)
    requires NilOrComplete(a) && NilOrComplete(b)
    ensures Key(a) == Key(b) <==> a == b
  {
    if Key(a) == Key(b) {
      KeyShape(a);
      KeyShape(b);
      if IsComplete(a) {
        var ka, kb := Key(a), Key(b);
        var va, vb := Varint(a.parts.total), Varint(b.parts.total);
        assert |va| == |vb|;
        assert a.hash == ka[..32] && b.hash == kb[..32];
        assert va == ka[33..33 + |va|] && vb == kb[33..33 + |vb|];
        assert a.parts.hash == ka[35 + |va|..] && b.parts.hash == kb[35 + |vb|..];
        VarintInjective(a.parts.total, b.parts.total);
      }
    }
  }

  // ----- votes

  datatype MsgType = UnknownType | Prevote | Precommit | ProposalType

  datatype Vote = Vote(
    kind: MsgType,
    height: int,
    round: int,
    blockID: BlockID,
    timestamp: int,
    address: Bytes,
    index: int,
    signature: Bytes,
    extension: Bytes,
    extensionSignature: Bytes)

  /** What is signed: the canonical forms, with the chain they are for. */
  datatype SignBytes =
    | VoteBytes(kind: MsgType, height: int, round: int, blockID: Option<BlockID>, timestamp: int, chainID: string)
    | ExtensionBytes(extension: Bytes, height: int, round: int, chainID: string)
    | ProposalBytes(height: int, round: int, polRound: int, blockID: Option<BlockID>, timestamp: int, chainID: string)

  function CanonicalBlockID(b: BlockID): Option<BlockID> {
    if IsNil(b) then None else Some(b)
  }

  function VoteSignBytes(chainID: string, vote: Vote): SignBytes {
    VoteBytes(vote.kind, vote.height, vote.round, CanonicalBlockID(vote.blockID), vote.timestamp, chainID)
  }

  function ExtensionSignBytes(chainID: string, vote: Vote): SignBytes {
    ExtensionBytes(vote.extension, vote.height, vote.round, chainID)
  }

  /** A signature scheme: addresses of keys, verification, and which entries a
      batch verifier takes. */
  datatype Scheme = Scheme(
    addressOf: Bytes -> Bytes,
    valid: (Bytes, SignBytes, Bytes) -> bool,
    batchable: (Bytes, Bytes) -> bool)

  /** Vote.Verify. */
  predicate Verified(s: Scheme, chainID: string, vote: Vote, pubKey: Bytes) {
    && s.addressOf(pubKey) == vote.address
    && s.valid(pubKey, VoteSignBytes(chainID, vote), vote.signature)
  }

  /** Vote.VerifyVoteAndExtension: extensions are checked on non-nil precommits. */
  predicate VerifiedWithExtension(s: Scheme, chainID: string, vote: Vote, pubKey: Bytes) {
    && Verified(s, chainID, vote, pubKey)
    && (vote.kind == Precommit && !IsNil(vote.blockID) ==>
          s.valid(pubKey, ExtensionSignBytes(chainID, vote), vote.extensionSignature))
  }

  predicate ValidHash(h: Bytes) {
    |h| == 0 || |h| == Merkle.HASH_SIZE
  }

  /** Vote.ValidateBasic, true where it returns no error. */
  predicate ValidateBasic(vote: Vote) {
    && (vote.kind == Prevote || vote.kind == Precommit)
    && vote.height >= 0
    && vote.round >= 0
    && ValidHash(vote.blockID.hash) && ValidHash(vote.blockID.parts.hash)
    && NilOrComplete(vote.blockID)
    && |vote.address| == ADDRESS_SIZE
    && vote.index >= 0
    && 0 < |vote.signature| <= MAX_SIGNATURE_SIZE
    && (vote.kind != Precommit || IsNil(vote.blockID) ==> vote.extension == [] && vote.extensionSignature == [])
    && (vote.kind == Precommit && !IsNil(vote.blockID) ==>
          && |vote.extensionSignature| <= MAX_SIGNATURE_SIZE
          && (vote.extensionSignature == [] ==> vote.extension == []))
  }

  // ----- commits

  datatype BlockIDFlag = Absent | ForBlock | ForNil

  datatype CommitSig = CommitSig(flag: BlockIDFlag, address: Bytes, timestamp: int, signature: Bytes)

  const ZERO_TIME: int := 0
  const ABSENT_SIG: CommitSig := CommitSig(Absent, [], ZERO_TIME, [])

  datatype ExtendedCommitSig = ExtendedCommitSig(sig: CommitSig, extension: Bytes, extensionSignature: Bytes)

  const ABSENT_EXTENDED_SIG: ExtendedCommitSig := ExtendedCommitSig(ABSENT_SIG, [], [])

  datatype Commit = Commit(height: int, round: int, blockID: BlockID, signatures: seq<CommitSig>)

  datatype ExtendedCommit = ExtendedCommit(
    height: int, round: int, blockID: BlockID, signatures: seq<ExtendedCommitSig>)

  /** CommitSig.BlockID: what the signature is for. */
  function SigBlockID(sig: CommitSig, commitBlockID: BlockID): BlockID {
    if sig.flag == ForBlock then commitBlockID else NIL_BLOCK
  }

  /** Commit.GetVote. */
  function GetVote(commit: Commit, i: nat): Vote
    requires i < |commit.signatures|
  {
    var sig := commit.signatures[i];
    Vote(Precommit, commit.height, commit.round, SigBlockID(sig, commit.blockID), sig.timestamp, sig.address, i,
         sig.signature, [], [])
  }

  /** Commit.VoteSignBytes. */
  function CommitSignBytes(chainID: string, commit: Commit, i: nat): SignBytes
    requires i < |commit.signatures|
  {
    VoteSignBytes(chainID, GetVote(commit, i))
  }

  /** Vote.CommitSig, of a vote whose block ID is nil or complete. */
  function ToCommitSig(vote: Option<Vote>): CommitSig
    requires vote.Some? ==> NilOrComplete(vote.value.blockID)
  {
    if vote == None then ABSENT_SIG
    else
      var v := vote.value;
      CommitSig(if IsComplete(v.blockID) then ForBlock else ForNil, v.address, v.timestamp, v.signature)
  }

  function ToExtendedCommitSig(vote: Option<Vote>): ExtendedCommitSig
    requires vote.Some? ==> NilOrComplete(vote.value.blockID)
  {
    if vote == None then ABSENT_EXTENDED_SIG
    else ExtendedCommitSig(ToCommitSig(vote), vote.value.extension, vote.value.extensionSignature)
  }

  /** ExtendedCommit.GetExtendedVote. */
  function GetExtendedVote(ec: ExtendedCommit, i: nat): Vote
    requires i < |ec.signatures|
  {
    var e := ec.signatures[i];
    Vote(Precommit, ec.height, ec.round, SigBlockID(e.sig, ec.blockID), e.sig.timestamp, e.sig.address, i,
         e.sig.signature, e.extension, e.extensionSignature)
  }

  /** ExtendedCommit.ToCommit. */
  function ToCommit(ec: ExtendedCommit): Commit {
    Commit(ec.height, ec.round, ec.blockID,
           seq(|ec.signatures|, i requires 0 <= i < |ec.signatures| => ec.signatures[i].sig))
  }
}
