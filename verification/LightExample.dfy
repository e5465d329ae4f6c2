/** A chain that meets the assumptions of LightSafety, of any length, with its blocks
    accepted one after the other: one validator, who signs the chain's blocks and no
    others. */
module LightExample {
  import opened Common
  import opened PartSets
  import opened Validators
  import opened Votes
  import opened Headers
  import opened TrustLevels
  import opened LightVerifier
  import opened LightSafety
  import V = Validation
  import M = ProposerMath

  const CHAIN: string := "c"

  function Filled(n: nat, b: Byte): (r: Bytes)
    ensures |r| == n
  {
    seq(n, i => b)
  }

  function OneValidator(): seq<Validator> {
    [Validator(Filled(20, 7), [7], 1, 0)]
  }

  function SetHash(): Bytes {
    Filled(32, 1)
  }

  function BlockHash(h: int): Bytes {
    if h <= 0 then [] else Filled(h, 0)
  }

  function HeaderAt(h: int): Header {
    Header(BLOCK_PROTOCOL, CHAIN, h, h, NIL_BLOCK, [], [], SetHash(), SetHash(), [], [], [], [], Filled(20, 7))
  }

  function HashOfHeader(g: Header): Bytes {
    if g == HeaderAt(g.height) then BlockHash(g.height) else []
  }

  function HashOfVals(v: seq<SimpleValidator>): Bytes {
    if v == Simple(OneValidator()) then SetHash() else []
  }

  /** Only precommits for the chain's blocks have valid signatures. */
  predicate SignedOnChain(key: Bytes, msg: SignBytes, sig: Bytes) {
    msg.VoteBytes? && msg.blockID.Some? && msg.height >= 1 && msg.blockID.value.hash == BlockHash(msg.height)
  }

  function ExampleParams(): Params {
    Params(Scheme((key: Bytes) => key, SignedOnChain, (key: Bytes, sig: Bytes) => true),
           Hashes(HashOfHeader, HashOfVals), (vals: seq<Validator>) => true, 100, 100, Fraction(1, 3))
  }

  function ExampleWorld(top: int): World {
    World(CHAIN, top, HeaderAt, (h: int) => OneValidator(), (key: Bytes) => false)
  }

  function BlockAt(h: int): LightBlock {
    var commit := Commit(h, 0, BlockID(BlockHash(h), PartSetHeader(1, [])),
                         [CommitSig(ForBlock, Filled(20, 7), ZERO_TIME, [1])]);
    LightBlock(SignedHeader(HeaderAt(h), commit), OneValidator())
  }

  lemma OnePower()
    ensures Powers(OneValidator()) == [1] && TotalPower(OneValidator()) == 1
  {
    assert Powers(OneValidator()) == [1];
    SumSingle(1);
  }

  lemma ExampleChain(top: int, h: int)
    requires 1 <= h <= top
    ensures ChainAt(ExampleParams(), ExampleWorld(top), h)
  {
    OnePower();
    var faulty := FaultyPositions(ExampleWorld(top), Simple(OneValidator()));
    assert faulty == {};
    M.SumInEmpty(Powers(OneValidator()));
  }

  lemma ExampleHashes(top: int, h: int)
    requires 1 <= h <= top
    ensures NoCollisionAt(ExampleParams(), ExampleWorld(top), h)
  {
    var p := ExampleParams();
    forall g: Header | HeaderHash(p.hashes, g) == HeaderHash(p.hashes, HeaderAt(h)) ensures g == HeaderAt(h) {
      assert |BlockHash(h)| == h;
      assert g == HeaderAt(g.height) && |BlockHash(g.height)| == h;
    }
  }

  /** The assumptions can be met, for every height. */
  lemma SecureExists(top: int)
    ensures Secure(ExampleParams(), ExampleWorld(top))
  {
    forall h | 1 <= h <= top
      ensures ChainAt(ExampleParams(), ExampleWorld(top), h) && NoCollisionAt(ExampleParams(), ExampleWorld(top), h)
    {
      ExampleChain(top, h);
      ExampleHashes(top, h);
    }
  }

  /** And then Verify accepts the chain's blocks. */
  lemma ExampleAccepted(h: int)
    requires h >= 1
    ensures Verify(ExampleParams(), BlockAt(h), BlockAt(h + 1), h) == None
  {
    var (p, w, b) := (ExampleParams(), ExampleWorld(h + 1), BlockAt(h + 1));
    SecureExists(h + 1);
    OnePower();
    M.SumInEmpty([1]);
    assert V.ForBlockBefore(b.signed.commit, 0) == {};
    V.ForBlockStep(b.vals, b.signed.commit, 0);
    assert V.EnoughPrefix(V.LightCheck(p.scheme, CHAIN, b.vals, b.signed.commit), 0, 1);
    NextBlockAccepted(p, w, BlockAt(h), b, h, 1);
  }
}
