/** Merkle trees over byte strings (crypto/merkle/hash.go and tree.go), for an
    arbitrary checksum function.

    The tree hash is that of section 2.1 of RFC 6962: a list of two or more items
    is split at the largest power of two below its length. */
module Merkle {
  import opened Common

  const HASH_SIZE: nat := 32

  /** What the results below need of a checksum: outputs of one size. */
  ghost predicate FixedSize(sum: Bytes -> Bytes) {
    forall x :: |sum(x)| == HASH_SIZE
  }

  // ----- hashes with domain separation

  const LEAF_PREFIX: Bytes := [0]
  const INNER_PREFIX: Bytes := [1]

  function EmptyHash(sum: Bytes -> Bytes): Bytes {
    sum([])
  }

  function LeafHash(sum: Bytes -> Bytes, leaf: Bytes): Bytes {
    sum(LEAF_PREFIX + leaf)
  }

  function InnerHash(sum: Bytes -> Bytes, left: Bytes, right: Bytes): Bytes {
    sum(INNER_PREFIX + left + right)
  }

  /** Go's hash.Hash: a state that is reset, written to and summed. */
  class Hasher {
    const checksum: Bytes -> Bytes
    var written: Bytes

    constructor (sum: Bytes -> Bytes)
      ensures checksum == sum && written == []
    {
      checksum := sum;
      written := [];
    }

    method Reset()
      modifies this
      ensures written == []
    {
      written := [];
    }

    method Write(bytes: Bytes)
      modifies this
      ensures written == old(written) + bytes
    {
      written := written + bytes;
    }

    /** Returns the checksum of what was written; the state stays. */
    method Total() returns (r: Bytes)
      ensures r == checksum(written)
    {
      r := checksum(written);
    }
  }

  /** The reused state leaves no trace: the result is that of a fresh hash. */
  method LeafHashOpt(s: Hasher, leaf: Bytes) returns (r: Bytes)
    modifies s
    ensures r == LeafHash(s.checksum, leaf)
  {
    s.Reset();
    s.Write(LEAF_PREFIX);
    s.Write(leaf);
    r := s.Total();
    assert [] + LEAF_PREFIX + leaf == LEAF_PREFIX + leaf;
  }

  method InnerHashOpt(s: Hasher, left: Bytes, right: Bytes) returns (r: Bytes)
    modifies s
    ensures r == InnerHash(s.checksum, left, right)
  {
    s.Reset();
    s.Write(INNER_PREFIX);
    s.Write(left);
    s.Write(right);
    r := s.Total();
    assert [] + INNER_PREFIX + left + right == INNER_PREFIX + left + right;
  }

  // ----- the split point

  function Pow2(k: nat): (r: nat)
    ensures r >= 1
  {
    if k == 0 then 1 else 2 * Pow2(k - 1)
  }

  /** bits.Len: the number of bits needed to write n. */
  function BitLen(n: nat): nat {
    if n == 0 then 0 else 1 + BitLen(n / 2)
  }

  lemma {:induction false} BitLenBounds(n: nat)
    requires n >= 1
    ensures BitLen(n) >= 1 && Pow2(BitLen(n) - 1) <= n < 2 * Pow2(BitLen(n) - 1)
  {
    if n > 1 {
      var h := n / 2;
      assert 1 <= h && 2 * h <= n <= 2 * h + 1;
      BitLenBounds(h);
      var p := Pow2(BitLen(h) - 1);
      assert p <= h < 2 * p;
      assert Pow2(BitLen(n) - 1) == 2 * p by {
        assert BitLen(n) - 1 == BitLen(h);
      }
    }
  }

  /** getSplitPoint. */
  function SplitPoint(length: nat): (k: nat)
    requires length >= 1
    ensures length >= 2 ==> 0 < k < length
  {
    BitLenBounds(length);
    var k := Pow2(BitLen(length) - 1);
    if k == length then k / 2 else k
  }

  ghost predicate IsSplit(n: nat, k: nat) {
    (exists j: nat :: Pow2(j) == k) && k < n <= 2 * k
  }

  /** The split point is the largest power of two below the length. */
  lemma SplitPointIsSplit(n: nat)
    requires n >= 2
    ensures IsSplit(n, SplitPoint(n))
  {
    BitLenBounds(n);
    var b := BitLen(n) - 1;
    if Pow2(b) == n {
      assert b >= 1 && Pow2(b) == 2 * Pow2(b - 1);
      assert Pow2(b - 1) == SplitPoint(n);
    } else {
      assert Pow2(b) == SplitPoint(n);
    }
  }

  lemma {:induction false} Pow2Grows(i: nat, j: nat)
    requires i < j
    ensures 2 * Pow2(i) <= Pow2(j)
  {
    if i + 1 < j {
      Pow2Grows(i, j - 1);
    }
  }

  lemma SplitUnique(n: nat, k: nat, l: nat)
    requires IsSplit(n, k) && IsSplit(n, l)
    ensures k == l
  {
    var i: nat :| Pow2(i) == k;
    var j: nat :| Pow2(j) == l;
    if i < j {
      Pow2Grows(i, j);
    } else if j < i {
      Pow2Grows(j, i);
    }
  }

  /** Halving a list of at least three, rounding up, halves its split point. */
  lemma SplitHalves(n: nat)
    requires n >= 3
    ensures SplitPoint(n) % 2 == 0 && SplitPoint(n) >= 2
    ensures SplitPoint((n + 1) / 2) == SplitPoint(n) / 2
  {
    SplitPointIsSplit(n);
    var k, m := SplitPoint(n), (n + 1) / 2;
    var j: nat :| Pow2(j) == k;
    assert j >= 1;
    var half := Pow2(j - 1);
    assert k == 2 * half;
    assert IsSplit(m, half);
    SplitPointIsSplit(m);
    SplitUnique(m, SplitPoint(m), half);
  }

  // ----- the recursive tree

  /** HashFromByteSlices. */
  function Root(sum: Bytes -> Bytes, items: seq<Bytes>): Bytes
    decreases |items|
  {
    if |items| == 0 then EmptyHash(sum)
    else if |items| == 1 then LeafHash(sum, items[0])
    else
      var k := SplitPoint(|items|);
      InnerHash(sum, Root(sum, items[..k]), Root(sum, items[k..]))
  }

  method HashFromByteSlices(s: Hasher, items: seq<Bytes>) returns (r: Bytes)
    modifies s
    ensures r == Root(s.checksum, items)
    decreases |items|
  {
    if |items| == 0 {
      r := EmptyHash(s.checksum);
    } else if |items| == 1 {
      r := LeafHashOpt(s, items[0]);
    } else {
      var k := SplitPoint(|items|);
      var left := HashFromByteSlices(s, items[..k]);
      var right := HashFromByteSlices(s, items[k..]);
      r := InnerHashOpt(s, left, right);
    }
  }

  /** The tree over hashes that are already there. */
  function Fold(sum: Bytes -> Bytes, hashes: seq<Bytes>): Bytes
    requires hashes != []
    decreases |hashes|
  {
    if |hashes| == 1 then hashes[0]
    else
      var k := SplitPoint(|hashes|);
      InnerHash(sum, Fold(sum, hashes[..k]), Fold(sum, hashes[k..]))
  }

  function LeafHashes(sum: Bytes -> Bytes, items: seq<Bytes>): (r: seq<Bytes>)
    ensures |r| == |items|
  {
    seq(|items|, i requires 0 <= i < |items| => LeafHash(sum, items[i]))
  }

  lemma {:induction false} RootIsFold(sum: Bytes -> Bytes, items: seq<Bytes>)
    requires items != []
    ensures Root(sum, items) == Fold(sum, LeafHashes(sum, items))
    decreases |items|
  {
    if |items| > 1 {
      var k := SplitPoint(|items|);
      RootIsFold(sum, items[..k]);
      RootIsFold(sum, items[k..]);
      assert LeafHashes(sum, items)[..k] == LeafHashes(sum, items[..k]);
      assert LeafHashes(sum, items)[k..] == LeafHashes(sum, items[k..]);
    }
  }

  // ----- one level of the iterative form

  function PairAt(sum: Bytes -> Bytes, hashes: seq<Bytes>, i: nat): Bytes
    requires 2 * i < |hashes|
  {
    if 2 * i + 1 < |hashes| then InnerHash(sum, hashes[2 * i], hashes[2 * i + 1]) else hashes[2 * i]
  }

  /** Neighbours combined, a last odd one promoted. */
  function PairUp(sum: Bytes -> Bytes, hashes: seq<Bytes>): (r: seq<Bytes>)
    ensures |r| == (|hashes| + 1) / 2
  {
    seq((|hashes| + 1) / 2, i requires 0 <= i < (|hashes| + 1) / 2 => PairAt(sum, hashes, i))
  }

  lemma PairUpSplits(sum: Bytes -> Bytes, hashes: seq<Bytes>, k: nat)
    requires k <= |hashes| && k % 2 == 0
    ensures PairUp(sum, hashes)[..k / 2] == PairUp(sum, hashes[..k])
    ensures PairUp(sum, hashes)[k / 2..] == PairUp(sum, hashes[k..])
  {
    var all, right := PairUp(sum, hashes), PairUp(sum, hashes[k..]);
    forall i | 0 <= i < |right| ensures all[k / 2..][i] == right[i] {
      assert all[k / 2..][i] == PairAt(sum, hashes, k / 2 + i);
      assert hashes[k..][2 * i] == hashes[2 * (k / 2 + i)];
    }
  }

  lemma FoldSplits(sum: Bytes -> Bytes, hashes: seq<Bytes>, k: nat)
    requires |hashes| >= 2 && k == SplitPoint(|hashes|)
    ensures 0 < k < |hashes|
    ensures Fold(sum, hashes) == InnerHash(sum, Fold(sum, hashes[..k]), Fold(sum, hashes[k..]))
  {
  }

  lemma FoldTwo(sum: Bytes -> Bytes, hashes: seq<Bytes>)
    requires |hashes| == 2
    ensures Fold(sum, PairUp(sum, hashes)) == Fold(sum, hashes)
  {
    SplitPointIsSplit(2);
    FoldSplits(sum, hashes, 1);
    assert Fold(sum, hashes[..1]) == hashes[0] && Fold(sum, hashes[1..]) == hashes[1];
  }

  /** Combining one level does not change the tree hash. */
  lemma {:induction false} PairUpKeepsFold(sum: Bytes -> Bytes, hashes: seq<Bytes>)
    requires hashes != []
    ensures Fold(sum, PairUp(sum, hashes)) == Fold(sum, hashes)
    decreases |hashes|
  {
    var n, paired := |hashes|, PairUp(sum, hashes);
    if n == 1 {
      assert paired == hashes;
    } else if n == 2 {
      FoldTwo(sum, hashes);
    } else {
      var k := SplitPoint(n);
      SplitHalves(n);
      FoldSplits(sum, hashes, k);
      FoldSplits(sum, paired, k / 2);
      PairUpSplits(sum, hashes, k);
      PairUpKeepsFold(sum, hashes[..k]);
      PairUpKeepsFold(sum, hashes[k..]);
    }
  }

  // ----- the iterative form

  /** Combines the first `size` entries of the array in place. */
  method PairUpInPlace(s: Hasher, items: array<Bytes>, size: nat) returns (wp: nat)
    requires 2 <= size <= items.Length
    modifies s, items
    ensures wp == (size + 1) / 2
    ensures items[..wp] == PairUp(s.checksum, old(items[..size]))
  {
    ghost var level := items[..size];
    var rp := 0;
    wp := 0;
    while rp < size
      invariant rp == if 2 * wp <= size then 2 * wp else size
      invariant wp <= (size + 1) / 2 && wp <= rp <= size
      invariant forall i :: 0 <= i < wp ==> items[i] == PairAt(s.checksum, level, i)
      invariant forall i :: rp <= i < size ==> items[i] == level[i]
    {
      if rp + 1 < size {
        items[wp] := InnerHashOpt(s, items[rp], items[rp + 1]);
        rp := rp + 2;
      } else {
        items[wp] := items[rp];
        rp := rp + 1;
      }
      wp := wp + 1;
    }
  }

  /** Level by level in one array: the same hash as the recursive form. */
  method HashFromByteSlicesIterative(sum: Bytes -> Bytes, input: seq<Bytes>) returns (r: Bytes)
    ensures r == Root(sum, input)
  {
    var items := new Bytes[|input|];
    var s := new Hasher(sum);
    for i := 0 to |input|
      invariant forall j :: 0 <= j < i ==> items[j] == LeafHash(sum, input[j])
    {
      items[i] := LeafHash(sum, input[i]);
    }
    if |input| == 0 {
      return EmptyHash(sum);
    }
    RootIsFold(sum, input);
    var size := items.Length;
    assert items[..size] == LeafHashes(sum, input);
    while size > 1
      invariant 1 <= size <= items.Length
      invariant Fold(sum, items[..size]) == Root(sum, input)
    {
      PairUpKeepsFold(sum, items[..size]);
      size := PairUpInPlace(s, items, size);
    }
    r := items[0];
  }
}
