/** Merkle inclusion proofs (crypto/merkle/proof.go): building them from a tree
    of linked nodes, checking them, and what a check that passes means. */
module MerkleProof {
  import opened Common
  import opened Merkle

  datatype Proof = Proof(total: int, index: int, leafHash: Bytes, aunts: seq<Bytes>)

  // ----- checking

  /** Index and size of the subtree that holds item `index` of `total`. */
  function Subtree(index: int, total: int): (r: (int, int))
    requires 0 <= index < total && total > 1
    ensures 0 <= r.0 < r.1 < total
  {
    var numLeft := SplitPoint(total);
    if index < numLeft then (index, numLeft) else (index - numLeft, total - numLeft)
  }

  /** The inner node over a subtree and its sibling, which is on the right of
      items in the left part. */
  function Join(index: int, total: int, subtree: Bytes, sibling: Bytes): Bytes
    requires total > 1
  {
    if index < SplitPoint(total) then INNER_PREFIX + subtree + sibling else INNER_PREFIX + sibling + subtree
  }

  /** computeHashFromAunts; None for its errors. */
  function FromAunts(sum: Bytes -> Bytes, index: int, total: int, leafHash: Bytes, aunts: seq<Bytes>): Option<Bytes>
    decreases total
  {
    if index >= total || index < 0 || total <= 0 then None
    else if total == 1 then
      if |aunts| != 0 then None else Some(leafHash)
    else if |aunts| == 0 then None
    else
      var (i, t) := Subtree(index, total);
      var last := |aunts| - 1;
      var h := FromAunts(sum, i, t, leafHash, aunts[..last]);
      if h == None then None else Some(sum(Join(index, total, h.value, aunts[last])))
  }

  /** Proof.Verify, true where the source returns no error. */
  predicate Verifies(sum: Bytes -> Bytes, proof: Proof, root: Bytes, leaf: Bytes) {
    && proof.total >= 0
    && proof.index >= 0
    && proof.leafHash == LeafHash(sum, leaf)
    && FromAunts(sum, proof.index, proof.total, proof.leafHash, proof.aunts) == Some(root)
  }

  // ----- completeness

  /** The half of the list with item `i`, or the other one. */
  function Half(items: seq<Bytes>, i: int, own: bool): (r: seq<Bytes>)
    requires |items| > 1 && 0 <= i < |items|
    ensures 0 < |r| < |items|
    ensures own ==> |r| == Subtree(i, |items|).1 && r[Subtree(i, |items|).0] == items[i]
  {
    var k := SplitPoint(|items|);
    if (i < k) == own then items[..k] else items[k..]
  }

  /** The audit path of item `i`: sibling hashes from the leaf up, as in section
      2.1.1 of RFC 6962. */
  function AuditPath(sum: Bytes -> Bytes, items: seq<Bytes>, i: int): seq<Bytes>
    requires 0 <= i < |items|
    decreases |items|
  {
    if |items| == 1 then []
    else AuditPath(sum, Half(items, i, true), Subtree(i, |items|).0) + [Root(sum, Half(items, i, false))]
  }

  /** A root is the join of the two halves, seen from either. */
  lemma RootJoins(sum: Bytes -> Bytes, items: seq<Bytes>, i: int)
    requires |items| > 1 && 0 <= i < |items|
    ensures Root(sum, items)
            == sum(Join(i, |items|, Root(sum, Half(items, i, true)), Root(sum, Half(items, i, false))))
  {
  }

  /** The last aunt is the sibling of the subtree that holds the leaf. */
  lemma FromAuntsStep(sum: Bytes -> Bytes, index: int, total: nat, leafHash: Bytes, rest: seq<Bytes>, aunt: Bytes)
    requires 0 <= index < total && total > 1
    ensures var (i, t) := Subtree(index, total);
            var h := FromAunts(sum, i, t, leafHash, rest);
            h.Some? ==>
              FromAunts(sum, index, total, leafHash, rest + [aunt]) == Some(sum(Join(index, total, h.value, aunt)))
  {
  }

  /** Every item's audit path leads back to the root. */
  lemma {:induction false} AuditPathVerifies(sum: Bytes -> Bytes, items: seq<Bytes>, i: int)
    requires 0 <= i < |items|
    ensures FromAunts(sum, i, |items|, LeafHash(sum, items[i]), AuditPath(sum, items, i)) == Some(Root(sum, items))
    decreases |items|
  {
    if |items| > 1 {
      var half, j := Half(items, i, true), Subtree(i, |items|).0;
      AuditPathVerifies(sum, half, j);
      FromAuntsStep(sum, i, |items|, LeafHash(sum, items[i]), AuditPath(sum, half, j),
                    Root(sum, Half(items, i, false)));
      RootJoins(sum, items, i);
    }
  }

  function ProofFor(sum: Bytes -> Bytes, items: seq<Bytes>, i: nat): Proof
    requires i < |items|
  {
    Proof(|items|, i, LeafHash(sum, items[i]), AuditPath(sum, items, i))
  }

  lemma Completeness(sum: Bytes -> Bytes, items: seq<Bytes>, i: nat)
    requires i < |items|
    ensures Verifies(sum, ProofFor(sum, items, i), Root(sum, items), items[i])
  {
    AuditPathVerifies(sum, items, i);
  }

  // ----- soundness by collision extraction

  /** Two distinct inputs with the same checksum. */
  datatype Collision = Collision(x: Bytes, y: Bytes)

  predicate Collides(sum: Bytes -> Bytes, c: Collision) {
    c.x != c.y && sum(c.x) == sum(c.y)
  }

  /** The bytes hashed at the top of a tree. */
  function TopInput(sum: Bytes -> Bytes, items: seq<Bytes>): Bytes {
    if |items| == 0 then []
    else if |items| == 1 then LEAF_PREFIX + items[0]
    else
      var k := SplitPoint(|items|);
      INNER_PREFIX + Root(sum, items[..k]) + Root(sum, items[k..])
  }

  /** The bytes hashed at the top of a proof's path. */
  function PathInput(sum: Bytes -> Bytes, index: int, total: int, leaf: Bytes, aunts: seq<Bytes>): Bytes
    requires FromAunts(sum, index, total, LeafHash(sum, leaf), aunts).Some?
  {
    if total == 1 then LEAF_PREFIX + leaf
    else
      var (i, t) := Subtree(index, total);
      var last := |aunts| - 1;
      Join(index, total, FromAunts(sum, i, t, LeafHash(sum, leaf), aunts[..last]).value, aunts[last])
  }

  /** The half of the list on the path's side. */
  function HalfOf(items: seq<Bytes>, left: bool): (r: seq<Bytes>)
    requires |items| > 1
  {
    var k := SplitPoint(|items|);
    if left then items[..k] else items[k..]
  }

  /** Walks down the proof and the tree together and returns the first place where
      they hash different bytes; None when they agree to the leaf. */
  function Extract(sum: Bytes -> Bytes, items: seq<Bytes>, index: int, total: int, leaf: Bytes,
      aunts: seq<Bytes>): Option<Collision>
    requires FromAunts(sum, index, total, LeafHash(sum, leaf), aunts).Some?
    decreases total
  {
    var x, y := PathInput(sum, index, total, leaf, aunts), TopInput(sum, items);
    if x != y then Some(Collision(x, y))
    else if total == 1 || |items| <= 1 then None
    else
      var (i, t) := Subtree(index, total);
      Extract(sum, HalfOf(items, index < SplitPoint(total)), i, t, leaf, aunts[..|aunts| - 1])
  }

  lemma TopHash(sum: Bytes -> Bytes, items: seq<Bytes>)
    ensures Root(sum, items) == sum(TopInput(sum, items))
  {
  }

  lemma PathHash(sum: Bytes -> Bytes, index: int, total: int, leaf: Bytes, aunts: seq<Bytes>)
    requires FromAunts(sum, index, total, LeafHash(sum, leaf), aunts).Some?
    ensures FromAunts(sum, index, total, LeafHash(sum, leaf), aunts).value
            == sum(PathInput(sum, index, total, leaf, aunts))
  {
  }

  /** Equal concatenations with a part of equal size have equal parts. */
  lemma SplitEqual(a: Bytes, b: Bytes, c: Bytes, d: Bytes)
    requires INNER_PREFIX + a + b == INNER_PREFIX + c + d
    requires |a| == |c| || |b| == |d|
    ensures a == c && b == d
  {
    var s, t := INNER_PREFIX + a + b, INNER_PREFIX + c + d;
    assert |a| == |c|;
    assert a == s[1..1 + |a|] && c == t[1..1 + |c|];
    assert b == s[1 + |a|..] && d == t[1 + |c|..];
  }

  /** The child on the path, of two that are hashed together. */
  lemma ChildAgrees(index: int, total: int, h: Bytes, aunt: Bytes, left: Bytes, right: Bytes)
    requires 0 <= index < total && total > 1 && |h| == |left| == |right|
    requires Join(index, total, h, aunt) == INNER_PREFIX + left + right
    ensures h == if index < SplitPoint(total) then left else right
  {
    if index < SplitPoint(total) {
      SplitEqual(h, aunt, left, right);
    } else {
      SplitEqual(aunt, h, left, right);
    }
  }

  lemma RootSize(sum: Bytes -> Bytes, items: seq<Bytes>)
    requires FixedSize(sum)
    ensures |Root(sum, items)| == HASH_SIZE
  {
    TopHash(sum, items);
  }

  lemma PathSize(sum: Bytes -> Bytes, index: int, total: int, leaf: Bytes, aunts: seq<Bytes>)
    requires FixedSize(sum) && FromAunts(sum, index, total, LeafHash(sum, leaf), aunts).Some?
    ensures |FromAunts(sum, index, total, LeafHash(sum, leaf), aunts).value| == HASH_SIZE
  {
    PathHash(sum, index, total, leaf, aunts);
  }

  /** What a path of several levels hashes at its top. */
  lemma PathTop(sum: Bytes -> Bytes, index: int, total: int, leaf: Bytes, aunts: seq<Bytes>)
    returns (i: int, t: int, h: Bytes)
    requires FixedSize(sum) && total > 1 && FromAunts(sum, index, total, LeafHash(sum, leaf), aunts).Some?
    ensures (i, t) == Subtree(index, total) && |aunts| > 0 && |h| == HASH_SIZE
    ensures FromAunts(sum, i, t, LeafHash(sum, leaf), aunts[..|aunts| - 1]) == Some(h)
    ensures PathInput(sum, index, total, leaf, aunts) == Join(index, total, h, aunts[|aunts| - 1])
  {
    i, t := Subtree(index, total).0, Subtree(index, total).1;
    h := FromAunts(sum, i, t, LeafHash(sum, leaf), aunts[..|aunts| - 1]).value;
    PathSize(sum, i, t, leaf, aunts[..|aunts| - 1]);
  }

  /** Where path and tree hash the same bytes, so do their children on the path. */
  lemma ChildrenAgree(sum: Bytes -> Bytes, items: seq<Bytes>, index: int, total: int, leaf: Bytes, aunts: seq<Bytes>)
    requires FixedSize(sum) && total > 1 && |items| > 1
    requires FromAunts(sum, index, total, LeafHash(sum, leaf), aunts).Some?
    requires PathInput(sum, index, total, leaf, aunts) == TopInput(sum, items)
    ensures var (i, t) := Subtree(index, total);
            FromAunts(sum, i, t, LeafHash(sum, leaf), aunts[..|aunts| - 1])
            == Some(Root(sum, HalfOf(items, index < SplitPoint(total))))
  {
    var k := SplitPoint(|items|);
    RootSize(sum, items[..k]);
    RootSize(sum, items[k..]);
    var i, t, h := PathTop(sum, index, total, leaf, aunts);
    ChildAgrees(index, total, h, aunts[|aunts| - 1], Root(sum, items[..k]), Root(sum, items[k..]));
  }

  lemma HalfIsPart(items: seq<Bytes>, index: int, total: int)
    requires |items| > 1 && 0 <= index < total && total > 1
    ensures var half := HalfOf(items, index < SplitPoint(total));
            && (forall z :: z in half ==> z in items)
            && (total == |items| ==> Subtree(index, total).1 == |half| && half[Subtree(index, total).0] == items[index])
  {
  }

  /** The prefixes keep leaves, inner nodes and the empty tree apart. */
  lemma SameTop(sum: Bytes -> Bytes, items: seq<Bytes>, index: int, total: int, leaf: Bytes, aunts: seq<Bytes>)
    requires FromAunts(sum, index, total, LeafHash(sum, leaf), aunts).Some?
    requires PathInput(sum, index, total, leaf, aunts) == TopInput(sum, items)
    requires total == 1 || |items| <= 1
    ensures total == 1 && items == [leaf]
  {
    var x, y := PathInput(sum, index, total, leaf, aunts), TopInput(sum, items);
    assert x[0] == if total == 1 then 0 else 1;
    assert |items| > 0 ==> y[0] == if |items| == 1 then 0 else 1;
    assert x[1..] == leaf && y[1..] == items[0];
  }

  /** An extracted pair collides; without one the leaf is in the list, and at the
      proof's index when the proof claims the right number of items. */
  lemma {:induction false} ExtractSound(sum: Bytes -> Bytes, items: seq<Bytes>, index: int, total: int,
      leaf: Bytes, aunts: seq<Bytes>)
    requires FixedSize(sum)
    requires FromAunts(sum, index, total, LeafHash(sum, leaf), aunts) == Some(Root(sum, items))
    ensures var c := Extract(sum, items, index, total, leaf, aunts);
            && (c.Some? ==> Collides(sum, c.value))
            && (c == None ==> leaf in items)
            && (c == None && total == |items| ==> leaf == items[index])
    decreases total
  {
    var x, y := PathInput(sum, index, total, leaf, aunts), TopInput(sum, items);
    TopHash(sum, items);
    PathHash(sum, index, total, leaf, aunts);
    if x == y {
      if total == 1 || |items| <= 1 {
        SameTop(sum, items, index, total, leaf, aunts);
      } else {
        ChildrenAgree(sum, items, index, total, leaf, aunts);
        var (i, t) := Subtree(index, total);
        var half := HalfOf(items, index < SplitPoint(total));
        ExtractSound(sum, half, i, t, leaf, aunts[..|aunts| - 1]);
        assert Extract(sum, items, index, total, leaf, aunts) == Extract(sum, half, i, t, leaf, aunts[..|aunts| - 1]);
        HalfIsPart(items, index, total);
      }
    }
  }

  /** A proof that verifies against the root of a list proves membership, or hands
      over a collision of the checksum. */
  lemma Soundness(sum: Bytes -> Bytes, items: seq<Bytes>, proof: Proof, leaf: Bytes)
    requires FixedSize(sum) && Verifies(sum, proof, Root(sum, items), leaf)
    ensures var c := Extract(sum, items, proof.index, proof.total, leaf, proof.aunts);
            && (c.Some? ==> Collides(sum, c.value))
            && (c == None ==> leaf in items)
            && (c == None && proof.total == |items| ==> proof.index < |items| && leaf == items[proof.index])
  {
    ExtractSound(sum, items, proof.index, proof.total, leaf, proof.aunts);
  }

  // ----- building the proofs from linked nodes

  /** A chain of parents ending in a root, with the hashes of the siblings. */
  ghost predicate Path(path: seq<ProofNode>, aunts: seq<Bytes>)
    reads path
  {
    && |path| == |aunts| + 1
    && path[|aunts|].IsRoot()
    && forall j :: 0 <= j < |aunts| ==> path[j].parent == path[j + 1] && path[j].HasAunt(aunts[j])
  }

  class ProofNode {
    const hash: Bytes
    var parent: ProofNode?
    var left: ProofNode?
    var right: ProofNode?

    constructor (h: Bytes)
      ensures hash == h && parent == null && left == null && right == null
    {
      hash := h;
      parent, left, right := null, null, null;
    }

    ghost predicate IsRoot()
      reads this
    {
      parent == null && left == null && right == null
    }

    /** One sibling, left or right, with this hash. */
    ghost predicate HasAunt(aunt: Bytes)
      reads this
    {
      || (left != null && left.hash == aunt)
      || (left == null && right != null && right.hash == aunt)
    }

    /** Collects the siblings' hashes on the way to the root. The path is ghost:
        the code only follows the pointers. */
    method FlattenAunts(ghost path: seq<ProofNode>, ghost aunts: seq<Bytes>) returns (r: seq<Bytes>)
      requires Path(path, aunts) && path[0] == this
      ensures r == aunts
    {
      r := [];
      var node: ProofNode? := this;
      ghost var j := 0;
      while node != null
        invariant 0 <= j <= |path|
        invariant node == if j < |path| then path[j] else null
        invariant r == if j < |path| then aunts[..j] else aunts
        decreases |path| - j
      {
        if node.left != null {
          r := r + [node.left.hash];
        } else if node.right != null {
          r := r + [node.right.hash];
        }
        node := node.parent;
        j := j + 1;
      }
    }
  }

  ghost predicate LeadsTo(path: seq<ProofNode>, aunts: seq<Bytes>, root: ProofNode)
    reads path
  {
    Path(path, aunts) && path[|aunts|] == root
  }

  /** Node `i` of a tree's trails is leaf `i`, and its path is its audit path. */
  ghost predicate Trail(sum: Bytes -> Bytes, items: seq<Bytes>, i: nat, node: ProofNode, path: seq<ProofNode>,
      root: ProofNode)
    requires i < |items|
    reads path
  {
    && node.hash == LeafHash(sum, items[i])
    && Path(path, AuditPath(sum, items, i))
    && path[0] == node
    && path[|path| - 1] == root
  }

  /** Linking two roots under a new one makes every path to them one longer. */
  method Link(leftRoot: ProofNode, rightRoot: ProofNode, root: ProofNode,
              ghost paths: seq<seq<ProofNode>>, ghost aunts: seq<seq<Bytes>>)
    requires leftRoot.IsRoot() && rightRoot.IsRoot() && root.IsRoot()
    requires leftRoot != rightRoot && root != leftRoot && root != rightRoot
    requires |paths| == |aunts|
    requires forall i :: 0 <= i < |paths| ==>
               LeadsTo(paths[i], aunts[i], leftRoot) || LeadsTo(paths[i], aunts[i], rightRoot)
    requires forall i :: 0 <= i < |paths| ==> root !in paths[i]
    modifies leftRoot, rightRoot
    ensures forall i :: 0 <= i < |paths| ==>
              Path(paths[i] + [root], aunts[i] + [if leftRoot in paths[i] then rightRoot.hash else leftRoot.hash])
  {
    leftRoot.parent := root;
    leftRoot.right := rightRoot;
    rightRoot.parent := root;
    rightRoot.left := leftRoot;
    forall i | 0 <= i < |paths|
      ensures Path(paths[i] + [root], aunts[i] + [if leftRoot in paths[i] then rightRoot.hash else leftRoot.hash])
    {
      var path, last := paths[i], |aunts[i]|;
      assert old(Path(path, aunts[i])) && path[last] in {leftRoot, rightRoot};
      forall j | 0 <= j < last ensures path[j] != leftRoot && path[j] != rightRoot {
        assert old(path[j].parent == path[j + 1]);
      }
      var longer, more := path + [root], aunts[i] + [if leftRoot in path then rightRoot.hash else leftRoot.hash];
      forall j | 0 <= j < |more| ensures longer[j].parent == longer[j + 1] && longer[j].HasAunt(more[j]) {
        if j < last {
          assert old(path[j].parent == path[j + 1] && path[j].HasAunt(aunts[i][j]));
        }
      }
    }
  }

  /** The aunts of item `i` inside its half of the tree. */
  function InnerPath(sum: Bytes -> Bytes, items: seq<Bytes>, i: int): seq<Bytes>
    requires 0 <= i < |items| && |items| > 1
  {
    AuditPath(sum, Half(items, i, true), Subtree(i, |items|).0)
  }

  /** What the recursive calls give, for all items together. */
  lemma HalvesTogether(sum: Bytes -> Bytes, items: seq<Bytes>, k: nat,
                       lefts: seq<ProofNode>, leftPaths: seq<seq<ProofNode>>, leftRoot: ProofNode,
                       rights: seq<ProofNode>, rightPaths: seq<seq<ProofNode>>, rightRoot: ProofNode)
    requires |items| > 1 && k == SplitPoint(|items|) && 0 < k < |items|
    requires |lefts| == |leftPaths| == k && |rights| == |rightPaths| == |items| - k
    requires forall i :: 0 <= i < k ==> Trail(sum, items[..k], i, lefts[i], leftPaths[i], leftRoot)
    requires forall i :: 0 <= i < |items| - k ==> Trail(sum, items[k..], i, rights[i], rightPaths[i], rightRoot)
    ensures forall i :: 0 <= i < |items| ==>
              && LeadsTo((leftPaths + rightPaths)[i], InnerPath(sum, items, i), if i < k then leftRoot else rightRoot)
              && (leftPaths + rightPaths)[i][0] == (lefts + rights)[i]
              && (lefts + rights)[i].hash == LeafHash(sum, items[i])
  {
    forall i | 0 <= i < |items|
      ensures LeadsTo((leftPaths + rightPaths)[i], InnerPath(sum, items, i), if i < k then leftRoot else rightRoot)
      ensures (leftPaths + rightPaths)[i][0] == (lefts + rights)[i]
      ensures (lefts + rights)[i].hash == LeafHash(sum, items[i])
    {
      if i < k {
        assert Trail(sum, items[..k], i, lefts[i], leftPaths[i], leftRoot);
      } else {
        assert Trail(sum, items[k..], i - k, rights[i - k], rightPaths[i - k], rightRoot);
      }
    }
  }

  /** One longer paths with one more aunt are the audit paths of the whole list. */
  lemma Assemble(sum: Bytes -> Bytes, items: seq<Bytes>, trails: seq<ProofNode>, below: seq<seq<ProofNode>>,
                 leftRoot: ProofNode, rightRoot: ProofNode, root: ProofNode)
    requires |items| == |trails| == |below| > 1
    requires leftRoot.hash == Root(sum, items[..SplitPoint(|items|)])
    requires rightRoot.hash == Root(sum, items[SplitPoint(|items|)..])
    requires forall i :: 0 <= i < |items| ==> below[i] != [] && below[i][0] == trails[i]
    requires forall i :: 0 <= i < |items| ==> trails[i].hash == LeafHash(sum, items[i])
    requires forall i :: 0 <= i < |items| ==> (leftRoot in below[i] <==> i < SplitPoint(|items|))
    requires forall i :: 0 <= i < |items| ==>
               Path(below[i] + [root],
                    InnerPath(sum, items, i) + [if leftRoot in below[i] then rightRoot.hash else leftRoot.hash])
    ensures forall i :: 0 <= i < |items| ==> Trail(sum, items, i, trails[i], below[i] + [root], root)
  {
  }

  method JoinPaths(sum: Bytes -> Bytes, items: seq<Bytes>,
                   lefts: seq<ProofNode>, leftRoot: ProofNode, ghost leftPaths: seq<seq<ProofNode>>,
                   rights: seq<ProofNode>, rightRoot: ProofNode, ghost rightPaths: seq<seq<ProofNode>>)
    returns (trails: seq<ProofNode>, root: ProofNode, ghost paths: seq<seq<ProofNode>>)
    requires |items| > 1
    requires |lefts| == |leftPaths| == SplitPoint(|items|) && |rights| == |rightPaths| == |items| - |lefts|
    requires leftRoot != rightRoot && leftRoot.IsRoot() && rightRoot.IsRoot()
    requires leftRoot.hash == Root(sum, items[..|lefts|]) && rightRoot.hash == Root(sum, items[|lefts|..])
    requires forall i :: 0 <= i < |lefts| ==> Trail(sum, items[..|lefts|], i, lefts[i], leftPaths[i], leftRoot)
    requires forall i :: 0 <= i < |rights| ==> Trail(sum, items[|lefts|..], i, rights[i], rightPaths[i], rightRoot)
    requires forall i :: 0 <= i < |rights| ==> leftRoot !in rightPaths[i]
    modifies leftRoot, rightRoot
    ensures |trails| == |paths| == |items|
    ensures fresh(root) && root.IsRoot() && root.hash == Root(sum, items)
    ensures forall i :: 0 <= i < |items| ==> paths[i] == (leftPaths + rightPaths)[i] + [root]
    ensures forall i :: 0 <= i < |items| ==> Trail(sum, items, i, trails[i], paths[i], root)
  {
    root := new ProofNode(InnerHash(sum, leftRoot.hash, rightRoot.hash));
    trails := lefts + rights;
    ghost var below := leftPaths + rightPaths;
    ghost var aunts := seq(|items|, i requires 0 <= i < |items| => InnerPath(sum, items, i));
    HalvesTogether(sum, items, |lefts|, lefts, leftPaths, leftRoot, rights, rightPaths, rightRoot);
    Link(leftRoot, rightRoot, root, below, aunts);
    paths := seq(|items|, i requires 0 <= i < |items| => below[i] + [root]);
    Assemble(sum, items, trails, below, leftRoot, rightRoot, root);
  }

  /** A finished tree: its nodes, its root with the tree hash, and the trail of every item. */
  ghost predicate Trails(sum: Bytes -> Bytes, items: seq<Bytes>, trails: seq<ProofNode>, root: ProofNode,
      paths: seq<seq<ProofNode>>, nodes: set<ProofNode>)
    reads nodes
  {
    && |trails| == |paths| == |items|
    && root in nodes && root.IsRoot() && root.hash == Root(sum, items)
    && (forall i, n :: 0 <= i < |paths| && n in paths[i] ==> n in nodes)
    && forall i :: 0 <= i < |items| ==> Trail(sum, items, i, trails[i], paths[i], root)
  }

  /** Puts two finished halves under a new root. */
  method JoinHalves(sum: Bytes -> Bytes, items: seq<Bytes>, k: nat,
                    lefts: seq<ProofNode>, leftRoot: ProofNode, ghost leftPaths: seq<seq<ProofNode>>,
                    rights: seq<ProofNode>, rightRoot: ProofNode, ghost rightPaths: seq<seq<ProofNode>>,
                    ghost leftNodes: set<ProofNode>, ghost rightNodes: set<ProofNode>)
    returns (trails: seq<ProofNode>, root: ProofNode, ghost paths: seq<seq<ProofNode>>)
    requires |items| > 1 && k == SplitPoint(|items|) && leftNodes !! rightNodes
    requires Trails(sum, items[..k], lefts, leftRoot, leftPaths, leftNodes)
    requires Trails(sum, items[k..], rights, rightRoot, rightPaths, rightNodes)
    modifies leftRoot, rightRoot
    ensures fresh(root) && Trails(sum, items, trails, root, paths, leftNodes + rightNodes + {root})
  {
    trails, root, paths := JoinPaths(sum, items, lefts, leftRoot, leftPaths, rights, rightRoot, rightPaths);
    forall i, n | 0 <= i < |paths| && n in paths[i] ensures n in leftNodes + rightNodes + {root} {
      assert n in (leftPaths + rightPaths)[i] + [root];
    }
  }

  /** The trails of a list without a split. */
  method SmallTrails(sum: Bytes -> Bytes, items: seq<Bytes>)
    returns (trails: seq<ProofNode>, root: ProofNode, ghost paths: seq<seq<ProofNode>>)
    requires |items| <= 1
    ensures fresh(root) && Trails(sum, items, trails, root, paths, {root})
  {
    if |items| == 0 {
      root := new ProofNode(EmptyHash(sum));
      trails, paths := [], [];
    } else {
      root := new ProofNode(LeafHash(sum, items[0]));
      trails, paths := [root], [[root]];
    }
  }

  /** trailsFromByteSlices: the leaves' nodes and the root of the linked tree. */
  method TrailsFromByteSlices(sum: Bytes -> Bytes, items: seq<Bytes>)
    returns (trails: seq<ProofNode>, root: ProofNode, ghost paths: seq<seq<ProofNode>>, ghost nodes: set<ProofNode>)
    ensures fresh(nodes) && Trails(sum, items, trails, root, paths, nodes)
    decreases |items|
  {
    if |items| <= 1 {
      trails, root, paths := SmallTrails(sum, items);
      nodes := {root};
    } else {
      var k := SplitPoint(|items|);
      var lefts, leftRoot, leftPaths, leftNodes := TrailsFromByteSlices(sum, items[..k]);
      var rights, rightRoot, rightPaths, rightNodes := TrailsFromByteSlices(sum, items[k..]);
      trails, root, paths := JoinHalves(sum, items, k, lefts, leftRoot, leftPaths, rights, rightRoot, rightPaths,
                                        leftNodes, rightNodes);
      nodes := leftNodes + rightNodes + {root};
    }
  }

  method FlattenTrail(sum: Bytes -> Bytes, items: seq<Bytes>, i: nat, node: ProofNode, root: ProofNode,
      ghost path: seq<ProofNode>)
    returns (proof: Proof)
    requires i < |items| && Trail(sum, items, i, node, path, root)
    ensures proof == ProofFor(sum, items, i)
  {
    var aunts := node.FlattenAunts(path, AuditPath(sum, items, i));
    proof := Proof(|items|, i, node.hash, aunts);
  }

  /** The proofs, from the trails. */
  method FlattenTrails(sum: Bytes -> Bytes, items: seq<Bytes>, trails: seq<ProofNode>, root: ProofNode,
      ghost paths: seq<seq<ProofNode>>)
    returns (proofs: seq<Proof>)
    requires |trails| == |paths| == |items|
    requires forall i :: 0 <= i < |items| ==> Trail(sum, items, i, trails[i], paths[i], root)
    ensures |proofs| == |items|
    ensures forall i :: 0 <= i < |items| ==> proofs[i] == ProofFor(sum, items, i)
  {
    proofs := [];
    for i := 0 to |items|
      invariant |proofs| == i
      invariant forall j :: 0 <= j < i ==> proofs[j] == ProofFor(sum, items, j)
    {
      var proof := FlattenTrail(sum, items, i, trails[i], root, paths[i]);
      proofs := proofs + [proof];
    }
  }

  lemma AllVerify(sum: Bytes -> Bytes, items: seq<Bytes>)
    ensures forall i :: 0 <= i < |items| ==> Verifies(sum, ProofFor(sum, items, i), Root(sum, items), items[i])
  {
    forall i | 0 <= i < |items| ensures Verifies(sum, ProofFor(sum, items, i), Root(sum, items), items[i]) {
      Completeness(sum, items, i);
    }
  }

  /** ProofsFromByteSlices: the root of the list and, for every item, a proof that
      verifies against it. */
  method ProofsFromByteSlices(sum: Bytes -> Bytes, items: seq<Bytes>) returns (rootHash: Bytes, proofs: seq<Proof>)
    ensures rootHash == Root(sum, items)
    ensures |proofs| == |items|
    ensures forall i :: 0 <= i < |items| ==> proofs[i] == ProofFor(sum, items, i)
    ensures forall i :: 0 <= i < |items| ==> Verifies(sum, proofs[i], rootHash, items[i])
  {
    var trails, root, paths, nodes := TrailsFromByteSlices(sum, items);
    rootHash := root.hash;
    proofs := FlattenTrails(sum, items, trails, root, paths);
    AllVerify(sum, items);
  }
}
