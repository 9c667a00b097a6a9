/** The Merkle tree of internal/application/digest/merkle.go: nodes, hashes, and
    the level-by-level construction with odd-node promotion, proved to build the
    tree of section 2.1 of RFC 6962. */
module Merkle {
  import opened Hashing

  const LEAF_PREFIX: char := '\U{0000}'
  const INTERNAL_PREFIX: char := '\U{0001}'

  /** A tree node. The source compares nodes by address; every leaf has its own
      index, so equality of values is the same comparison here. */
  datatype Node =
    | Leaf(hash: string, index: nat)
    | Inner(hash: string, left: Node, right: Node)

  datatype Tree = Tree(root: Node, rootHash: string, leaves: seq<Node>, leafCount: nat)

  function LeafMessage(data: string): string {
    [LEAF_PREFIX] + data
  }

  function InnerMessage(left: string, right: string): string {
    [INTERNAL_PREFIX] + left + right
  }

  function HashLeaf(h: Hash, key: string, data: string): (t: string)
    requires Lawful(h)
  {
    TreeHex(h, key, LeafMessage(data))
  }

  function HashInner(h: Hash, key: string, left: string, right: string): (t: string)
    requires Lawful(h)
  {
    TreeHex(h, key, InnerMessage(left, right))
  }

  function Join(h: Hash, key: string, left: Node, right: Node): Node
    requires Lawful(h)
  {
    Inner(HashInner(h, key, left.hash, right.hash), left, right)
  }

  // ----- powers of two and the split point of RFC 6962

  function Pow2(j: nat): (p: nat)
    ensures p > 0
  {
    if j == 0 then 1 else 2 * Pow2(j - 1)
  }

  /** The j for which 2^j is the largest power of two smaller than n. */
  function SplitLog(n: nat): (j: nat)
    requires n >= 2
    ensures Pow2(j) < n <= 2 * Pow2(j)
  {
    if n == 2 then 0 else 1 + SplitLog((n + 1) / 2)
  }

  lemma {:induction false} Pow2Monotone(i: nat, j: nat)
    requires i < j
    ensures 2 * Pow2(i) <= Pow2(j)
    decreases j
  {
    if i + 1 < j {
      Pow2Monotone(i, j - 1);
    }
  }

  lemma SplitLogUnique(n: nat, j: nat)
    requires n >= 2 && Pow2(j) < n <= 2 * Pow2(j)
    ensures SplitLog(n) == j
  {
    var i := SplitLog(n);
    if i < j {
      Pow2Monotone(i, j);
    } else if j < i {
      Pow2Monotone(j, i);
    }
  }

  // ----- the reference tree

  /** MTH of RFC 6962: a single leaf is itself; a longer list is split at the
      largest power of two below its length. */
  function RfcTree(h: Hash, key: string, leaves: seq<Node>): (t: Node)
    requires Lawful(h)
    requires |leaves| >= 1
    decreases |leaves|
  {
    if |leaves| == 1 then leaves[0]
    else
      var k := Pow2(SplitLog(|leaves|));
      Join(h, key, RfcTree(h, key, leaves[..k]), RfcTree(h, key, leaves[k..]))
  }

  /** As section 2.1 of RFC 6962 has it, byte 1 and the two hashes from left to right are hashed for a pair, and byte 0
      and the data for a leaf. */
  lemma PairHash(h: Hash, key: string, left: string, right: string, data: string)
    requires Lawful(h)
    ensures RfcTree(h, key, [Leaf(left, 0), Leaf(right, 1)]).hash == TreeHex(h, key, "\U{0001}" + left + right)
    ensures HashLeaf(h, key, data) == TreeHex(h, key, "\U{0000}" + data)
  {
    var leaves := [Leaf(left, 0), Leaf(right, 1)];
    assert SplitLog(2) == 0;
    assert leaves[..1] == [leaves[0]] && leaves[1..] == [leaves[1]];
    assert RfcTree(h, key, [leaves[0]]) == leaves[0] && RfcTree(h, key, [leaves[1]]) == leaves[1];
  }

  function LeavesOf(t: Node): seq<Node> {
    match t
    case Leaf(_, _) => [t]
    case Inner(_, l, r) => LeavesOf(l) + LeavesOf(r)
  }

  function Height(t: Node): nat {
    match t
    case Leaf(_, _) => 0
    case Inner(_, l, r) => 1 + if Height(l) > Height(r) then Height(l) else Height(r)
  }

  predicate AllLeaves(nodes: seq<Node>) {
    forall i :: 0 <= i < |nodes| ==> nodes[i].Leaf?
  }

  /** A longer list is the two lists of the split, and its tree joins their trees. */
  lemma RfcTreeSplit(h: Hash, key: string, leaves: seq<Node>) returns (a: seq<Node>, b: seq<Node>)
    requires Lawful(h)
    requires |leaves| >= 2
    ensures leaves == a + b && |a| == Pow2(SplitLog(|leaves|)) && |b| >= 1
    ensures RfcTree(h, key, leaves) == Join(h, key, RfcTree(h, key, a), RfcTree(h, key, b))
  {
    var k := Pow2(SplitLog(|leaves|));
    a, b := leaves[..k], leaves[k..];
  }

  lemma {:induction false} RfcTreeLeaves(h: Hash, key: string, leaves: seq<Node>)
    requires Lawful(h)
    requires |leaves| >= 1 && AllLeaves(leaves)
    ensures LeavesOf(RfcTree(h, key, leaves)) == leaves
    decreases |leaves|
  {
    if |leaves| > 1 {
      var a, b := RfcTreeSplit(h, key, leaves);
      LeavesApart(a, b);
      RfcTreeLeaves(h, key, a);
      RfcTreeLeaves(h, key, b);
    }
  }

  lemma LeavesApart(a: seq<Node>, b: seq<Node>)
    requires AllLeaves(a + b)
    ensures AllLeaves(a) && AllLeaves(b)
  {
    assert forall i :: 0 <= i < |a| ==> a[i] == (a + b)[i];
    assert forall i :: 0 <= i < |b| ==> b[i] == (a + b)[|a| + i];
  }

  /** The logarithm of n to the base 2, rounded up. */
  function CeilLog(n: nat): (j: nat)
    requires n >= 1
  {
    if n == 1 then 0 else 1 + CeilLog((n + 1) / 2)
  }

  lemma {:induction false} CeilLogIsSplitLog(n: nat)
    requires n >= 2
    ensures CeilLog(n) == 1 + SplitLog(n)
  {
    if n == 2 {
      assert CeilLog(1) == 0;
    } else {
      CeilLogIsSplitLog((n + 1) / 2);
    }
  }

  lemma CeilLogBound(n: nat, j: nat)
    requires n >= 1
    ensures CeilLog(n) <= j <==> n <= Pow2(j)
  {
    if n > 1 {
      var i := SplitLog(n);
      CeilLogIsSplitLog(n);
      if i + 1 < j {
        Pow2Monotone(i + 1, j);
      } else if j < i {
        Pow2Monotone(j, i);
      }
    }
  }

  lemma CeilLogSplit(a: nat, b: nat, n: nat)
    requires a >= 1 && b >= 1 && n == a + b && a == Pow2(SplitLog(n))
    ensures CeilLog(b) <= CeilLog(a) && CeilLog(n) == CeilLog(a) + 1
  {
    var i := SplitLog(n);
    CeilLogIsSplitLog(n);
    CeilLogBound(a, i);
    CeilLogBound(b, i);
    if i > 0 {
      CeilLogBound(a, i - 1);
    }
  }

  lemma JoinHeight(t: Node, a: nat, b: nat)
    requires t.Inner? && Height(t.left) == a && Height(t.right) == b <= a
    ensures Height(t) == a + 1
  {
  }

  /** The tree is as low as it can be: its height is the logarithm of the number of leaves. */
  lemma {:induction false} RfcTreeHeight(h: Hash, key: string, leaves: seq<Node>)
    requires Lawful(h)
    requires |leaves| >= 1 && AllLeaves(leaves)
    ensures Height(RfcTree(h, key, leaves)) == CeilLog(|leaves|)
    decreases |leaves|
  {
    if |leaves| == 1 {
      assert RfcTree(h, key, leaves) == leaves[0];
    } else {
      var a, b := RfcTreeSplit(h, key, leaves);
      LeavesApart(a, b);
      RfcTreeHeight(h, key, a);
      RfcTreeHeight(h, key, b);
      CeilLogSplit(|a|, |b|, |leaves|);
      JoinHeight(RfcTree(h, key, leaves), CeilLog(|a|), CeilLog(|b|));
    }
  }

  // ----- the level-by-level construction

  predicate BlockStarts(leaves: seq<Node>, i: nat, w: nat) {
    i * w < |leaves|
  }

  /** The i-th run of `w` consecutive leaves, the last one possibly shorter. */
  function Block(leaves: seq<Node>, i: nat, w: nat): (b: seq<Node>)
    requires w > 0 && BlockStarts(leaves, i, w)
    ensures 1 <= |b| <= w
  {
    if |leaves| - i * w <= w then leaves[i * w..] else leaves[i * w..i * w + w]
  }

  /** `level` holds the reference trees of the runs of `w` leaves, in order. */
  ghost predicate LevelOf(h: Hash, key: string, leaves: seq<Node>, level: seq<Node>, w: nat)
    requires Lawful(h)
    requires w > 0
  {
    && (forall i: nat :: i < |level| <==> BlockStarts(leaves, i, w))
    && (forall i: nat :: i < |level| ==> level[i] == RfcTree(h, key, Block(leaves, i, w)))
  }

  lemma DoubleIndex(i: nat, w: nat)
    ensures (2 * i) * w == i * (2 * w)
    ensures (2 * i + 1) * w == i * (2 * w) + w
  {
  }

  lemma BlockHalves(leaves: seq<Node>, i: nat, w: nat)
    requires w > 0 && BlockStarts(leaves, 2 * i + 1, w)
    ensures BlockStarts(leaves, i, 2 * w) && BlockStarts(leaves, 2 * i, w)
    ensures w < |Block(leaves, i, 2 * w)|
    ensures Block(leaves, i, 2 * w)[..w] == Block(leaves, 2 * i, w)
    ensures Block(leaves, i, 2 * w)[w..] == Block(leaves, 2 * i + 1, w)
  {
    DoubleIndex(i, w);
  }

  /** Two neighbouring runs joined make the run of twice the width. */
  lemma JoinBlocks(h: Hash, key: string, leaves: seq<Node>, i: nat, j: nat)
    requires Lawful(h)
    requires BlockStarts(leaves, 2 * i + 1, Pow2(j))
    ensures BlockStarts(leaves, i, Pow2(j + 1)) && BlockStarts(leaves, 2 * i, Pow2(j))
    ensures RfcTree(h, key, Block(leaves, i, Pow2(j + 1)))
         == Join(h, key, RfcTree(h, key, Block(leaves, 2 * i, Pow2(j))),
                 RfcTree(h, key, Block(leaves, 2 * i + 1, Pow2(j))))
  {
    BlockHalves(leaves, i, Pow2(j));
    SplitLogUnique(|Block(leaves, i, Pow2(j + 1))|, j);
  }

  /** A run without a neighbour is promoted as it is. */
  lemma PromoteBlock(leaves: seq<Node>, i: nat, w: nat)
    requires w > 0 && BlockStarts(leaves, 2 * i, w) && !BlockStarts(leaves, 2 * i + 1, w)
    ensures BlockStarts(leaves, i, 2 * w)
    ensures Block(leaves, i, 2 * w) == Block(leaves, 2 * i, w)
  {
    DoubleIndex(i, w);
  }

  /** One pass over a level: pair neighbours, promote an odd last node. */
  method NextLevel(h: Hash, key: string, level: seq<Node>) returns (next: seq<Node>)
    requires Lawful(h)
    ensures |next| == (|level| + 1) / 2
    ensures forall q: nat {:trigger next[q]} :: q < |next| ==>
              next[q] == if 2 * q + 1 < |level| then Join(h, key, level[2 * q], level[2 * q + 1]) else level[2 * q]
  {
    next := [];
    var i := 0;
    while i < |level|
      invariant i == 2 * |next| && i <= |level| + 1 && |next| <= (|level| + 1) / 2
      invariant forall q: nat {:trigger next[q]} :: q < |next| ==>
                  next[q] == if 2 * q + 1 < |level| then Join(h, key, level[2 * q], level[2 * q + 1]) else level[2 * q]
    {
      if i + 1 < |level| {
        var left, right := level[i], level[i + 1];
        var parentHash := HashInner(h, key, left.hash, right.hash);
        next := next + [Inner(parentHash, left, right)];
      } else {
        next := next + [level[i]];
      }
      i := i + 2;
    }
  }

  lemma NextLevelIsLevel(h: Hash, key: string, leaves: seq<Node>, level: seq<Node>, next: seq<Node>, j: nat)
    requires Lawful(h)
    requires LevelOf(h, key, leaves, level, Pow2(j))
    requires |next| == (|level| + 1) / 2
    requires forall q: nat {:trigger next[q]} :: q < |next| ==>
               next[q] == if 2 * q + 1 < |level| then Join(h, key, level[2 * q], level[2 * q + 1]) else level[2 * q]
    ensures LevelOf(h, key, leaves, next, Pow2(j + 1))
  {
    var w, w2 := Pow2(j), Pow2(j + 1);
    forall q: nat ensures q < |next| <==> BlockStarts(leaves, q, w2) {
      DoubleIndex(q, w);
      assert 2 * q < |level| <==> BlockStarts(leaves, 2 * q, w);
    }
    forall q: nat | q < |next|
      ensures next[q] == RfcTree(h, key, Block(leaves, q, w2))
    {
      assert BlockStarts(leaves, 2 * q, w);
      assert 2 * q + 1 < |level| <==> BlockStarts(leaves, 2 * q + 1, w);
      if 2 * q + 1 < |level| {
        JoinBlocks(h, key, leaves, q, j);
      } else {
        PromoteBlock(leaves, q, w);
      }
    }
  }

  datatype BuildResult = Built(tree: Tree) | EmptyLeaves

  /** buildTreeFromNodes: the bottom-up construction gives exactly the RFC 6962 tree. */
  method BuildTreeFromNodes(h: Hash, key: string, leaves: seq<Node>) returns (r: BuildResult)
    requires Lawful(h)
    ensures leaves == [] ==> r.EmptyLeaves?
    ensures leaves != [] ==> r.Built? && r.tree.root == RfcTree(h, key, leaves)
    ensures r.Built? ==> r.tree.rootHash == r.tree.root.hash && r.tree.leaves == leaves && r.tree.leafCount == |leaves|
  {
    if |leaves| == 0 {
      return EmptyLeaves;
    }
    var currentLevel := leaves;
    ghost var j := 0;
    forall i: nat | i < |leaves| ensures leaves[i] == RfcTree(h, key, Block(leaves, i, 1)) {
      assert Block(leaves, i, 1) == [leaves[i]];
    }
    while |currentLevel| > 1
      invariant |currentLevel| >= 1
      invariant LevelOf(h, key, leaves, currentLevel, Pow2(j))
      decreases |currentLevel|
    {
      var nextLevel := NextLevel(h, key, currentLevel);
      NextLevelIsLevel(h, key, leaves, currentLevel, nextLevel, j);
      currentLevel := nextLevel;
      j := j + 1;
    }
    assert !BlockStarts(leaves, 1, Pow2(j));
    assert Block(leaves, 0, Pow2(j)) == leaves;
    var rootNode := currentLevel[0];
    r := Built(Tree(rootNode, rootNode.hash, leaves, |leaves|));
  }

  function LeafNodes(hashes: seq<string>): (nodes: seq<Node>)
    ensures |nodes| == |hashes| && AllLeaves(nodes)
    ensures forall i :: 0 <= i < |hashes| ==> nodes[i] == Leaf(hashes[i], i)
  {
    seq(|hashes|, i requires 0 <= i < |hashes| => Leaf(hashes[i], i))
  }

  function DataLeafHashes(h: Hash, key: string, data: seq<string>): (hashes: seq<string>)
    requires Lawful(h)
    ensures |hashes| == |data|
    ensures forall i :: 0 <= i < |data| ==> hashes[i] == HashLeaf(h, key, data[i])
  {
    seq(|data|, i requires 0 <= i < |data| => HashLeaf(h, key, data[i]))
  }

  /** BuildTreeFromHashes: leaf hashes are taken as they are; no leaves gives the
      hash of the empty leaf. */
  method BuildTreeFromHashes(h: Hash, key: string, leafHashes: seq<string>) returns (t: Tree)
    requires Lawful(h)
    ensures t.leafCount == |leafHashes| && t.leaves == LeafNodes(leafHashes) && t.rootHash == t.root.hash
    ensures leafHashes == [] ==> t.root == Leaf(HashLeaf(h, key, ""), 0)
    ensures leafHashes != [] ==> t.root == RfcTree(h, key, LeafNodes(leafHashes))
  {
    if |leafHashes| == 0 {
      var emptyHash := HashLeaf(h, key, "");
      return Tree(Leaf(emptyHash, 0), emptyHash, [], 0);
    }
    var leafNodes: seq<Node> := [];
    for i := 0 to |leafHashes|
      invariant leafNodes == LeafNodes(leafHashes)[..i]
    {
      leafNodes := leafNodes + [Leaf(leafHashes[i], i)];
    }
    assert leafNodes == LeafNodes(leafHashes);
    var r := BuildTreeFromNodes(h, key, leafNodes);
    t := r.tree;
  }

  /** BuildTree: the same over the hashes of raw leaf data. */
  method BuildTree(h: Hash, key: string, leafData: seq<string>) returns (t: Tree)
    requires Lawful(h)
    ensures t.leafCount == |leafData| && t.rootHash == t.root.hash
    ensures t.leaves == LeafNodes(DataLeafHashes(h, key, leafData))
    ensures leafData == [] ==> t.root == Leaf(HashLeaf(h, key, ""), 0)
    ensures leafData != [] ==> t.root == RfcTree(h, key, t.leaves)
  {
    if |leafData| == 0 {
      var emptyHash := HashLeaf(h, key, "");
      return Tree(Leaf(emptyHash, 0), emptyHash, [], 0);
    }
    var leafNodes: seq<Node> := [];
    for i := 0 to |leafData|
      invariant leafNodes == LeafNodes(DataLeafHashes(h, key, leafData))[..i]
    {
      leafNodes := leafNodes + [Leaf(HashLeaf(h, key, leafData[i]), i)];
    }
    assert leafNodes == LeafNodes(DataLeafHashes(h, key, leafData));
    var r := BuildTreeFromNodes(h, key, leafNodes);
    t := r.tree;
  }
}
