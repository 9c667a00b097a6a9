/** Inclusion proofs: generation by a top-down search (digest/merkle.go), and
    verification by folding the path (domain/merkle.go). */
module MerkleProof {
  import opened Text
  import opened Hashing
  import opened Merkle

  datatype Position = OnLeft | OnRight
  datatype Step = Step(hash: string, position: Position)
  datatype Proof = Proof(leafIndex: nat, leafHash: string, path: seq<Step>, rootHash: string)
  datatype ProofResult = Found(proof: Proof) | EmptyTree | OutOfBounds | NotFound

  // ----- verification

  function StepMessage(current: string, step: Step): string {
    if step.position.OnLeft? then InnerMessage(step.hash, current) else InnerMessage(current, step.hash)
  }

  /** The hash reached from `current` by following `path` from the leaf upwards. */
  function FoldPath(h: Hash, key: string, current: string, path: seq<Step>): (t: string)
    requires Lawful(h)
    ensures path != [] || |current| == 64 ==> |t| == 64
  {
    if path == [] then current
    else TreeHex(h, key, StepMessage(FoldPath(h, key, current, path[..|path| - 1]), path[|path| - 1]))
  }

  predicate Accepts(h: Hash, key: string, p: Proof, expectedRoot: string)
    requires Lawful(h)
  {
    && p.leafHash != ""
    && !(p.rootHash == "" && expectedRoot == "")
    && FoldPath(h, key, p.leafHash, p.path) == if expectedRoot == "" then p.rootHash else expectedRoot
  }

  lemma FoldNext(h: Hash, key: string, current: string, path: seq<Step>, i: nat)
    requires Lawful(h) && i < |path|
    ensures FoldPath(h, key, current, path[..i + 1])
         == TreeHex(h, key, StepMessage(FoldPath(h, key, current, path[..i]), path[i]))
  {
    assert path[..i + 1][..i] == path[..i];
  }

  /** MerkleProof.Verify */
  method Verify(h: Hash, key: string, p: Proof, expectedRoot: string) returns (ok: bool)
    requires Lawful(h)
    ensures ok == Accepts(h, key, p, expectedRoot)
  {
    if p.leafHash == "" || (p.rootHash == "" && expectedRoot == "") {
      return false;
    }
    var targetRoot := expectedRoot;
    if targetRoot == "" {
      targetRoot := p.rootHash;
    }
    var currentHash := p.leafHash;
    for i := 0 to |p.path|
      invariant currentHash == FoldPath(h, key, p.leafHash, p.path[..i])
    {
      var step := p.path[i];
      var combined;
      if step.position == OnLeft {
        combined := [INTERNAL_PREFIX] + step.hash + currentHash;
      } else {
        combined := [INTERNAL_PREFIX] + currentHash + step.hash;
      }
      FoldNext(h, key, p.leafHash, p.path, i);
      currentHash := TreeHex(h, key, combined);
    }
    assert p.path[..|p.path|] == p.path;
    ok := currentHash == targetRoot;
  }

  // ----- soundness

  /** The messages hashed while building the tree of `data`. */
  ghost function BuildMessages(h: Hash, key: string, data: seq<string>): set<string>
    requires Lawful(h)
    requires |data| >= 1
    decreases |data|
  {
    if |data| == 1 then {LeafMessage(data[0])}
    else
      var k := Pow2(SplitLog(|data|));
      {InnerMessage(DataRoot(h, key, data[..k]), DataRoot(h, key, data[k..]))}
      + BuildMessages(h, key, data[..k]) + BuildMessages(h, key, data[k..])
  }

  /** The root hash of the RFC 6962 tree over `data`. */
  ghost function DataRoot(h: Hash, key: string, data: seq<string>): (r: string)
    requires Lawful(h)
    requires |data| >= 1
    ensures |r| == 64
    decreases |data|
  {
    if |data| == 1 then HashLeaf(h, key, data[0])
    else
      var k := Pow2(SplitLog(|data|));
      HashInner(h, key, DataRoot(h, key, data[..k]), DataRoot(h, key, data[k..]))
  }

  predicate HashesOf(h: Hash, key: string, leaves: seq<Node>, data: seq<string>)
    requires Lawful(h)
  {
    |leaves| == |data| && forall i :: 0 <= i < |data| ==> leaves[i].hash == HashLeaf(h, key, data[i])
  }

  /** It is the root hash BuildTree gives. */
  lemma {:induction false} BuiltRoot(h: Hash, key: string, leaves: seq<Node>, data: seq<string>)
    requires Lawful(h)
    requires |data| >= 1 && HashesOf(h, key, leaves, data)
    ensures RfcTree(h, key, leaves).hash == DataRoot(h, key, data)
    decreases |data|
  {
    if |data| > 1 {
      var k := Pow2(SplitLog(|data|));
      BuiltRoot(h, key, leaves[..k], data[..k]);
      BuiltRoot(h, key, leaves[k..], data[k..]);
    }
  }

  /** The messages hashed while verifying `path` from the leaf `data`. */
  ghost function VerifyMessages(h: Hash, key: string, data: string, path: seq<Step>): set<string>
    requires Lawful(h)
  {
    if path == [] then {LeafMessage(data)}
    else
      var rest := path[..|path| - 1];
      {StepMessage(FoldPath(h, key, HashLeaf(h, key, data), rest), path[|path| - 1])}
      + VerifyMessages(h, key, data, rest)
  }

  /** Some message hashed by the builder and some other one hashed by the verifier have one hash. */
  ghost predicate CollisionBetween(h: Hash, key: string, built: set<string>, verified: set<string>) {
    exists a, b :: a in built && b in verified && TreeCollision(h, key, a, b)
  }

  lemma SameInnerMessage(a: string, b: string, c: string, d: string)
    requires InnerMessage(a, b) == InnerMessage(c, d)
    requires |a| == |c| || |b| == |d|
    ensures a == c && b == d
  {
    assert InnerMessage(a, b)[1..] == a + b && InnerMessage(c, d)[1..] == c + d;
    SplitAtLength(a, b, c, d);
  }

  /** A path of any length, with any sibling strings, that leads from the
      leaf hash of `leaf` to the root of the tree over `data` proves that `leaf` is one of
      `data`, unless two of the messages hashed on the two sides collide. */
  lemma {:induction false} PathSound(h: Hash, key: string, data: seq<string>, leaf: string, path: seq<Step>)
    requires Lawful(h)
    requires |data| >= 1
    requires FoldPath(h, key, HashLeaf(h, key, leaf), path) == DataRoot(h, key, data)
    ensures leaf in data
         || CollisionBetween(h, key, BuildMessages(h, key, data), VerifyMessages(h, key, leaf, path))
    decreases |data|
  {
    var start := HashLeaf(h, key, leaf);
    var built := BuildMessages(h, key, data);
    var verified := VerifyMessages(h, key, leaf, path);
    var b := if path == [] then LeafMessage(leaf)
             else StepMessage(FoldPath(h, key, start, path[..|path| - 1]), path[|path| - 1]);
    assert b in verified && TreeHex(h, key, b) == DataRoot(h, key, data);
    if |data| == 1 {
      var a := LeafMessage(data[0]);
      TreeHexEqual(h, key, a, b);
      if a == b {
        assert a[0] == b[0] && a[1..] == data[0];
        assert path == [] && b[1..] == leaf;
      }
    } else {
      var k := Pow2(SplitLog(|data|));
      var left, right := DataRoot(h, key, data[..k]), DataRoot(h, key, data[k..]);
      var a := InnerMessage(left, right);
      TreeHexEqual(h, key, a, b);
      if a == b {
        assert a[0] == b[0];
        PathSoundStep(h, key, data, leaf, path);
      }
    }
  }

  /** The last step of the path names the two children of the root, so the shorter path leads to one of them. */
  lemma PathSoundStep(h: Hash, key: string, data: seq<string>, leaf: string, path: seq<Step>)
    requires Lawful(h)
    requires |data| >= 2 && path != []
    requires var k := Pow2(SplitLog(|data|));
             StepMessage(FoldPath(h, key, HashLeaf(h, key, leaf), path[..|path| - 1]), path[|path| - 1])
             == InnerMessage(DataRoot(h, key, data[..k]), DataRoot(h, key, data[k..]))
    ensures leaf in data
         || CollisionBetween(h, key, BuildMessages(h, key, data), VerifyMessages(h, key, leaf, path))
    decreases |data|, 0
  {
    var k := Pow2(SplitLog(|data|));
    var left, right := DataRoot(h, key, data[..k]), DataRoot(h, key, data[k..]);
    var rest, last := path[..|path| - 1], path[|path| - 1];
    var below := FoldPath(h, key, HashLeaf(h, key, leaf), rest);
    var verified := VerifyMessages(h, key, leaf, rest);
    if last.position.OnLeft? {
      SameInnerMessage(last.hash, below, left, right);
      PathSound(h, key, data[k..], leaf, rest);
    } else {
      SameInnerMessage(below, last.hash, left, right);
      PathSound(h, key, data[..k], leaf, rest);
    }
  }

  /** Soundness: if the verifier accepts any proof for the leaf hash of `leaf`, of any
      length and with any sibling strings, against the root BuildTree gives for `data`, then
      `leaf` is one of `data`, or two of the messages hashed on the two sides collide. */
  lemma ProofSound(h: Hash, key: string, data: seq<string>, leaf: string, p: Proof)
    requires Lawful(h)
    requires |data| >= 1
    requires p.leafHash == HashLeaf(h, key, leaf)
    requires Accepts(h, key, p, RfcTree(h, key, LeafNodes(DataLeafHashes(h, key, data))).hash)
    ensures leaf in data
         || CollisionBetween(h, key, BuildMessages(h, key, data), VerifyMessages(h, key, leaf, p.path))
  {
    BuiltRoot(h, key, LeafNodes(DataLeafHashes(h, key, data)), data);
    PathSound(h, key, data, leaf, p.path);
  }

  // ----- generation

  /** nodeContains */
  predicate NodeContains(parent: Node, target: Node) {
    parent == target
    || match parent
       case Leaf(_, _) => false
       case Inner(_, l, r) => NodeContains(l, target) || NodeContains(r, target)
  }

  lemma {:induction false} ContainsLeaf(t: Node, target: Node)
    requires target.Leaf?
    ensures NodeContains(t, target) <==> target in LeavesOf(t)
  {
    if t.Inner? {
      ContainsLeaf(t.left, target);
      ContainsLeaf(t.right, target);
    }
  }

  /** The siblings met on the way down from `t` to `target`, the top one first. */
  function PathDown(t: Node, target: Node): (path: seq<Step>) {
    match t
    case Leaf(_, _) => []
    case Inner(_, l, r) =>
      if t == target then []
      else if NodeContains(l, target) then [Step(r.hash, OnRight)] + PathDown(l, target)
      else if NodeContains(r, target) then [Step(l.hash, OnLeft)] + PathDown(r, target)
      else []
  }

  /** collectProofPath: appends to the caller's path and reports whether the target is there. */
  method CollectProofPath(current: Node, target: Node, path: seq<Step>) returns (found: bool, path': seq<Step>)
    ensures found == NodeContains(current, target)
    ensures found ==> path' == path + PathDown(current, target)
    decreases current
  {
    path' := path;
    if current == target {
      return true, path';
    }
    if current.Leaf? {
      return false, path';
    }
    if NodeContains(current.left, target) {
      path' := path' + [Step(current.right.hash, OnRight)];
      found, path' := CollectProofPath(current.left, target, path');
      return;
    }
    if NodeContains(current.right, target) {
      path' := path' + [Step(current.left.hash, OnLeft)];
      found, path' := CollectProofPath(current.right, target, path');
      return;
    }
    return false, path';
  }

  function Reversed<T>(s: seq<T>): (r: seq<T>)
    ensures |r| == |s|
  {
    if s == [] then [] else Reversed(s[1..]) + [s[0]]
  }

  lemma {:induction false} ReversedAt<T>(s: seq<T>, k: nat)
    requires k < |s|
    ensures Reversed(s)[k] == s[|s| - 1 - k]
  {
    if k < |s| - 1 {
      ReversedAt(s[1..], k);
    }
  }

  /** The swap loop of GenerateProof that turns the path upside down. */
  method ReversePath(down: seq<Step>) returns (path: seq<Step>)
    ensures path == Reversed(down)
  {
    path := down;
    var i, j := 0, |path| - 1;
    while i < j
      invariant |path| == |down| && 0 <= i && j == |path| - 1 - i && i <= j + 1
      invariant forall k :: 0 <= k < i ==> path[k] == down[|path| - 1 - k] && path[|path| - 1 - k] == down[k]
      invariant forall k :: i <= k <= j ==> path[k] == down[k]
    {
      path := path[i := path[j]][j := path[i]];
      i, j := i + 1, j - 1;
    }
    IsReversed(down, path);
  }

  lemma IsReversed(down: seq<Step>, path: seq<Step>)
    requires |path| == |down| && forall k :: 0 <= k < |path| ==> path[k] == down[|path| - 1 - k]
    ensures path == Reversed(down)
  {
    forall k | 0 <= k < |path| ensures path[k] == Reversed(down)[k] {
      ReversedAt(down, k);
    }
  }

  /** GenerateProof */
  method GenerateProof(tree: Tree, leafIndex: int) returns (r: ProofResult)
    requires tree.leafCount == |tree.leaves|
    ensures tree.leafCount == 0 ==> r.EmptyTree?
    ensures tree.leafCount > 0 && !(0 <= leafIndex < tree.leafCount) ==> r.OutOfBounds?
    ensures 0 <= leafIndex < tree.leafCount ==>
              var target := tree.leaves[leafIndex];
              r == if NodeContains(tree.root, target)
                   then Found(Proof(leafIndex, target.hash, Reversed(PathDown(tree.root, target)), tree.rootHash))
                   else NotFound
  {
    if tree.leafCount == 0 {
      return EmptyTree;
    }
    if leafIndex < 0 || leafIndex >= tree.leafCount {
      return OutOfBounds;
    }
    var targetLeaf := tree.leaves[leafIndex];
    var found, path := CollectProofPath(tree.root, targetLeaf, []);
    if !found {
      return NotFound;
    }
    assert path == PathDown(tree.root, targetLeaf);
    path := ReversePath(path);
    r := Found(Proof(leafIndex, targetLeaf.hash, path, tree.rootHash));
  }

  // ----- completeness

  /** Every inner node carries the hash of its two children. */
  predicate WellHashed(h: Hash, key: string, t: Node)
    requires Lawful(h)
  {
    match t
    case Leaf(_, _) => true
    case Inner(hash, l, r) =>
      hash == HashInner(h, key, l.hash, r.hash) && WellHashed(h, key, l) && WellHashed(h, key, r)
  }

  lemma {:induction false} RfcTreeWellHashed(h: Hash, key: string, leaves: seq<Node>)
    requires Lawful(h)
    requires |leaves| >= 1 && AllLeaves(leaves)
    ensures WellHashed(h, key, RfcTree(h, key, leaves))
    decreases |leaves|
  {
    if |leaves| > 1 {
      var k := Pow2(SplitLog(|leaves|));
      RfcTreeWellHashed(h, key, leaves[..k]);
      RfcTreeWellHashed(h, key, leaves[k..]);
    }
  }

  /** Folding the reversed search path from the leaf gives the hash of the node searched from. */
  lemma {:induction false} PathFoldsToRoot(h: Hash, key: string, t: Node, target: Node)
    requires Lawful(h)
    requires WellHashed(h, key, t) && target.Leaf? && NodeContains(t, target)
    ensures FoldPath(h, key, target.hash, Reversed(PathDown(t, target))) == t.hash
  {
    if t.Inner? {
      if NodeContains(t.left, target) {
        PathFoldsToRoot(h, key, t.left, target);
        FoldTop(h, key, target.hash, Step(t.right.hash, OnRight), PathDown(t.left, target));
      } else {
        PathFoldsToRoot(h, key, t.right, target);
        FoldTop(h, key, target.hash, Step(t.left.hash, OnLeft), PathDown(t.right, target));
      }
    }
  }

  /** The first step of the way down is the last one folded. */
  lemma FoldTop(h: Hash, key: string, current: string, top: Step, rest: seq<Step>)
    requires Lawful(h)
    ensures FoldPath(h, key, current, Reversed([top] + rest))
         == TreeHex(h, key, StepMessage(FoldPath(h, key, current, Reversed(rest)), top))
  {
    assert ([top] + rest)[1..] == rest;
    var up := Reversed([top] + rest);
    assert up == Reversed(rest) + [top];
    assert up[..|up| - 1] == Reversed(rest);
  }

  lemma {:induction false} PathShort(t: Node, target: Node)
    ensures |PathDown(t, target)| <= Height(t)
  {
    if t.Inner? {
      PathShort(t.left, target);
      PathShort(t.right, target);
    }
  }

  /** Completeness: in the tree of n leaf hashes every leaf is found, its proof has at
      most log2(n) steps, rounded up, and the verifier accepts it, against the root or
      against the root the proof itself names, exactly when the leaf hash is not empty. */
  lemma ProofComplete(h: Hash, key: string, hashes: seq<string>, leafIndex: nat)
    requires Lawful(h)
    requires leafIndex < |hashes|
    ensures var root := RfcTree(h, key, LeafNodes(hashes));
            var target := LeafNodes(hashes)[leafIndex];
            var proof := Proof(leafIndex, target.hash, Reversed(PathDown(root, target)), root.hash);
            && NodeContains(root, target)
            && |proof.path| <= CeilLog(|hashes|)
            && (Accepts(h, key, proof, root.hash) <==> hashes[leafIndex] != "")
            && (Accepts(h, key, proof, "") <==> hashes[leafIndex] != "")
  {
    var leaves := LeafNodes(hashes);
    var root, target := RfcTree(h, key, leaves), leaves[leafIndex];
    RfcTreeLeaves(h, key, leaves);
    ContainsLeaf(root, target);
    RfcTreeWellHashed(h, key, leaves);
    PathFoldsToRoot(h, key, root, target);
    PathShort(root, target);
    RfcTreeHeight(h, key, leaves);
    assert |hashes| == 1 ==> root == target;
  }
}
