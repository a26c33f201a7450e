/**
 Merkle trees as the batcher builds them and as the contract checks them.

 The tree builder and the proof verifier are library code outside the repository; `Tree`,
 `MerklePath` and `ProcessInclusionProof` state what this model takes them to do.
 */
module Merkle {
  import opened ByteStrings

  // ---------- powers of two and low bits ----------

  function Pow2(d: nat): (p: nat)
    ensures p >= 1
  {
    if d == 0 then 1 else 2 * Pow2(d - 1)
  }

  /** Height of the smallest perfect binary tree with at least `n` leaves. */
  function Depth(n: nat): (d: nat)
    requires n >= 1
    ensures Pow2(d) >= n
    ensures d > 0 ==> Pow2(d - 1) < n
  {
    if n == 1 then 0 else 1 + Depth((n + 1) / 2)
  }

  /** The number read off the `k` lowest bits of `i`, lowest first, as the verifier does. */
  function LowBits(i: nat, k: nat): nat {
    if k == 0 then 0 else i % 2 + 2 * LowBits(i / 2, k - 1)
  }

  lemma {:induction false} LowBitsIsMod(i: nat, k: nat)
    ensures LowBits(i, k) == i % Pow2(k) < Pow2(k)
  {
    if k > 0 {
      LowBitsIsMod(i / 2, k - 1);
      HalfMod(i, Pow2(k - 1));
    }
  }

  lemma HalfMod(i: nat, p: nat)
    requires p > 0
    ensures i % (2 * p) == i % 2 + 2 * (i / 2 % p)
  {
    var q, r := i / 2 / p, i / 2 % p;
    assert i / 2 == q * p + r;
    assert q * (2 * p) == 2 * (q * p);
    DivisionIsUnique(i, 2 * p, q, i % 2 + 2 * r);
  }

  lemma DivisionIsUnique(i: nat, m: nat, q: nat, r: nat)
    requires i == q * m + r && r < m
    ensures i % m == r
  {
    var q', r' := i / m, i % m;
    assert i == q' * m + r' && 0 <= r' < m;
    if q' > q {
      Distance(q', q, m);
    } else if q' < q {
      Distance(q, q', m);
    }
  }

  lemma Distance(a: nat, b: nat, m: nat)
    requires a > b
    ensures a * m >= b * m + m
  {
    assert (a - b - 1) * m >= 0;
    assert a * m == (a - b - 1) * m + b * m + m;
  }

  lemma PairInjective(a: Digest, b: Digest, c: Digest, d: Digest)
    requires Pair(a, b) == Pair(c, d)
    ensures a == c && b == d
  {
    assert Pair(a, b)[..32] == a && Pair(a, b)[32..] == b;
    assert Pair(c, d)[..32] == c && Pair(c, d)[32..] == d;
  }

  // ---------- the builder ----------

  /** What `hash_new_parent` feeds the hasher: the left child, then the right child. */
  function Pair(left: Digest, right: Digest): (b: Bytes)
    ensures |b| == 64 && b[..32] == left && b[32..] == right
  {
    left + right
  }

  function Clamp(i: nat, n: nat): (j: nat)
    requires n >= 1
    ensures j < n
  {
    if i < n then i else n - 1
  }

  /**
   Node `j` at height `m`. The leaf hashes are completed to a power of two by repeating the last
   one, so height 0 is defined past the last leaf.
   */
  function Node(h: Hash, leaves: seq<Bytes>, m: nat, j: nat): Digest
    requires |leaves| >= 1
    decreases m, 0
  {
    if m == 0 then h(leaves[Clamp(j, |leaves|)]) else h(NodeInput(h, leaves, m - 1, j))
  }

  /** What is hashed into node `j` of height `m + 1`. */
  function NodeInput(h: Hash, leaves: seq<Bytes>, m: nat, j: nat): (b: Bytes)
    requires |leaves| >= 1
    ensures |b| == 64
    decreases m, 1
  {
    Pair(Node(h, leaves, m, 2 * j), Node(h, leaves, m, 2 * j + 1))
  }

  /** The root the batcher commits to: node 0 of the smallest perfect tree over the leaves. */
  function Root(h: Hash, leaves: seq<Bytes>): Digest
    requires |leaves| >= 1
  {
    Node(h, leaves, Depth(|leaves|), 0)
  }

  function Sibling(i: nat): nat {
    if i % 2 == 0 then i + 1 else i - 1
  }

  /** A vector of siblings, leaf end first. */
  datatype Path = Top | Up(sibling: Digest, rest: Path)
  {
    function Length(): nat {
      if Top? then 0 else 1 + rest.Length()
    }

    /** The path without its first `k` siblings. */
    function Drop(k: nat): (p: Path)
      requires k <= Length()
      ensures p.Length() == Length() - k
    {
      if k == 0 then this else rest.Drop(k - 1)
    }
  }

  /** The `k` siblings met going up from node `i` of height `m`. */
  function Siblings(h: Hash, leaves: seq<Bytes>, m: nat, k: nat, i: nat): (path: Path)
    requires |leaves| >= 1
    ensures path.Length() == k
    decreases k
  {
    if k == 0 then Top else Up(Node(h, leaves, m, Sibling(i)), Siblings(h, leaves, m + 1, k - 1, i / 2))
  }

  /** `get_proof_by_pos` */
  function Proof(h: Hash, leaves: seq<Bytes>, i: nat): (path: Path)
    requires i < |leaves|
    ensures path.Length() == Depth(|leaves|)
  {
    Siblings(h, leaves, 0, Depth(|leaves|), i)
  }

  // ---------- the verifier ----------

  function ParentPreimage(node: Digest, sibling: Digest, index: nat): (b: Bytes)
    ensures |b| == 64
  {
    if index % 2 == 0 then Pair(node, sibling) else Pair(sibling, node)
  }

  function Fold(h: Hash, node: Digest, path: Path, index: nat): Digest
    decreases path
  {
    if path.Top? then node
    else Fold(h, h(ParentPreimage(node, path.sibling, index)), path.rest, index / 2)
  }

  /** Cuts a proof into 32-byte siblings. */
  function Chunks(proof: Bytes): (path: Path)
    requires |proof| % 32 == 0
    ensures path.Length() == |proof| / 32
  {
    if proof == [] then Top else Up(proof[..32], Chunks(proof[32..]))
  }

  /** Concatenates a path into the proof bytes a client sends. */
  function Flatten(path: Path): (proof: Bytes)
    ensures |proof| == 32 * path.Length()
  {
    if path.Top? then [] else path.sibling + Flatten(path.rest)
  }

  lemma {:induction false} ChunksOfFlatten(path: Path)
    ensures Chunks(Flatten(path)) == path
  {
    if path.Up? {
      assert Flatten(path)[..32] == path.sibling;
      assert Flatten(path)[32..] == Flatten(path.rest);
      ChunksOfFlatten(path.rest);
    }
  }

  lemma {:induction false} FlattenOfChunks(proof: Bytes)
    requires |proof| % 32 == 0
    ensures Flatten(Chunks(proof)) == proof
  {
    if proof != [] {
      FlattenOfChunks(proof[32..]);
      assert proof == proof[..32] + proof[32..];
    }
  }

  datatype FoldResult = Computed(root: Digest) | Revert

  /** The on-chain loop over the proof, 32 bytes at a time, halving the index. */
  method ProcessInclusionProof(h: Hash, proof: Bytes, leaf: Digest, index: nat) returns (r: FoldResult)
    ensures r == if |proof| % 32 == 0 then Computed(Fold(h, leaf, Chunks(proof), index)) else Revert
  {
    if |proof| % 32 != 0 {
      return Revert;
    }
    var computed: Digest := leaf;
    var rest, i := index, 32;
    while i <= |proof|
      invariant 32 <= i <= |proof| + 32 && i % 32 == 0
      invariant Fold(h, leaf, Chunks(proof), index) == Fold(h, computed, Chunks(proof[i - 32..]), rest)
    {
      var sibling: Digest := proof[i - 32..i];
      assert proof[i - 32..][..32] == sibling && proof[i - 32..][32..] == proof[i..];
      assert Chunks(proof[i - 32..]) == Up(sibling, Chunks(proof[i..]));
      computed := h(if rest % 2 == 0 then Pair(computed, sibling) else Pair(sibling, computed));
      rest := rest / 2;
      i := i + 32;
    }
    return Computed(computed);
  }

  // ---------- completeness ----------

  lemma SiblingPair(h: Hash, leaves: seq<Bytes>, m: nat, i: nat)
    requires |leaves| >= 1
    ensures ParentPreimage(Node(h, leaves, m, i), Node(h, leaves, m, Sibling(i)), i) == NodeInput(h, leaves, m, i / 2)
  {
    assert i == 2 * (i / 2) + i % 2;
  }

  /** Folding the siblings above a node reaches the node `k` levels up. */
  lemma {:induction false} SiblingsFold(h: Hash, leaves: seq<Bytes>, m: nat, k: nat, i: nat)
    requires |leaves| >= 1 && i < Pow2(k)
    ensures Fold(h, Node(h, leaves, m, i), Siblings(h, leaves, m, k, i), i) == Node(h, leaves, m + k, 0)
    decreases k
  {
    if k == 0 {
      assert i == 0;
    } else {
      SiblingPair(h, leaves, m, i);
      SiblingsFold(h, leaves, m + 1, k - 1, i / 2);
    }
  }

  /** The verifier reads only the lowest bits of the index, one a sibling. */
  lemma {:induction false} FoldReadsLowBits(h: Hash, node: Digest, path: Path, index: nat)
    ensures Fold(h, node, path, LowBits(index, path.Length())) == Fold(h, node, path, index)
    decreases path
  {
    if path.Up? {
      var low := LowBits(index / 2, path.rest.Length());
      assert LowBits(index, path.Length()) == index % 2 + 2 * low;
      FoldReadsLowBits(h, h(ParentPreimage(node, path.sibling, index)), path.rest, index / 2);
    }
  }

  /** The batcher's proof for a leaf folds to the batcher's root. */
  lemma ProofFolds(h: Hash, leaves: seq<Bytes>, i: nat)
    requires i < |leaves|
    ensures Fold(h, h(leaves[i]), Proof(h, leaves, i), i) == Root(h, leaves)
  {
    hide Fold, Siblings, Depth, Pow2;
    SiblingsFold(h, leaves, 0, Depth(|leaves|), i);
  }

  /** The tree of three leaves, spelled out: left before right, and the last leaf's hash again to fill up. */
  lemma ThreeLeaves(h: Hash, a: Bytes, b: Bytes, c: Bytes)
    ensures Root(h, [a, b, c]) == h(h(h(a) + h(b)) + h(h(c) + h(c)))
  {
    var leaves := [a, b, c];
    assert Depth(3) == 2;
    assert Node(h, leaves, 0, 0) == h(a) && Node(h, leaves, 0, 1) == h(b);
    assert Node(h, leaves, 0, 2) == h(c) && Node(h, leaves, 0, 3) == h(c);
    assert Node(h, leaves, 1, 0) == h(h(a) + h(b)) && Node(h, leaves, 1, 1) == h(h(c) + h(c));
  }

  /** One level of the fold, spelled out: an even index has the sibling on the right. */
  lemma OneLevel(h: Hash, node: Digest, sibling: Digest)
    ensures Fold(h, node, Up(sibling, Top), 0) == h(node + sibling)
    ensures Fold(h, node, Up(sibling, Top), 1) == h(sibling + node)
  {
  }

  // ---------- soundness ----------

  /** Every byte string hashed while building the inner nodes. */
  ghost function InnerInputs(h: Hash, leaves: seq<Bytes>): set<Bytes>
    requires |leaves| >= 1
  {
    var d := Depth(|leaves|);
    set m, j | 0 <= m < d && 0 <= j < Pow2(d - m - 1) :: NodeInput(h, leaves, m, j)
  }

  /** Every byte string hashed while building the tree. */
  ghost function TreeInputs(h: Hash, leaves: seq<Bytes>): set<Bytes>
    requires |leaves| >= 1
  {
    (set x | x in leaves) + InnerInputs(h, leaves)
  }

  /** Every byte string hashed while folding a path. */
  ghost function FoldInputs(h: Hash, node: Digest, path: Path, index: nat): set<Bytes>
    decreases path
  {
    if path.Top? then {}
    else
      var x := ParentPreimage(node, path.sibling, index);
      {x} + FoldInputs(h, h(x), path.rest, index / 2)
  }

  /** Everything hashed to build the tree and to check one leaf against it. */
  ghost function Inputs(h: Hash, leaves: seq<Bytes>, leaf: Bytes, path: Path, index: nat): set<Bytes>
    requires |leaves| >= 1
  {
    TreeInputs(h, leaves) + {leaf} + FoldInputs(h, h(leaf), path, index)
  }

  ghost predicate Separates(h: Hash, leaves: seq<Bytes>, leaf: Bytes, path: Path, index: nat)
    requires |leaves| >= 1
  {
    NoCollision(h, Inputs(h, leaves, leaf, path, index))
  }

  lemma PairPins(a: Digest, b: Digest, node: Digest, sibling: Digest, index: nat)
    requires ParentPreimage(node, sibling, index) == Pair(a, b)
    ensures node == if index % 2 == 0 then a else b
    ensures sibling == if index % 2 == 0 then b else a
  {
    if index % 2 == 0 {
      PairInjective(a, b, node, sibling);
    } else {
      PairInjective(a, b, sibling, node);
    }
  }

  /** The node at height `m` and the siblings from it are those selected by the index's lowest bits. */
  predicate Pinned(h: Hash, leaves: seq<Bytes>, m: nat, node: Digest, path: Path, index: nat)
    requires |leaves| >= 1
  {
    var k := path.Length();
    var j := LowBits(index, k);
    j < Pow2(k) && node == Node(h, leaves, m, j) && path == Siblings(h, leaves, m, k, j)
  }

  /** One level down: the parent's input pins the node, its sibling, and so the whole path from it. */
  lemma PinStep(h: Hash, leaves: seq<Bytes>, m: nat, node: Digest, path: Path, index: nat, parent: Digest)
    requires |leaves| >= 1 && path.Up? && Pinned(h, leaves, m + 1, parent, path.rest, index / 2)
    requires ParentPreimage(node, path.sibling, index)
             == NodeInput(h, leaves, m, LowBits(index / 2, path.rest.Length()))
    ensures Pinned(h, leaves, m, node, path, index)
  {
    var j := LowBits(index / 2, path.rest.Length());
    var i := index % 2 + 2 * j;
    PairPins(Node(h, leaves, m, 2 * j), Node(h, leaves, m, 2 * j + 1), node, path.sibling, index);
    assert i / 2 == j && Sibling(i) == if index % 2 == 0 then 2 * j + 1 else 2 * j;
    assert LowBits(index, path.Length()) == i;
  }

  /** A path no longer than the tree that folds to its root is pinned, with the node it starts from. */
  lemma {:induction false} ShortPathPinsNode(h: Hash, leaves: seq<Bytes>, node: Digest, path: Path, index: nat)
    requires |leaves| >= 1 && path.Length() <= Depth(|leaves|)
    requires NoCollision(h, InnerInputs(h, leaves) + FoldInputs(h, node, path, index))
    requires Fold(h, node, path, index) == Root(h, leaves)
    ensures Pinned(h, leaves, Depth(|leaves|) - path.Length(), node, path, index)
    decreases path
  {
    hide NoCollision, InnerInputs, Depth;
    if path.Up? {
      var x, m := ParentPreimage(node, path.sibling, index), Depth(|leaves|) - path.Length();
      var inputs := InnerInputs(h, leaves) + FoldInputs(h, node, path, index);
      FewerInputs(h, inputs, InnerInputs(h, leaves) + FoldInputs(h, h(x), path.rest, index / 2));
      ShortPathPinsNode(h, leaves, h(x), path.rest, index / 2);
      var y := NodeInput(h, leaves, m, LowBits(index / 2, path.rest.Length()));
      InnerInputsHave(h, leaves, m, LowBits(index / 2, path.rest.Length()));
      SameInput(h, inputs, x, y);
      PinStep(h, leaves, m, node, path, index, h(x));
    }
  }

  lemma InnerInputsHave(h: Hash, leaves: seq<Bytes>, m: nat, j: nat)
    requires |leaves| >= 1 && m < Depth(|leaves|) && j < Pow2(Depth(|leaves|) - m - 1)
    ensures NodeInput(h, leaves, m, j) in InnerInputs(h, leaves)
  {
  }

  /** Folding a path in two stages: the first `k >= 1` siblings end in the hash of 64 bytes. */
  lemma {:induction false} FoldSplit(h: Hash, node: Digest, path: Path, index: nat, k: nat)
      returns (x: Bytes, rest: nat)
    requires 1 <= k <= path.Length()
    ensures |x| == 64 && x in FoldInputs(h, node, path, index)
    ensures FoldInputs(h, h(x), path.Drop(k), rest) <= FoldInputs(h, node, path, index)
    ensures Fold(h, h(x), path.Drop(k), rest) == Fold(h, node, path, index)
    decreases k
  {
    x, rest := ParentPreimage(node, path.sibling, index), index / 2;
    if k > 1 {
      x, rest := FoldSplit(h, h(x), path.rest, index / 2, k - 1);
    }
  }

  /** A path longer than the tree makes the input of an inner hash collide with a leaf. */
  lemma LongPathCollides(h: Hash, leaves: seq<Bytes>, node: Digest, path: Path, index: nat) returns (x: Bytes, y: Bytes)
    requires |leaves| >= 1 && path.Length() > Depth(|leaves|)
    requires NoCollision(h, InnerInputs(h, leaves) + FoldInputs(h, node, path, index))
    requires Fold(h, node, path, index) == Root(h, leaves)
    ensures |x| == 64 && x in FoldInputs(h, node, path, index) && y in leaves && h(x) == h(y)
  {
    hide Fold, FoldInputs, InnerInputs, NoCollision, Siblings, Depth, Pow2;
    var d, rest := Depth(|leaves|), 0;
    x, rest := FoldSplit(h, node, path, index, path.Length() - d);
    var tail := path.Drop(path.Length() - d);
    FewerInputs(h, InnerInputs(h, leaves) + FoldInputs(h, node, path, index),
                InnerInputs(h, leaves) + FoldInputs(h, h(x), tail, rest));
    ShortPathPinsNode(h, leaves, h(x), tail, rest);
    y := leaves[Clamp(LowBits(rest, d), |leaves|)];
  }

  /** A path shorter than the tree makes its starting node the hash of an inner input. */
  lemma ShortPathCollides(h: Hash, leaves: seq<Bytes>, node: Digest, path: Path, index: nat) returns (y: Bytes)
    requires |leaves| >= 1 && path.Length() < Depth(|leaves|)
    requires NoCollision(h, InnerInputs(h, leaves) + FoldInputs(h, node, path, index))
    requires Fold(h, node, path, index) == Root(h, leaves)
    ensures |y| == 64 && y in InnerInputs(h, leaves) && node == h(y)
  {
    ShortPathPinsNode(h, leaves, node, path, index);
    var m, j := Depth(|leaves|) - path.Length() - 1, LowBits(index, path.Length());
    y := NodeInput(h, leaves, m, j);
    InnerInputsHave(h, leaves, m, j);
  }

  /**
   With no collision among the inputs hashed, a path folds a leaf to the root exactly when it is the path
   of the node that the index selects modulo the tree's width, and the leaf is the one under that node.
   Leaf inputs must not have the 64 bytes of an inner node's input.
   */
  lemma FoldsToRootIff(h: Hash, leaves: seq<Bytes>, leaf: Bytes, path: Path, index: nat)
    requires |leaves| >= 1 && |leaf| != 64 && forall x :: x in leaves ==> |x| != 64
    requires Separates(h, leaves, leaf, path, index)
    ensures var d := Depth(|leaves|);
            Fold(h, h(leaf), path, index) == Root(h, leaves)
            <==> path == Siblings(h, leaves, 0, d, index % Pow2(d)) && leaf == leaves[Clamp(index % Pow2(d), |leaves|)]
  {
    hide Fold, Separates, Depth;
    var d := Depth(|leaves|);
    LowBitsIsMod(index, d);
    if Fold(h, h(leaf), path, index) == Root(h, leaves) {
      FoldSound(h, leaves, leaf, path, index);
    }
    if path == Siblings(h, leaves, 0, d, index % Pow2(d)) && leaf == leaves[Clamp(index % Pow2(d), |leaves|)] {
      SiblingsFold(h, leaves, 0, d, index % Pow2(d));
      FoldReadsLowBits(h, h(leaf), path, index);
    }
  }

  lemma FoldSound(h: Hash, leaves: seq<Bytes>, leaf: Bytes, path: Path, index: nat)
    requires |leaves| >= 1 && |leaf| != 64 && forall x :: x in leaves ==> |x| != 64
    requires Separates(h, leaves, leaf, path, index)
    requires Fold(h, h(leaf), path, index) == Root(h, leaves)
    ensures path.Length() == Depth(|leaves|)
    ensures path == Siblings(h, leaves, 0, Depth(|leaves|), index % Pow2(Depth(|leaves|)))
    ensures leaf == leaves[Clamp(index % Pow2(Depth(|leaves|)), |leaves|)]
  {
    var d, inputs := Depth(|leaves|), Inputs(h, leaves, leaf, path, index);
    FewerInputs(h, inputs, InnerInputs(h, leaves) + FoldInputs(h, h(leaf), path, index));
    if path.Length() > d {
      var x, y := LongPathCollides(h, leaves, h(leaf), path, index);
      SameInput(h, inputs, x, y);
    } else if path.Length() < d {
      var y := ShortPathCollides(h, leaves, h(leaf), path, index);
      SameInput(h, inputs, leaf, y);
    } else {
      ShortPathPinsNode(h, leaves, h(leaf), path, index);
      LowBitsIsMod(index, d);
      var y := leaves[Clamp(LowBits(index, d), |leaves|)];
      assert y in leaves;
      SameInput(h, inputs, leaf, y);
    }
  }
}
