/** The merkle tree over a block's transaction ids: what its root binds, and that every leaf has a proof. */
module Merkle {
  import opened Bytes
  import opened Seqs

  function Join(left: Digest, right: Digest): (pre: Bytes) {
    var a: Bytes, b: Bytes := left, right;
    a + b
  }

  /** What is hashed for the `i`-th node of the next layer; an odd last node is paired with itself. */
  function Pair(layer: seq<Digest>, i: nat): (pre: Bytes)
    requires 2 * i < |layer|
  {
    Join(layer[2 * i], if 2 * i + 1 < |layer| then layer[2 * i + 1] else layer[2 * i])
  }

  /** The first `n` nodes of the next layer. */
  function Upto(h: HashFn, layer: seq<Digest>, n: nat): (up: seq<Digest>)
    requires 2 * n <= |layer| + 1
    ensures |up| == n && forall i :: 0 <= i < n ==> up[i] == h(Pair(layer, i))
  {
    if n == 0 then [] else Upto(h, layer, n - 1) + [h(Pair(layer, n - 1))]
  }

  function Above(h: HashFn, layer: seq<Digest>): (up: seq<Digest>)
    ensures |up| == (|layer| + 1) / 2 && forall i :: 0 <= i < |up| ==> up[i] == h(Pair(layer, i))
  {
    Upto(h, layer, (|layer| + 1) / 2)
  }

  /** The ASCII bytes of `empty`. */
  const EMPTY: Bytes := [101, 109, 112, 116, 121]

  function Root(h: HashFn, leaves: seq<Digest>): (root: Digest)
    decreases |leaves|
  {
    if leaves == [] then h(EMPTY) else if |leaves| == 1 then leaves[0] else Root(h, Above(h, leaves))
  }

  method NextLayer(h: HashFn, layer: seq<Digest>) returns (up: seq<Digest>)
    ensures up == Above(h, layer)
  {
    up := [];
    var i := 0;
    while i < |layer|
      invariant i == 2 * |up| <= |layer| + 1 && up == Upto(h, layer, |up|)
    {
      up := up + [h(Join(layer[i], if i + 1 < |layer| then layer[i + 1] else layer[i]))];
      i := i + 2;
    }
  }

  /** Folds the leaves layer by layer. */
  method MerkleRootOf(h: HashFn, leaves: seq<Digest>) returns (root: Digest)
    ensures root == Root(h, leaves)
  {
    if leaves == [] {
      return h(EMPTY);
    }
    var layer := leaves;
    while |layer| > 1
      invariant layer != [] && Root(h, layer) == Root(h, leaves)
      decreases |layer|
    {
      layer := NextLayer(h, layer);
    }
    return layer[0];
  }

  /** Everything hashed on the way from the leaves to the root. */
  ghost function Preimages(h: HashFn, leaves: seq<Digest>): (u: iset<Bytes>)
    decreases |leaves|
  {
    if |leaves| <= 1 then iset{}
    else PairsOf(leaves) + Preimages(h, Above(h, leaves))
  }

  ghost function PairsOf(layer: seq<Digest>): (u: iset<Bytes>) {
    iset i: nat | 2 * i < |layer| :: Pair(layer, i)
  }

  lemma PairUnique(a: seq<Digest>, b: seq<Digest>, i: nat)
    requires |a| == |b| && 2 * i < |a| && Pair(a, i) == Pair(b, i)
    ensures a[2 * i] == b[2 * i] && (2 * i + 1 < |a| ==> a[2 * i + 1] == b[2 * i + 1])
  {
    var x := if 2 * i + 1 < |a| then a[2 * i + 1] else a[2 * i];
    var y := if 2 * i + 1 < |b| then b[2 * i + 1] else b[2 * i];
    SplitUnique(a[2 * i], x, b[2 * i], y);
  }

  lemma LayerUnique(h: HashFn, a: seq<Digest>, b: seq<Digest>)
    requires |a| == |b| && Above(h, a) == Above(h, b)
    ensures a == b || CollisionAcross(h, PairsOf(a), PairsOf(b))
  {
    if !CollisionAcross(h, PairsOf(a), PairsOf(b)) {
      forall k | 0 <= k < |a| ensures a[k] == b[k] {
        var i := k / 2;
        assert Above(h, a)[i] == Above(h, b)[i];
        assert Pair(a, i) in PairsOf(a) && Pair(b, i) in PairsOf(b);
        CollisionOrEqual(h, Pair(a, i), Pair(b, i), PairsOf(a), PairsOf(b));
        PairUnique(a, b, i);
        assert k == 2 * i || k == 2 * i + 1;
      }
    }
  }

  /** Two lists of the same length with one root are one list, or a collision is exhibited. */
  lemma {:induction false} RootBinds(h: HashFn, a: seq<Digest>, b: seq<Digest>)
    requires |a| == |b| && Root(h, a) == Root(h, b)
    ensures a == b || CollisionAcross(h, Preimages(h, a), Preimages(h, b))
    decreases |a|
  {
    if |a| > 1 {
      var up, vp := Above(h, a), Above(h, b);
      RootBinds(h, up, vp);
      if up == vp {
        LayerUnique(h, a, b);
        if a != b {
          CollisionWidens(h, PairsOf(a), PairsOf(b), Preimages(h, a), Preimages(h, b));
        }
      } else {
        CollisionWidens(h, Preimages(h, up), Preimages(h, vp), Preimages(h, a), Preimages(h, b));
      }
    }
  }

  lemma PairDoubled(leaves: seq<Digest>, i: nat)
    requires |leaves| % 2 == 1 && 2 * i < |leaves|
    ensures Pair(leaves + [leaves[|leaves| - 1]], i) == Pair(leaves, i)
  {
  }

  /** The length matters: an odd list and the one with its last leaf once more have the same root. */
  lemma DoubledLast(h: HashFn, leaves: seq<Digest>)
    requires |leaves| % 2 == 1 && |leaves| > 1
    ensures Root(h, leaves + [leaves[|leaves| - 1]]) == Root(h, leaves)
  {
    var more := leaves + [leaves[|leaves| - 1]];
    AboveDoubled(h, leaves, more);
  }

  lemma AboveDoubled(h: HashFn, leaves: seq<Digest>, more: seq<Digest>)
    requires |leaves| % 2 == 1 && more == leaves + [leaves[|leaves| - 1]]
    ensures Above(h, more) == Above(h, leaves)
  {
    var up, vp := Above(h, leaves), Above(h, more);
    assert |up| == |vp|;
    forall i | 0 <= i < |up| ensures vp[i] == up[i] {
      PairDoubled(leaves, i);
    }
  }

  datatype Step = Step(hash: Digest, right: bool)

  function Beside(acc: Digest, s: Step): (pre: Bytes) {
    if s.right then Join(acc, s.hash) else Join(s.hash, acc)
  }

  function Fold(h: HashFn, leaf: Digest, proof: seq<Step>): (root: Digest)
    decreases |proof|
  {
    if proof == [] then leaf
    else Fold(h, h(Beside(leaf, proof[0])), proof[1..])
  }

  /** The sibling of a node and its side. */
  function Sibling(layer: seq<Digest>, i: nat): (s: Step)
    requires i < |layer|
  {
    if i % 2 == 1 then Step(layer[i - 1], false)
    else Step(if i + 1 < |layer| then layer[i + 1] else layer[i], true)
  }

  function Path(h: HashFn, leaves: seq<Digest>, i: nat): (proof: seq<Step>)
    requires i < |leaves|
    decreases |leaves|
  {
    if |leaves| == 1 then [] else [Sibling(leaves, i)] + Path(h, Above(h, leaves), i / 2)
  }

  method VerifyMerkleProof(h: HashFn, leaf: Digest, root: Digest, proof: seq<Step>) returns (ok: bool)
    ensures ok <==> Fold(h, leaf, proof) == root
  {
    var acc: Digest := leaf;
    for i := 0 to |proof|
      invariant Fold(h, acc, proof[i..]) == Fold(h, leaf, proof)
    {
      assert proof[i..][0] == proof[i] && proof[i..][1..] == proof[i + 1..];
      acc := h(Beside(acc, proof[i]));
    }
    return acc == root;
  }

  lemma SiblingPairs(layer: seq<Digest>, i: nat)
    requires i < |layer|
    ensures 2 * (i / 2) < |layer| && Beside(layer[i], Sibling(layer, i)) == Pair(layer, i / 2)
  {
    assert i == 2 * (i / 2) + i % 2;
  }

  /** Every leaf's proof folds to the root. */
  lemma {:induction false} PathFolds(h: HashFn, leaves: seq<Digest>, i: nat)
    requires i < |leaves|
    ensures Fold(h, leaves[i], Path(h, leaves, i)) == Root(h, leaves)
    decreases |leaves|
  {
    if |leaves| > 1 {
      var up, step := Above(h, leaves), Sibling(leaves, i);
      PathFolds(h, up, i / 2);
      SiblingPairs(leaves, i);
      assert ([step] + Path(h, up, i / 2))[1..] == Path(h, up, i / 2);
    }
  }

  /** A proof for every position in range and no other, and it is accepted. */
  method MerkleProofOf(h: HashFn, leaves: seq<Digest>, index: int) returns (proof: Option<seq<Step>>)
    ensures proof.Some? <==> 0 <= index < |leaves|
    ensures proof.Some? ==> Fold(h, leaves[index], proof.value) == Root(h, leaves)
  {
    if index < 0 || index >= |leaves| {
      return None;
    }
    var layer, i, steps := leaves, index, [];
    while |layer| > 1
      invariant 0 <= i < |layer| && steps + Path(h, layer, i) == Path(h, leaves, index)
      decreases |layer|
    {
      Regroup(steps, [Sibling(layer, i)], Path(h, Above(h, layer), i / 2));
      steps := steps + [Sibling(layer, i)];
      layer := NextLayer(h, layer);
      i := i / 2;
    }
    PathFolds(h, leaves, index);
    assert steps + [] == steps;
    return Some(steps);
  }
}
