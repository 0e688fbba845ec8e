/** Membership and absence proofs against a trie root, and what an accepted one establishes. */
module TrieProofs {
  import opened Bytes
  import opened TrieSpec
  import opened TrieLaws

  /** Sibling hashes from the deepest level up to the root, each any bytes the prover chose. */
  datatype Siblings = Top | Below(sibling: Bytes, above: Siblings)
  {
    function Count(): (n: nat) {
      if Top? then 0 else 1 + above.Count()
    }
  }

  /** A proof after its hex fields are decoded. */
  datatype TrieProof = TrieProof(
    key: Key,
    found: bool,
    value: Bytes,
    siblings: Siblings,
    other: Option<(Key, Bytes)>)

  /** The inner-node preimage one step of the fold hashes. */
  function StepPreimage(key: Key, d: nat, sib: Bytes, cur: Digest): (b: Bytes)
    requires d < KEY_BITS
  {
    if key[d] then [1] + sib + cur else [1] + cur + sib
  }

  /** The root digest the siblings lead to from `cur`. */
  function Fold(h: HashFn, key: Key, sibs: Siblings, cur: Digest): (r: Digest)
    requires sibs.Count() <= KEY_BITS
  {
    if sibs.Top? then cur
    else Fold(h, key, sibs.above, h(StepPreimage(key, sibs.above.Count(), sibs.sibling, cur)))
  }

  /** The preimage of the node a proof claims sits at the end of the walk. */
  function EndPreimage(p: TrieProof): (b: Bytes) {
    if p.found then Preimage(LeafNode(p.key, p.value))
    else if p.other.Some? then Preimage(LeafNode(p.other.value.0, p.other.value.1))
    else EMPTY_TAG
  }

  /** What the verifier insists on before it folds anything. */
  predicate Shaped(p: TrieProof)
    requires p.siblings.Count() <= KEY_BITS
  {
    if p.found then p.value != []
    else p.other.Some? ==>
           && p.other.value.0 != p.key
           && p.key[..p.siblings.Count()] == p.other.value.0[..p.siblings.Count()]
  }

  /** The verifier's answer: the proof is shaped and folds to the root. */
  predicate Accepted(h: HashFn, p: TrieProof, root: Digest)
    requires p.siblings.Count() <= KEY_BITS
  {
    Shaped(p) && Fold(h, p.key, p.siblings, h(EndPreimage(p))) == root
  }

  /** The light-client check.  More than 256 siblings would index past the key. */
  method VerifyTrieProof(h: HashFn, p: TrieProof, root: Digest) returns (valid: bool, present: bool)
    requires p.siblings.Count() <= KEY_BITS
    ensures valid <==> Accepted(h, p, root)
    ensures present <==> valid && p.found
  {
    if p.found {
      if p.value == [] {
        return false, false;
      }
    } else if p.other.Some? {
      if p.other.value.0 == p.key {
        return false, false;
      }
      var shares := SharesPrefix(p.key, p.other.value.0, p.siblings.Count());
      if !shares {
        return false, false;
      }
    }
    var cur := h(EndPreimage(p));
    var rest := p.siblings;
    while rest.Below?
      invariant rest.Count() <= KEY_BITS
      invariant Fold(h, p.key, rest, cur) == Fold(h, p.key, p.siblings, h(EndPreimage(p)))
      decreases rest
    {
      cur := h(StepPreimage(p.key, rest.above.Count(), rest.sibling, cur));
      rest := rest.above;
    }
    valid := cur == root;
    present := valid && p.found;
  }

  method SharesPrefix(a: Key, b: Key, n: nat) returns (r: bool)
    requires n <= KEY_BITS
    ensures r <==> a[..n] == b[..n]
  {
    for i := 0 to n
      invariant a[..i] == b[..i]
    {
      if a[i] != b[i] {
        assert a[..n][i] != b[..n][i];
        return false;
      }
    }
    return true;
  }

  /** Every preimage hashed to commit `t`. */
  ghost function TreeHashes(h: HashFn, t: Tree): (s: iset<Bytes>) {
    iset{TopPreimage(h, t)} +
    if t.Branch? then TreeHashes(h, t.left) + TreeHashes(h, t.right) else iset{}
  }

  /** Every preimage the verifier hashes while folding from the node with preimage `pre`. */
  ghost function FoldHashes(h: HashFn, key: Key, sibs: Siblings, pre: Bytes): (s: iset<Bytes>)
    requires sibs.Count() <= KEY_BITS
    decreases sibs
  {
    iset{pre} +
    if sibs.Top? then iset{}
    else FoldHashes(h, key, sibs.above, StepPreimage(key, sibs.above.Count(), sibs.sibling, h(pre)))
  }

  /** The subtree `key` leads to through `d` inner nodes, if it leads that far. */
  ghost function Walk(t: Tree, key: Key, d: nat): (r: Option<Tree>)
    requires d <= KEY_BITS
  {
    if d == 0 then Some(t)
    else
      var up := Walk(t, key, d - 1);
      if up.Some? && up.value.Branch? then Some(if key[d - 1] then up.value.right else up.value.left)
      else None
  }

  lemma {:induction false} WalkKeeps(h: HashFn, t: Tree, key: Key, d: nat)
    requires d <= KEY_BITS && Walk(t, key, d).Some?
    ensures Lookup(Walk(t, key, d).value, key, d) == Lookup(t, key, 0)
    ensures TreeHashes(h, Walk(t, key, d).value) <= TreeHashes(h, t)
  {
    if d > 0 {
      WalkKeeps(h, t, key, d - 1);
    }
  }

  lemma FirstByte(h: HashFn, t: Tree)
    ensures TopPreimage(h, t) != []
    ensures TopPreimage(h, t)[0] == if t.Empty? then 100 else if t.Leaf? then 0 else 1
  {
  }

  /** A fold step whose preimage is a node's preimage opens that node: the digest below is the
      child on the key's side, even though the sibling may be any bytes. */
  lemma StepOpens(h: HashFn, t: Tree, key: Key, d: nat, sib: Bytes, below: Digest)
    requires d < KEY_BITS && TopPreimage(h, t) == StepPreimage(key, d, sib, below)
    ensures t.Branch? && Root(h, if key[d] then t.right else t.left) == below
  {
    FirstByte(h, t);
    assert StepPreimage(key, d, sib, below)[0] == 1;
    var l, r := Root(h, t.left), Root(h, t.right);
    assert TopPreimage(h, t) == [1] + l + r;
    if key[d] {
      SplitUnique([1] + l, r, [1] + sib, below);
    } else {
      SplitUnique([1] + l, r, [1] + below, sib);
      SplitUnique([1], l, [1], below);
    }
  }

  /** A fold that reaches the committed root started at the committed tree's own node at that
      position, or two distinct preimages share a digest: one hashed to commit the tree, one
      hashed by the verifier. */
  lemma {:induction false} FoldTracksTree(h: HashFn, t: Tree, key: Key, sibs: Siblings, pre: Bytes)
    requires sibs.Count() <= KEY_BITS
    requires Fold(h, key, sibs, h(pre)) == Root(h, t)
    ensures var s := Walk(t, key, sibs.Count());
            || (s.Some? && TopPreimage(h, s.value) == pre)
            || CollisionAcross(h, TreeHashes(h, t), FoldHashes(h, key, sibs, pre))
    decreases sibs
  {
    var xs, ys := TreeHashes(h, t), FoldHashes(h, key, sibs, pre);
    if sibs.Top? {
      CollisionOrEqual(h, TopPreimage(h, t), pre, xs, ys);
    } else {
      var e := sibs.above.Count();
      var step := StepPreimage(key, e, sibs.sibling, h(pre));
      FoldTracksTree(h, t, key, sibs.above, step);
      var up := Walk(t, key, e);
      if up.Some? && TopPreimage(h, up.value) == step {
        StepOpens(h, up.value, key, e, sibs.sibling, h(pre));
        var s := Walk(t, key, e + 1).value;
        WalkKeeps(h, t, key, e + 1);
        CollisionOrEqual(h, TopPreimage(h, s), pre, xs, ys);
      } else {
        CollisionWidens(h, xs, FoldHashes(h, key, sibs.above, step), xs, ys);
      }
    }
  }

  /** An accepted proof tells the truth about the committed tree, whether it claims membership
      or absence, or else exhibits a collision. */
  lemma ProofReflectsTree(h: HashFn, t: Tree, p: TrieProof)
    requires p.siblings.Count() <= KEY_BITS && Accepted(h, p, Root(h, t))
    ensures
      || Lookup(t, p.key, 0) == (if p.found then Some(p.value) else None)
      || CollisionAcross(h, TreeHashes(h, t), FoldHashes(h, p.key, p.siblings, EndPreimage(p)))
  {
    var d := p.siblings.Count();
    FoldTracksTree(h, t, p.key, p.siblings, EndPreimage(p));
    var w := Walk(t, p.key, d);
    if w.Some? && TopPreimage(h, w.value) == EndPreimage(p) {
      var s := w.value;
      WalkKeeps(h, t, p.key, d);
      if p.found || p.other.Some? {
        var leaf := if p.found then LeafNode(p.key, p.value)
                    else LeafNode(p.other.value.0, p.other.value.1);
        PreimageUnique(leaf, leaf);
        PreimageUnique(TopNode(h, s), leaf);
      } else if !s.Empty? {
        PreimageUnique(TopNode(h, s), TopNode(h, s));
      }
    }
  }

  /** Soundness: against the root of a map, an accepted proof shows `m[key] == value`, or that
      the key is absent, or it exhibits a collision. */
  lemma ProofSound(h: HashFn, m: Entries, p: TrieProof)
    requires p.siblings.Count() <= KEY_BITS && Accepted(h, p, Root(h, Canon(m, 0)))
    ensures
      || (if p.found then p.key in m && m[p.key] == p.value else p.key !in m)
      || CollisionAcross(h, TreeHashes(h, Canon(m, 0)), FoldHashes(h, p.key, p.siblings, EndPreimage(p)))
  {
    ProofReflectsTree(h, Canon(m, 0), p);
    LookupCanon(m, p.key, 0);
  }
}
