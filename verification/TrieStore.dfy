/** The trie over a node store: every operation is proved against the canonical tree of the
    map the current root stands for, whatever the store has meanwhile forgotten. */
module TrieStore {
  import opened Bytes
  import opened TrieSpec
  import opened TrieLaws
  import opened NodeStores
  import opened TrieProofs

  /** `nodes` holds every node of `t` under its address. */
  ghost predicate Holds(h: HashFn, nodes: map<Digest, Node>, t: Tree) {
    t.Empty? ||
    (&& Root(h, t) in nodes && nodes[Root(h, t)] == TopNode(h, t)
     && (t.Branch? ==> Holds(h, nodes, t.left) && Holds(h, nodes, t.right)))
  }

  lemma HoldsGrows(h: HashFn, a: map<Digest, Node>, b: map<Digest, Node>, t: Tree)
    requires Grows(a, b) && Holds(h, a, t)
    ensures Holds(h, b, t)
  {
  }

  /** The verifier accepts `p` against the root of `t`, and `p` states what `t` holds at `key`. */
  ghost predicate Proves(h: HashFn, p: TrieProof, key: Key, t: Tree) {
    && p.key == key && p.siblings.Count() <= KEY_BITS && Accepted(h, p, Root(h, t))
    && Lookup(t, key, 0) == if p.found then Some(p.value) else None
  }

  /** The proof for a walk that ended at an empty slot or at a leaf. */
  function EndProof(key: Key, sibs: Siblings, n: Option<Node>): (p: TrieProof)
    requires n.Some? ==> n.value.LeafNode?
  {
    var p := TrieProof(key, false, [], sibs, None);
    if n.None? then p
    else if n.value.key == key then p.(found := true, value := n.value.value)
    else p.(other := Some((n.value.key, n.value.value)))
  }

  lemma EndProofHolds(h: HashFn, key: Key, t: Tree, sibs: Siblings, s: Tree, n: Option<Node>)
    requires sibs.Count() <= KEY_BITS && !s.Branch? && Reaches(s, key, sibs.Count())
    requires n == if s.Empty? then None else Some(TopNode(h, s))
    requires Fold(h, key, sibs, Root(h, s)) == Root(h, t)
    requires Lookup(s, key, sibs.Count()) == Lookup(t, key, 0) != Some([])
    ensures Proves(h, EndProof(key, sibs, n), key, t)
  {
  }

  /** Recording the sibling and moving to the child leaves the fold's result as it was. */
  lemma FoldDescends(h: HashFn, key: Key, d: nat, sibs: Siblings, t: Tree)
    requires sibs.Count() == d < KEY_BITS && t.Branch?
    ensures var l, r := Root(h, t.left), Root(h, t.right);
            Fold(h, key, sibs, Root(h, t)) ==
            Fold(h, key, Below(if key[d] then l else r, sibs), if key[d] then r else l)
  {
    assert TopPreimage(h, t) == [1] + Root(h, t.left) + Root(h, t.right);
  }

  /** The tree an update produces: an empty value deletes. */
  ghost function UpdateTree(t: Tree, key: Key, value: Bytes): (r: Tree) {
    if value == [] then DeleteTree(t, key, 0) else InsertTree(t, key, value, 0)
  }

  class Trie {
    const h: HashFn
    const store: NodeStore
    var root: Digest

    constructor (h: HashFn, store: NodeStore, root: Digest)
      ensures this.h == h && this.store == store && this.root == root
    {
      this.h := h;
      this.store := store;
      this.root := root;
    }

    /** The store is honest, `u` covers all it holds and all of `t`, and no two preimages in
        `u` collide. */
    ghost predicate Ready(t: Tree, u: iset<Bytes>)
      reads store.Objects()
    {
      && store.Valid(h) && store.Within(u)
      && CollisionFree(h, u) && EMPTY_TAG in u && HashedIn(h, t, u)
    }

    /** The nodes a build may rely on reading back. */
    ghost predicate Complete(t: Tree)
      reads store.Objects()
    {
      !store.Cache? && Holds(h, store.Retained(), t)
    }

    method Load(d: Digest, ghost t: Tree, ghost u: iset<Bytes>) returns (r: Result<Option<Node>>)
      requires Ready(t, u) && d == Root(h, t)
      modifies store.Objects()
      ensures Ready(t, u) && store.Retained() == old(store.Retained())
      ensures r.Ok? ==> r.value == if t.Empty? then None else Some(TopNode(h, t))
      ensures old(Complete(t)) ==> r.Ok?
    {
      if d == h(EMPTY_TAG) {
        if !t.Empty? {
          PreimageUnique(TopNode(h, t), TopNode(h, t));
        }
        return Ok(None);
      }
      var data := store.GetNode(h, d, u);
      if data.None? {
        return Err;
      }
      assert Preimage(data.value) == TopPreimage(h, t);
      PreimageUnique(data.value, TopNode(h, t));
      r := Ok(data);
    }

    method Save(n: Node, ghost u: iset<Bytes>) returns (d: Digest)
      requires store.Valid(h) && store.Within(u) && CollisionFree(h, u) && Preimage(n) in u
      modifies store.Objects()
      ensures store.Valid(h) && store.Within(u) && Grows(old(store.Retained()), store.Retained())
      ensures d == h(Preimage(n))
      ensures !store.Cache? ==> d in store.Retained() && store.Retained()[d] == n
    {
      d := h(Preimage(n));
      store.PutNode(h, d, n, u);
      if !store.Cache? {
        PreimageUnique(n, store.Retained()[d]);
      }
    }

    method SaveLeaf(key: Key, value: Bytes, ghost u: iset<Bytes>) returns (d: Digest)
      requires Ready(Leaf(key, value), u)
      modifies store.Objects()
      ensures Ready(Leaf(key, value), u) && Grows(old(store.Retained()), store.Retained())
      ensures d == Root(h, Leaf(key, value))
      ensures !store.Cache? ==> Complete(Leaf(key, value))
    {
      assert TopNode(h, Leaf(key, value)) == LeafNode(key, value);
      d := Save(LeafNode(key, value), u);
    }

    method SaveInner(left: Digest, right: Digest, ghost l: Tree, ghost r: Tree, ghost u: iset<Bytes>)
      returns (d: Digest)
      requires left == Root(h, l) && right == Root(h, r) && Ready(Branch(l, r), u)
      modifies store.Objects()
      ensures Ready(Branch(l, r), u) && Grows(old(store.Retained()), store.Retained())
      ensures d == Root(h, Branch(l, r))
      ensures old(Complete(l) && Complete(r)) ==> Complete(Branch(l, r))
    {
      ghost var before := store.Retained();
      assert TopNode(h, Branch(l, r)) == InnerNode(left, right);
      d := Save(InnerNode(left, right), u);
      if old(Complete(l) && Complete(r)) {
        HoldsGrows(h, before, store.Retained(), l);
        HoldsGrows(h, before, store.Retained(), r);
      }
    }

    method Insert(d: Digest, key: Key, value: Bytes, depth: nat, ghost t: Tree, ghost u: iset<Bytes>)
      returns (r: Result<Digest>)
      requires d == Root(h, t) && Reaches(t, key, depth) && depth <= KEY_BITS
      requires Ready(t, u) && HashedIn(h, InsertTree(t, key, value, depth), u)
      modifies store.Objects()
      ensures store.Valid(h) && store.Within(u) && Grows(old(store.Retained()), store.Retained())
      ensures r.Ok? ==> r.value == Root(h, InsertTree(t, key, value, depth))
      ensures old(Complete(t)) ==> r.Ok? && Complete(InsertTree(t, key, value, depth))
      decreases t
    {
      var n := Load(d, t, u);
      if n.Err? {
        return Err;
      }
      if n.value.None? || (n.value.value.LeafNode? && n.value.value.key == key) {
        var s := SaveLeaf(key, value, u);
        return Ok(s);
      }
      if n.value.value.LeafNode? {
        var s := Split(n.value.value, key, value, depth, u);
        return Ok(s);
      }
      var left, right := n.value.value.left, n.value.value.right;
      var sub;
      if key[depth] {
        sub := Insert(right, key, value, depth + 1, t.right, u);
      } else {
        sub := Insert(left, key, value, depth + 1, t.left, u);
      }
      if sub.Err? {
        return Err;
      }
      if old(Complete(t)) {
        HoldsGrows(h, old(store.Retained()), store.Retained(), t);
      }
      var s;
      if key[depth] {
        s := SaveInner(left, sub.value, t.left, InsertTree(t.right, key, value, depth + 1), u);
      } else {
        s := SaveInner(sub.value, right, InsertTree(t.left, key, value, depth + 1), t.right, u);
      }
      r := Ok(s);
    }

    method Split(existing: Node, key: Key, value: Bytes, depth: nat, ghost u: iset<Bytes>) returns (d: Digest)
      requires existing.LeafNode? && existing.key != key
      requires depth <= KEY_BITS && existing.key[..depth] == key[..depth]
      requires Ready(SplitTree(existing.key, existing.value, key, value, depth), u)
      modifies store.Objects()
      ensures store.Valid(h) && store.Within(u) && Grows(old(store.Retained()), store.Retained())
      ensures var t := SplitTree(existing.key, existing.value, key, value, depth);
              d == Root(h, t) && (!store.Cache? ==> Complete(t))
      decreases KEY_BITS - depth
    {
      PathApart(depth, existing.key, key);
      var bOld, bNew := existing.key[depth], key[depth];
      if bOld == bNew {
        PathExtend(depth, existing.key, key);
        ghost var both := SplitTree(existing.key, existing.value, key, value, depth + 1);
        var child := Split(existing, key, value, depth + 1, u);
        if !bOld {
          d := SaveInner(child, h(EMPTY_TAG), both, Empty, u);
        } else {
          d := SaveInner(h(EMPTY_TAG), child, Empty, both, u);
        }
        return;
      }
      d := SavePair(existing.key, existing.value, key, value, bOld, u);
    }

    /** The two leaves at the point of divergence, and the node that separates them. */
    method SavePair(oldKey: Key, oldValue: Bytes, key: Key, value: Bytes, oldRight: bool, ghost u: iset<Bytes>)
      returns (d: Digest)
      requires Ready(Pair(oldKey, oldValue, key, value, oldRight), u)
      modifies store.Objects()
      ensures store.Valid(h) && store.Within(u) && Grows(old(store.Retained()), store.Retained())
      ensures d == Root(h, Pair(oldKey, oldValue, key, value, oldRight))
      ensures !store.Cache? ==> Complete(Pair(oldKey, oldValue, key, value, oldRight))
    {
      ghost var a, b := Leaf(oldKey, oldValue), Leaf(key, value);
      var oldHash := SaveLeaf(oldKey, oldValue, u);
      ghost var before := store.Retained();
      var newHash := SaveLeaf(key, value, u);
      if !store.Cache? {
        HoldsGrows(h, before, store.Retained(), a);
      }
      if !oldRight {
        d := SaveInner(oldHash, newHash, a, b, u);
      } else {
        d := SaveInner(newHash, oldHash, b, a, u);
      }
    }

    method Delete(d: Digest, key: Key, depth: nat, ghost t: Tree, ghost u: iset<Bytes>)
      returns (r: Result<Digest>)
      requires d == Root(h, t) && Reaches(t, key, depth) && depth <= KEY_BITS
      requires Ready(t, u) && HashedIn(h, DeleteTree(t, key, depth), u)
      modifies store.Objects()
      ensures store.Valid(h) && store.Within(u) && Grows(old(store.Retained()), store.Retained())
      ensures r.Ok? ==> r.value == Root(h, DeleteTree(t, key, depth))
      ensures old(Complete(t)) ==> r.Ok? && Complete(DeleteTree(t, key, depth))
      decreases t
    {
      var n := Load(d, t, u);
      if n.Err? {
        return Err;
      }
      if n.value.None? {
        return Ok(h(EMPTY_TAG));
      }
      if n.value.value.LeafNode? {
        return Ok(if n.value.value.key == key then h(EMPTY_TAG) else d);
      }
      var left, right := n.value.value.left, n.value.value.right;
      ghost var l, rt := t.left, t.right;
      if !key[depth] {
        l := DeleteTree(l, key, depth + 1);
      } else {
        rt := DeleteTree(rt, key, depth + 1);
      }
      JoinHashed(l, rt, u);
      var sub;
      if !key[depth] {
        sub := Delete(left, key, depth + 1, t.left, u);
      } else {
        sub := Delete(right, key, depth + 1, t.right, u);
      }
      if sub.Err? {
        return Err;
      }
      if old(Complete(t)) {
        HoldsGrows(h, old(store.Retained()), store.Retained(), t);
      }
      if !key[depth] {
        left := sub.value;
      } else {
        right := sub.value;
      }
      r := Collapse(left, right, l, rt, u);
    }

    /** Joining hashes nothing beyond the joined tree and the empty marker. */
    lemma JoinHashed(l: Tree, r: Tree, u: iset<Bytes>)
      requires HashedIn(h, Join(l, r), u) && EMPTY_TAG in u
      ensures HashedIn(h, l, u) && HashedIn(h, r, u)
    {
    }

    method Collapse(left: Digest, right: Digest, ghost l: Tree, ghost r: Tree, ghost u: iset<Bytes>)
      returns (s: Result<Digest>)
      requires left == Root(h, l) && right == Root(h, r)
      requires Ready(l, u) && Ready(r, u) && HashedIn(h, Join(l, r), u)
      modifies store.Objects()
      ensures store.Valid(h) && store.Within(u) && Grows(old(store.Retained()), store.Retained())
      ensures s.Ok? ==> s.value == Root(h, Join(l, r))
      ensures old(Complete(l) && Complete(r)) ==> s.Ok? && Complete(Join(l, r))
    {
      RootEmptyOnly(l, u);
      RootEmptyOnly(r, u);
      var empty := h(EMPTY_TAG);
      if left == empty && right == empty {
        return Ok(empty);
      }
      if left == empty || right == empty {
        var only := if right == empty then left else right;
        ghost var t := if right == empty then l else r;
        var n := Load(only, t, u);
        if n.Err? {
          return Err;
        }
        if n.value.Some? && n.value.value.LeafNode? {
          return Ok(only);
        }
      }
      assert Join(l, r) == Branch(l, r);
      var d := SaveInner(left, right, l, r, u);
      s := Ok(d);
    }

    lemma RootEmptyOnly(t: Tree, u: iset<Bytes>)
      requires CollisionFree(h, u) && EMPTY_TAG in u && HashedIn(h, t, u)
      ensures Root(h, t) == h(EMPTY_TAG) <==> t.Empty?
    {
      if !t.Empty? {
        PreimageUnique(TopNode(h, t), TopNode(h, t));
      }
    }

    /** Sets `key` to `value`, or deletes it when the value is empty. */
    method Update(key: Key, value: Bytes, ghost t: Tree, ghost u: iset<Bytes>) returns (r: Result<Digest>)
      requires root == Root(h, t) && Reaches(t, key, 0)
      requires Ready(t, u) && HashedIn(h, UpdateTree(t, key, value), u)
      modifies this`root, store.Objects()
      ensures store.Valid(h) && store.Within(u) && Grows(old(store.Retained()), store.Retained())
      ensures r.Ok? ==> root == r.value == Root(h, UpdateTree(t, key, value))
      ensures r.Err? ==> root == old(root)
      ensures old(Complete(t)) ==> r.Ok? && Complete(UpdateTree(t, key, value))
    {
      if value == [] {
        r := Delete(root, key, 0, t, u);
      } else {
        r := Insert(root, key, value, 0, t, u);
      }
      if r.Ok? {
        root := r.value;
      }
    }

    /** Looks a key up: exactly the tree's entry, or an error if the store has forgotten a node. */
    method Get(key: Key, ghost t: Tree, ghost u: iset<Bytes>) returns (r: Result<Option<Bytes>>)
      requires root == Root(h, t) && Reaches(t, key, 0) && Ready(t, u)
      modifies store.Objects()
      ensures Ready(t, u) && store.Retained() == old(store.Retained())
      ensures r.Ok? ==> r.value == Lookup(t, key, 0)
      ensures old(Complete(t)) ==> r.Ok?
    {
      var d := root;
      var depth := 0;
      ghost var s := t;
      while true
        invariant depth <= KEY_BITS && d == Root(h, s) && Reaches(s, key, depth)
        invariant Lookup(s, key, depth) == Lookup(t, key, 0)
        invariant Ready(t, u) && Ready(s, u) && store.Retained() == old(store.Retained())
        invariant old(Complete(t)) ==> Complete(s)
        decreases KEY_BITS - depth
      {
        var n := Load(d, s, u);
        if n.Err? {
          return Err;
        }
        if n.value.None? {
          return Ok(None);
        }
        if n.value.value.LeafNode? {
          return Ok(if n.value.value.key == key then Some(n.value.value.value) else None);
        }
        d := if key[depth] then n.value.value.right else n.value.value.left;
        s := if key[depth] then s.right else s.left;
        depth := depth + 1;
      }
    }

    /** Builds a proof for `key`; it always passes the verifier and claims what is true of the tree. */
    method Prove(key: Key, ghost t: Tree, ghost u: iset<Bytes>) returns (r: Result<TrieProof>)
      requires root == Root(h, t) && Reaches(t, key, 0) && Ready(t, u)
      requires Lookup(t, key, 0) != Some([])
      modifies store.Objects()
      ensures Ready(t, u) && store.Retained() == old(store.Retained())
      ensures r.Ok? ==> Proves(h, r.value, key, t)
      ensures old(Complete(t)) ==> r.Ok?
    {
      var d := root;
      var sibs := Top;
      var depth := 0;
      ghost var s := t;
      while true
        invariant sibs.Count() == depth <= KEY_BITS && d == Root(h, s) && Reaches(s, key, depth)
        invariant Fold(h, key, sibs, d) == root && Lookup(s, key, depth) == Lookup(t, key, 0)
        invariant Ready(t, u) && Ready(s, u) && store.Retained() == old(store.Retained())
        invariant old(Complete(t)) ==> Complete(s)
        decreases KEY_BITS - depth
      {
        var n := Load(d, s, u);
        if n.Err? {
          return Err;
        }
        if n.value.None? || n.value.value.LeafNode? {
          EndProofHolds(h, key, t, sibs, s, n.value);
          return Ok(EndProof(key, sibs, n.value));
        }
        var l, rt := n.value.value.left, n.value.value.right;
        FoldDescends(h, key, depth, sibs, s);
        sibs := Below(if key[depth] then l else rt, sibs);
        d := if key[depth] then rt else l;
        s := if key[depth] then s.right else s.left;
        depth := depth + 1;
      }
    }
  }

  /** The trie is canonical and refines a finite map: from the canonical tree of `m`, an update
      leads to the canonical tree of the updated map, which every later step is free to reach. */
  lemma UpdateRefinesMap(m: Entries, key: Key, value: Bytes)
    ensures UpdateTree(Canon(m, 0), key, value) == Canon(After(m, key, value), 0)
    ensures Reaches(Canon(m, 0), key, 0)
    ensures Lookup(Canon(m, 0), key, 0) == if key in m then Some(m[key]) else None
  {
    InsertCanon(m, key, value, 0);
    DeleteCanon(m, key, 0);
    LookupCanon(m, key, 0);
    ReachesCanon(m, key, 0);
  }

  /** The map after an update. */
  ghost function After(m: Entries, key: Key, value: Bytes): (r: Entries) {
    if value == [] then m - {key} else m[key := value]
  }

  ghost function AfterAll(m: Entries, updates: seq<(Key, Bytes)>): (r: Entries)
    decreases |updates|
  {
    if updates == [] then m
    else
      var n := |updates| - 1;
      After(AfterAll(m, updates[..n]), updates[n].0, updates[n].1)
  }

  ghost function UpdateAll(t: Tree, updates: seq<(Key, Bytes)>): (r: Tree)
    decreases |updates|
  {
    if updates == [] then t
    else
      var n := |updates| - 1;
      UpdateTree(UpdateAll(t, updates[..n]), updates[n].0, updates[n].1)
  }

  lemma {:induction false} RunRefinesMap(m: Entries, updates: seq<(Key, Bytes)>)
    ensures UpdateAll(Canon(m, 0), updates) == Canon(AfterAll(m, updates), 0)
    decreases |updates|
  {
    if updates != [] {
      var n := |updates| - 1;
      RunRefinesMap(m, updates[..n]);
      UpdateRefinesMap(AfterAll(m, updates[..n]), updates[n].0, updates[n].1);
    }
  }

  /** Any two runs of updates and deletes that end in the same map give the same root. */
  lemma RootIsCanonical(h: HashFn, m: Entries, a: seq<(Key, Bytes)>, n: Entries, b: seq<(Key, Bytes)>)
    requires AfterAll(m, a) == AfterAll(n, b)
    ensures Root(h, UpdateAll(Canon(m, 0), a)) == Root(h, UpdateAll(Canon(n, 0), b))
  {
    RunRefinesMap(m, a);
    RunRefinesMap(n, b);
  }

  /** The trees a run of updates passes through, each reachable and hashed within `u`. */
  ghost predicate Chain(h: HashFn, trees: seq<Tree>, updates: seq<(Key, Bytes)>, u: iset<Bytes>) {
    && |trees| == |updates| + 1
    && (forall i :: 0 <= i < |updates| ==>
          && Reaches(trees[i], updates[i].0, 0)
          && trees[i + 1] == UpdateTree(trees[i], updates[i].0, updates[i].1))
    && forall i :: 0 <= i < |trees| ==> HashedIn(h, trees[i], u)
  }

  /** Applies updates until one fails for want of a node; a complete store never fails. */
  method ApplyUpdates(t: Trie, updates: seq<(Key, Bytes)>, ghost trees: seq<Tree>, ghost u: iset<Bytes>)
    returns (ok: bool)
    requires Chain(t.h, trees, updates, u) && t.root == Root(t.h, trees[0]) && t.Ready(trees[0], u)
    modifies t`root, t.store.Objects()
    ensures t.store.Valid(t.h) && t.store.Within(u)
    ensures ok ==> t.root == Root(t.h, trees[|updates|])
    ensures old(t.Complete(trees[0])) ==> ok
  {
    for i := 0 to |updates|
      invariant t.root == Root(t.h, trees[i]) && t.Ready(trees[i], u)
      invariant old(t.Complete(trees[0])) ==> t.Complete(trees[i])
    {
      assert HashedIn(t.h, trees[i + 1], u);
      var r := t.Update(updates[i].0, updates[i].1, trees[i], u);
      if r.Err? {
        return false;
      }
    }
    return true;
  }
}
