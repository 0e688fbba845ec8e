/** How the canonical tree responds to updates: the case analysis that insertion, splitting,
    deletion and collapsing follow node by node. */
module TrieLaws {
  import opened Bytes
  import opened TrieSpec

  lemma SingleHas(m: Entries, k: Key)
    requires m.Keys == {k}
    ensures Single(m) && OnlyKey(m) == k
  {
    assert k in m;
    assert OnlyKey(m) in m.Keys;
  }

  lemma SideOfSingle(m: Entries, d: nat, k: Key, b: bool)
    requires d < KEY_BITS && m.Keys == {k}
    ensures Side(m, d, b) == if k[d] == b then m else map[]
  {
  }

  /** Two different members rule out both compressed forms. */
  lemma TwoMembers(m: Entries, a: Key, b: Key)
    requires a in m && b in m && a != b
    ensures m != map[] && !Single(m)
  {
  }

  lemma DistinctMembers(m: Entries) returns (a: Key, b: Key)
    requires m != map[] && !Single(m)
    ensures a in m && b in m && a != b
  {
    a :| a in m;
    assert m.Keys == {a} + (m.Keys - {a});
    b :| b in m.Keys - {a};
  }

  /** What an inner node becomes once its children are known: nothing, the one leaf it would
      hold, or an inner node. */
  ghost function Join(l: Tree, r: Tree): (t: Tree) {
    if l.Empty? && r.Empty? then Empty
    else if r.Empty? && l.Leaf? then l
    else if l.Empty? && r.Leaf? then r
    else Branch(l, r)
  }

  lemma CanonKinds(m: Entries, d: nat)
    requires d <= KEY_BITS && Agree(m.Keys, d)
    ensures Canon(m, d).Empty? <==> m == map[]
    ensures Canon(m, d).Leaf? <==> Single(m)
    ensures Canon(m, d).Leaf? ==> m == map[Canon(m, d).key := Canon(m, d).value]
  {
    if Single(m) {
      assert OnlyKey(m) in m;
      assert m == map[OnlyKey(m) := m[OnlyKey(m)]];
    } else if m != map[] {
      TwoKeysDiverge(m, d);
    }
  }

  /** The path-compression invariant: at every depth the canonical tree is the join of the
      canonical trees of its two sides. */
  lemma CanonJoin(m: Entries, d: nat)
    requires d < KEY_BITS && Agree(m.Keys, d)
    ensures Canon(m, d) == Join(Canon(Side(m, d, false), d + 1), Canon(Side(m, d, true), d + 1))
  {
    var l, r := Side(m, d, false), Side(m, d, true);
    CanonKinds(m, d);
    CanonKinds(l, d + 1);
    CanonKinds(r, d + 1);
    if m == map[] {
      assert l == map[] && r == map[];
    } else if Single(m) {
      SideOfSingle(m, d, OnlyKey(m), false);
      SideOfSingle(m, d, OnlyKey(m), true);
    } else {
      assert l == map[] ==> r == m;
      assert r == map[] ==> l == m;
    }
  }

  /** Storing a key changes only the side its bit selects. */
  lemma SideInsert(m: Entries, d: nat, k: Key, v: Bytes)
    requires d < KEY_BITS
    ensures Side(m[k := v], d, k[d]) == Side(m, d, k[d])[k := v]
    ensures Side(m[k := v], d, !k[d]) == Side(m, d, !k[d])
  {
  }

  lemma SideRemove(m: Entries, d: nat, k: Key)
    requires d < KEY_BITS
    ensures Side(m - {k}, d, k[d]) == Side(m, d, k[d]) - {k}
    ensures Side(m - {k}, d, !k[d]) == Side(m, d, !k[d])
  {
  }

  lemma AgreeAfterInsert(m: Entries, d: nat, k: Key, v: Bytes)
    requires d < KEY_BITS && Agree(m.Keys + {k}, d)
    ensures Agree(Side(m, d, k[d]).Keys + {k}, d + 1)
  {
    var s := Side(m[k := v], d, k[d]);
    assert m[k := v].Keys == m.Keys + {k};
    SideInsert(m, d, k, v);
    assert s.Keys == Side(m, d, k[d]).Keys + {k};
  }

  /** Inserting into an inner node rewrites one child and keeps the other. */
  lemma InsertInner(m: Entries, d: nat, k: Key, v: Bytes)
    requires d <= KEY_BITS && Agree(m.Keys + {k}, d)
    requires Canon(m, d).Branch?
    ensures d < KEY_BITS && Agree(m[k := v].Keys, d) && Agree(Side(m, d, k[d]).Keys + {k}, d + 1)
    ensures Agree(Side(m, d, k[d])[k := v].Keys, d + 1)
    ensures var child := Canon(Side(m, d, k[d])[k := v], d + 1);
            Canon(m[k := v], d) ==
              if k[d] then Branch(Canon(m, d).left, child) else Branch(child, Canon(m, d).right)
  {
    var m' := m[k := v];
    assert m'.Keys == m.Keys + {k};
    CanonKinds(m, d);
    TwoKeysDiverge(m, d);
    AgreeAfterInsert(m, d, k, v);
    SideInsert(m, d, k, v);
    assert Side(m, d, k[d])[k := v].Keys == Side(m, d, k[d]).Keys + {k};
    var a, b := DistinctMembers(m);
    TwoMembers(m', a, b);
  }

  /** Deleting below an inner node re-joins the two sides. */
  lemma DeleteInner(m: Entries, d: nat, k: Key)
    requires d <= KEY_BITS && Agree(m.Keys, d)
    requires Canon(m, d).Branch?
    ensures d < KEY_BITS && Agree((m - {k}).Keys, d) && Agree((Side(m, d, k[d]) - {k}).Keys, d + 1)
    ensures var child := Canon(Side(m, d, k[d]) - {k}, d + 1);
            Canon(m - {k}, d) ==
              if k[d] then Join(Canon(m, d).left, child) else Join(child, Canon(m, d).right)
  {
    CanonKinds(m, d);
    TwoKeysDiverge(m, d);
    assert (m - {k}).Keys <= m.Keys;
    CanonJoin(m - {k}, d);
    SideRemove(m, d, k);
  }

  /** Two keys still on a shared bit: one child carries both, the other is empty. */
  lemma SplitShared(d: nat, a: Key, x: Bytes, b: Key, y: Bytes)
    requires d < KEY_BITS && a != b && a[..d] == b[..d] && a[d] == b[d]
    ensures Agree(map[a := x, b := y].Keys, d) && Agree(map[a := x, b := y].Keys, d + 1)
    ensures var child := Canon(map[a := x, b := y], d + 1);
            Canon(map[a := x, b := y], d) == if a[d] then Branch(Empty, child) else Branch(child, Empty)
  {
    var m: Entries := map[a := x, b := y];
    assert a[..d + 1] == a[..d] + [a[d]] && b[..d + 1] == b[..d] + [b[d]];
    TwoMembers(m, a, b);
    assert Side(m, d, a[d]) == m;
    assert Side(m, d, !a[d]) == map[];
  }

  /** Two keys that part at this bit: one leaf on each side. */
  lemma SplitApart(d: nat, a: Key, x: Bytes, b: Key, y: Bytes)
    requires d < KEY_BITS && a[..d] == b[..d] && a[d] != b[d]
    ensures Agree(map[a := x, b := y].Keys, d)
    ensures Canon(map[a := x, b := y], d) ==
              if a[d] then Branch(Leaf(b, y), Leaf(a, x)) else Branch(Leaf(a, x), Leaf(b, y))
  {
    var m: Entries := map[a := x, b := y];
    TwoMembers(m, a, b);
    var ma: Entries := map[a := x];
    var mb: Entries := map[b := y];
    assert Side(m, d, a[d]) == ma && Side(m, d, b[d]) == mb;
    SingleHas(ma, a);
    SingleHas(mb, b);
  }

  lemma PathApart(d: nat, a: Key, b: Key)
    requires d <= KEY_BITS && a != b && a[..d] == b[..d]
    ensures d < KEY_BITS
  {
    assert a[..|a|] == a && b[..|b|] == b;
  }

  lemma PathExtend(d: nat, a: Key, b: Key)
    requires d < KEY_BITS && a[..d] == b[..d] && a[d] == b[d]
    ensures a[..d + 1] == b[..d + 1]
  {
    assert a[..d + 1] == a[..d] + [a[d]] && b[..d + 1] == b[..d] + [b[d]];
  }

  ghost function Pair(a: Key, x: Bytes, b: Key, y: Bytes, aRight: bool): (t: Tree) {
    if aRight then Branch(Leaf(b, y), Leaf(a, x)) else Branch(Leaf(a, x), Leaf(b, y))
  }

  /** The inner nodes that separate two keys from depth `d` on. */
  ghost function SplitTree(a: Key, x: Bytes, b: Key, y: Bytes, d: nat): (t: Tree)
    decreases KEY_BITS - d
  {
    if d >= KEY_BITS then Empty
    else if a[d] != b[d] then Pair(a, x, b, y, a[d])
    else if a[d] then Branch(Empty, SplitTree(a, x, b, y, d + 1))
    else Branch(SplitTree(a, x, b, y, d + 1), Empty)
  }

  ghost function InsertTree(t: Tree, k: Key, v: Bytes, d: nat): (r: Tree) {
    match t
    case Empty => Leaf(k, v)
    case Leaf(j, w) => if j == k then Leaf(k, v) else SplitTree(j, w, k, v, d)
    case Branch(l, r) =>
      if d >= KEY_BITS then t
      else if k[d] then Branch(l, InsertTree(r, k, v, d + 1))
      else Branch(InsertTree(l, k, v, d + 1), r)
  }

  ghost function DeleteTree(t: Tree, k: Key, d: nat): (r: Tree) {
    match t
    case Empty => Empty
    case Leaf(j, _) => if j == k then Empty else t
    case Branch(l, r) =>
      if d >= KEY_BITS then t
      else if k[d] then Join(l, DeleteTree(r, k, d + 1))
      else Join(DeleteTree(l, k, d + 1), r)
  }

  ghost function Lookup(t: Tree, k: Key, d: nat): (r: Option<Bytes>) {
    match t
    case Empty => None
    case Leaf(j, w) => if j == k then Some(w) else None
    case Branch(l, r) => if d >= KEY_BITS then None else Lookup(if k[d] then r else l, k, d + 1)
  }

  /** Following `k` from depth `d` stays within the key and ends at an empty slot or at a leaf
      that shares the path walked. */
  ghost predicate Reaches(t: Tree, k: Key, d: nat) {
    match t
    case Empty => true
    case Leaf(j, _) => d <= KEY_BITS && j[..d] == k[..d]
    case Branch(l, r) => d < KEY_BITS && Reaches(if k[d] then r else l, k, d + 1)
  }

  lemma {:induction false} SplitCanon(a: Key, x: Bytes, b: Key, y: Bytes, d: nat)
    requires d <= KEY_BITS && a != b && a[..d] == b[..d]
    ensures SplitTree(a, x, b, y, d) == Canon(map[a := x, b := y], d)
    decreases KEY_BITS - d
  {
    PathApart(d, a, b);
    if a[d] == b[d] {
      PathExtend(d, a, b);
      SplitCanon(a, x, b, y, d + 1);
      SplitShared(d, a, x, b, y);
    } else {
      SplitApart(d, a, x, b, y);
    }
  }

  /** Inserting into the canonical tree gives the canonical tree of the updated map. */
  lemma {:induction false} InsertCanon(m: Entries, k: Key, v: Bytes, d: nat)
    requires d <= KEY_BITS && Agree(m.Keys + {k}, d)
    ensures InsertTree(Canon(m, d), k, v, d) == Canon(m[k := v], d)
    decreases KEY_BITS - d
  {
    CanonKinds(m, d);
    if m == map[] {
      SingleHas(m[k := v], k);
    } else if Single(m) {
      var j: Key := OnlyKey(m);
      var w: Bytes := m[j];
      if j == k {
        assert m[k := v] == map[k := v];
        SingleHas(m[k := v], k);
      } else {
        assert j in m.Keys + {k} && k in m.Keys + {k};
        assert m[k := v] == map[j := w, k := v];
        SplitCanon(j, w, k, v, d);
      }
    } else {
      InsertInner(m, d, k, v);
      InsertCanon(Side(m, d, k[d]), k, v, d + 1);
    }
  }

  /** Deleting from the canonical tree gives the canonical tree of the reduced map. */
  lemma {:induction false} DeleteCanon(m: Entries, k: Key, d: nat)
    requires d <= KEY_BITS && Agree(m.Keys, d)
    ensures DeleteTree(Canon(m, d), k, d) == Canon(m - {k}, d)
    decreases KEY_BITS - d
  {
    CanonKinds(m, d);
    if m == map[] || (Single(m) && OnlyKey(m) != k) {
      assert m - {k} == m;
    } else if Single(m) {
      assert m - {k} == map[];
    } else {
      DeleteInner(m, d, k);
      DeleteCanon(Side(m, d, k[d]), k, d + 1);
    }
  }

  /** The canonical tree holds exactly the map's entries. */
  lemma {:induction false} LookupCanon(m: Entries, k: Key, d: nat)
    requires d <= KEY_BITS && Agree(m.Keys, d)
    ensures Lookup(Canon(m, d), k, d) == if k in m then Some(m[k]) else None
    decreases KEY_BITS - d
  {
    CanonKinds(m, d);
    if m != map[] && !Single(m) {
      LookupCanon(Side(m, d, k[d]), k, d + 1);
    }
  }

  lemma {:induction false} ReachesCanon(m: Entries, k: Key, d: nat)
    requires d <= KEY_BITS && Agree(m.Keys + {k}, d)
    ensures Reaches(Canon(m, d), k, d)
    decreases KEY_BITS - d
  {
    assert Agree(m.Keys, d);
    CanonKinds(m, d);
    if m != map[] && !Single(m) {
      InsertInner(m, d, k, []);
      ReachesCanon(Side(m, d, k[d]), k, d + 1);
    } else if Single(m) {
      assert OnlyKey(m) in m.Keys + {k} && k in m.Keys + {k};
    }
  }
}
