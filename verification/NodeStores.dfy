/** Content-addressed node stores: an unbounded one, an LRU-bounded cache, and the pair that
    lets a rebuild warm a cache that may be evicting underneath it. */
module NodeStores {
  import opened Bytes
  import opened Seqs
  import opened TrieSpec

  /** Every entry sits under its own content address. */
  ghost predicate Honest(h: HashFn, nodes: map<Digest, Node>) {
    forall d :: d in nodes ==> h(Preimage(nodes[d])) == d
  }

  ghost predicate PreimagesIn(nodes: map<Digest, Node>, u: iset<Bytes>) {
    forall d :: d in nodes ==> Preimage(nodes[d]) in u
  }

  /** Nothing already present is lost or changed. */
  ghost predicate Grows(a: map<Digest, Node>, b: map<Digest, Node>) {
    forall d :: d in a ==> d in b && b[d] == a[d]
  }

  class MemStore {
    const h: HashFn
    var nodes: map<Digest, Node>

    ghost predicate Valid()
      reads this
    {
      Honest(h, nodes)
    }

    constructor (h: HashFn)
      ensures Valid() && this.h == h && nodes == map[]
    {
      this.h := h;
      nodes := map[];
    }

    method GetNode(d: Digest) returns (r: Option<Node>)
      ensures r == if d in nodes then Some(nodes[d]) else None
    {
      if d in nodes {
        r := Some(nodes[d]);
      } else {
        r := None;
      }
    }

    method PutNode(d: Digest, n: Node)
      requires Valid() && h(Preimage(n)) == d
      modifies this
      ensures Valid()
      ensures nodes == if d in old(nodes) then old(nodes) else old(nodes)[d := n]
    {
      if d !in nodes {
        nodes := nodes[d := n];
      }
    }
  }

  /** `s` with every occurrence of `d` removed. */
  function Without<T(==,!new)>(s: seq<T>, d: T): (r: seq<T>)
    ensures |r| <= |s| && d !in r
    ensures forall x :: x in r <==> x in s && x != d
  {
    if s == [] then []
    else if s[0] == d then Without(s[1..], d)
    else [s[0]] + Without(s[1..], d)
  }

  lemma {:induction false} WithoutKeepsDistinct<T(!new)>(s: seq<T>, d: T)
    requires NoRepeats(s)
    ensures NoRepeats(Without(s, d))
    ensures |Without(s, d)| == if d in s then |s| - 1 else |s|
  {
    if s != [] {
      WithoutKeepsDistinct(s[1..], d);
      assert d in s <==> s[0] == d || d in s[1..];
      assert s[0] !in s[1..];
    }
  }

  lemma DropLast<T(!new)>(s: seq<T>)
    requires s != [] && NoRepeats(s)
    ensures NoRepeats(s[..|s| - 1])
    ensures forall x :: x in s[..|s| - 1] <==> x in s && x != s[|s| - 1]
  {
    assert s == s[..|s| - 1] + [s[|s| - 1]];
  }

  /** Most recently used first, with `d` just used. */
  function Touched<T(==,!new)>(order: seq<T>, d: T): (r: seq<T>) {
    [d] + Without(order, d)
  }

  lemma TouchedDistinct<T(!new)>(order: seq<T>, d: T)
    requires NoRepeats(order)
    ensures NoRepeats(Touched(order, d))
    ensures forall x :: x in Touched(order, d) <==> x == d || x in order
    ensures |Touched(order, d)| == if d in order then |order| else |order| + 1
  {
    WithoutKeepsDistinct(order, d);
  }

  class BoundedStore {
    const h: HashFn
    /** How many nodes to retain; zero or less means all of them. */
    const max: int
    var nodes: map<Digest, Node>
    var order: seq<Digest>

    ghost predicate Valid()
      reads this
    {
      && Honest(h, nodes)
      && NoRepeats(order)
      && (forall d :: d in order <==> d in nodes)
      && (max > 0 ==> |order| <= max)
    }

    constructor (h: HashFn, max: int)
      ensures Valid() && this.h == h && this.max == max && nodes == map[] && order == []
    {
      this.h := h;
      this.max := max;
      nodes := map[];
      order := [];
    }

    method GetNode(d: Digest) returns (r: Option<Node>)
      requires Valid()
      modifies this
      ensures Valid() && nodes == old(nodes)
      ensures r == if d in nodes then Some(nodes[d]) else None
      ensures order == if d in nodes then Touched(old(order), d) else old(order)
    {
      if d !in nodes {
        return None;
      }
      TouchedDistinct(order, d);
      order := Touched(order, d);
      r := Some(nodes[d]);
    }

    /** The `max` most recently used nodes survive a write, the one just written among them. */
    method PutNode(d: Digest, n: Node)
      requires Valid() && h(Preimage(n)) == d
      modifies this
      ensures Valid()
      ensures order == if max > 0 && |Touched(old(order), d)| > max
                       then Touched(old(order), d)[..max] else Touched(old(order), d)
      ensures forall k :: k in nodes ==> nodes[k] == if k in old(nodes) then old(nodes)[k] else n
      ensures d in nodes
    {
      TouchedDistinct(order, d);
      if d in nodes {
        order := Touched(order, d);
        return;
      }
      order := Touched(order, d);
      nodes := nodes[d := n];
      if max > 0 {
        EvictOldest();
      }
      assert order[0] == d;
    }

    /** Drops from the least recently used end until the cap is met. */
    method EvictOldest()
      requires max > 0 && Honest(h, nodes) && NoRepeats(order) && forall k :: k in order <==> k in nodes
      modifies this
      ensures Valid() && order == if |old(order)| > max then old(order)[..max] else old(order)
      ensures forall k :: k in nodes ==> k in old(nodes) && nodes[k] == old(nodes)[k]
    {
      ghost var n := |order|;
      WholeSlice(order);
      while |order| > max
        invariant |order| == n <= |old(order)| && order == old(order)[..n] && (max <= n || n == |old(order)|)
        invariant Kept(h, old(nodes), nodes, order)
      {
        SliceOfSlice(old(order), n - 1, n);
        EvictBack(old(nodes));
        n := n - 1;
      }
    }

    method EvictBack(ghost was: map<Digest, Node>)
      requires Kept(h, was, nodes, order) && order != []
      modifies this
      ensures Kept(h, was, nodes, order) && order == old(order)[..|old(order)| - 1]
    {
      var back := order[|order| - 1];
      KeptDrops(h, was, nodes, order);
      order := order[..|order| - 1];
      nodes := nodes - {back};
    }
  }

  /** What eviction leaves: honest nodes, each as it was, listed once. */
  ghost predicate Kept(h: HashFn, was: map<Digest, Node>, now: map<Digest, Node>, order: seq<Digest>) {
    && Honest(h, now) && NoRepeats(order) && (forall k :: k in order <==> k in now)
    && forall k :: k in now ==> k in was && now[k] == was[k]
  }

  lemma KeptDrops(h: HashFn, was: map<Digest, Node>, now: map<Digest, Node>, order: seq<Digest>)
    requires Kept(h, was, now, order) && order != []
    ensures Kept(h, was, now - {order[|order| - 1]}, order[..|order| - 1])
  {
    DropLast(order);
  }

  /** A store that may forget any nodes before any operation: `forgets(t, d)` says whether the node
      at `d` is lost by time `t`.  Every way of losing nodes is some such function. */
  class LossyStore {
    const h: HashFn
    const forgets: (nat, Digest) -> bool
    var clock: nat
    var nodes: map<Digest, Node>

    ghost predicate Valid()
      reads this
    {
      Honest(h, nodes)
    }

    constructor (h: HashFn, forgets: (nat, Digest) -> bool)
      ensures Valid() && this.h == h && this.forgets == forgets && clock == 0 && nodes == map[]
    {
      this.h, this.forgets, clock, nodes := h, forgets, 0, map[];
    }

    method Forget()
      modifies this
      ensures clock == old(clock) + 1
      ensures forall d :: d in nodes <==> d in old(nodes) && !forgets(old(clock), d)
      ensures forall d :: d in nodes ==> nodes[d] == old(nodes)[d]
    {
      nodes := map d | d in nodes && !forgets(clock, d) :: nodes[d];
      clock := clock + 1;
    }

    method GetNode(d: Digest) returns (r: Option<Node>)
      requires Valid()
      modifies this
      ensures Valid() && forall k :: k in nodes ==> k in old(nodes) && nodes[k] == old(nodes)[k]
      ensures r == if d in old(nodes) && !forgets(old(clock), d) then Some(old(nodes)[d]) else None
    {
      Forget();
      r := if d in nodes then Some(nodes[d]) else None;
    }

    method PutNode(d: Digest, n: Node)
      requires Valid() && h(Preimage(n)) == d
      modifies this
      ensures Valid() && d in nodes
      ensures forall k :: k in nodes ==> (k == d && nodes[k] == n) || (k in old(nodes) && nodes[k] == old(nodes)[k])
    {
      Forget();
      if d !in nodes {
        nodes := nodes[d := n];
      }
    }
  }

  /** What a cache holds, as a value. */
  datatype CacheView = CacheView(h: HashFn, nodes: map<Digest, Node>, kept: Option<(int, seq<Digest>)>)

  /** Every node it holds is filed under its own digest, and its preimage is in `u`. */
  ghost predicate Sincere(h: HashFn, u: iset<Bytes>, v: CacheView) {
    && v.h == h && Honest(h, v.nodes) && PreimagesIn(v.nodes, u)
    && (v.kept.Some? ==>
          var (max, order) := v.kept.value;
          NoRepeats(order) && (forall d :: d in order <==> d in v.nodes) && (max > 0 ==> |order| <= max))
  }

  lemma SincereIs(h: HashFn, u: iset<Bytes>, cache: CacheStore)
    ensures Sincere(h, u, cache.View()) <==> cache.Valid(h) && cache.Within(u)
  {
  }

  /** A cache the committer may work over. */
  datatype CacheStore = Lru(lru: BoundedStore) | Lossy(lossy: LossyStore)
  {
    function Object(): (o: object) {
      match this
      case Lru(c) => c
      case Lossy(c) => c
    }

    ghost function View(): (v: CacheView)
      reads Object()
    {
      match this
      case Lru(c) => CacheView(c.h, c.nodes, Some((c.max, c.order)))
      case Lossy(c) => CacheView(c.h, c.nodes, None)
    }

    ghost predicate Valid(h: HashFn)
      reads Object()
    {
      match this
      case Lru(c) => c.Valid() && c.h == h
      case Lossy(c) => c.Valid() && c.h == h
    }

    ghost predicate Within(u: iset<Bytes>)
      reads Object()
    {
      match this
      case Lru(c) => PreimagesIn(c.nodes, u)
      case Lossy(c) => PreimagesIn(c.nodes, u)
    }

    method GetNode(h: HashFn, d: Digest, ghost u: iset<Bytes>) returns (r: Option<Node>)
      requires Valid(h) && Within(u)
      modifies Object()
      ensures Valid(h) && Within(u)
      ensures r.Some? ==> h(Preimage(r.value)) == d && Preimage(r.value) in u
    {
      match this
      case Lru(c) => r := c.GetNode(d);
      case Lossy(c) => r := c.GetNode(d);
    }

    method PutNode(h: HashFn, d: Digest, n: Node, ghost u: iset<Bytes>)
      requires Valid(h) && Within(u) && h(Preimage(n)) == d && Preimage(n) in u
      modifies Object()
      ensures Valid(h) && Within(u)
    {
      match this
      case Lru(c) => c.PutNode(d, n);
      case Lossy(c) => c.PutNode(d, n);
    }
  }

  /** The stores a trie may be opened on. */
  datatype NodeStore =
    | Mem(mem: MemStore)
    | Cache(cache: CacheStore)
    | Tee(build: MemStore, warm: CacheStore)
  {
    function Objects(): (s: set<object>) {
      match this
      case Mem(m) => {m}
      case Cache(c) => {c.Object()}
      case Tee(b, w) => {b, w.Object()}
    }

    ghost predicate Valid(h: HashFn)
      reads Objects()
    {
      match this
      case Mem(m) => m.Valid() && m.h == h
      case Cache(c) => c.Valid(h)
      case Tee(b, w) => b.Valid() && b.h == h && w.Valid(h) && w.Object() != b
    }

    /** The nodes the store is bound to return; a cache is bound to return none. */
    ghost function Retained(): (m: map<Digest, Node>)
      reads Objects()
    {
      match this
      case Mem(m) => m.nodes
      case Cache(_) => map[]
      case Tee(b, _) => b.nodes
    }

    ghost predicate Within(u: iset<Bytes>)
      reads Objects()
    {
      match this
      case Mem(m) => PreimagesIn(m.nodes, u)
      case Cache(c) => c.Within(u)
      case Tee(b, w) => PreimagesIn(b.nodes, u) && w.Within(u)
    }

    /** A store may miss; what it returns always has the address asked for. */
    method GetNode(h: HashFn, d: Digest, ghost u: iset<Bytes>) returns (r: Option<Node>)
      requires Valid(h) && Within(u)
      modifies Objects()
      ensures Valid(h) && Within(u) && Retained() == old(Retained())
      ensures r.Some? ==> h(Preimage(r.value)) == d && Preimage(r.value) in u
      ensures d in Retained() ==> r == Some(Retained()[d])
    {
      match this
      case Mem(m) => r := m.GetNode(d);
      case Cache(c) => r := c.GetNode(h, d, u);
      case Tee(b, w) =>
        r := b.GetNode(d);
        if r.None? {
          r := w.GetNode(h, d, u);
        }
    }

    method PutNode(h: HashFn, d: Digest, n: Node, ghost u: iset<Bytes>)
      requires Valid(h) && Within(u)
      requires h(Preimage(n)) == d && Preimage(n) in u
      modifies Objects()
      ensures Valid(h) && Within(u) && Grows(old(Retained()), Retained())
      ensures !Cache? ==> d in Retained()
    {
      match this
      case Mem(m) => m.PutNode(d, n);
      case Cache(c) => c.PutNode(h, d, n, u);
      case Tee(b, w) =>
        b.PutNode(d, n);
        w.PutNode(h, d, n, u);
    }
  }
}
