/** The incremental state commitment: touching only the accounts a block changed, over a cache
    that may have forgotten any node, gives the root a rebuild from the whole ledger gives. */
module StateCommit {
  import opened Bytes
  import opened Seqs
  import opened ByteOrder
  import opened TrieSpec
  import opened NodeStores
  import opened TrieLaws
  import opened TrieStore

  type Addr = Bytes
  type Ledger<A> = map<Addr, A>

  /** Where an address sits in the trie and what is committed there. */
  datatype Scheme<!A> = Scheme(keyOf: Addr -> Key, leafOf: (Addr, A) -> Digest)

  /** No two of these addresses share a trie position. */
  ghost predicate Apart<A>(s: Scheme<A>, addrs: iset<Addr>) {
    forall a, b :: a in addrs && b in addrs && s.keyOf(a) == s.keyOf(b) ==> a == b
  }

  ghost predicate Over<A>(l: Ledger<A>, addrs: iset<Addr>) {
    forall a :: a in l ==> a in addrs
  }

  /** The entries the trie commits for a ledger. */
  ghost function Committed<A>(s: Scheme<A>, l: Ledger<A>, addrs: iset<Addr>): (m: Entries)
    requires Apart(s, addrs)
    ensures Over(l, addrs) ==> Commits(s, l, m)
  {
    map a | a in l && a in addrs :: s.keyOf(a) := s.leafOf(a, l[a])
  }

  /** The root a from-scratch build gives. */
  ghost function StateRoot<A>(h: HashFn, s: Scheme<A>, l: Ledger<A>, addrs: iset<Addr>): (d: Digest)
    requires Apart(s, addrs)
  {
    Root(h, Canon(Committed(s, l, addrs), 0))
  }

  ghost predicate Commits<A>(s: Scheme<A>, l: Ledger<A>, m: Entries) {
    && (forall a :: a in l ==> s.keyOf(a) in m && m[s.keyOf(a)] == s.leafOf(a, l[a]))
    && forall k :: k in m ==> exists a :: a in l && s.keyOf(a) == k
  }

  lemma CommitsUnique<A>(s: Scheme<A>, l: Ledger<A>, m: Entries, n: Entries)
    requires Commits(s, l, m) && Commits(s, l, n)
    ensures m == n
  {
    forall k
      ensures k in m <==> k in n
      ensures k in m ==> m[k] == n[k]
    {
    }
  }

  /** Writing one account of the ledger is one update of the committed map. */
  lemma CommitPut<A>(s: Scheme<A>, l: Ledger<A>, addrs: iset<Addr>, a: Addr, x: A)
    requires Apart(s, addrs) && Over(l, addrs) && a in addrs
    ensures Committed(s, l[a := x], addrs) == After(Committed(s, l, addrs), s.keyOf(a), s.leafOf(a, x))
  {
    var l', m' := l[a := x], After(Committed(s, l, addrs), s.keyOf(a), s.leafOf(a, x));
    forall k | k in m'
      ensures exists b :: b in l' && s.keyOf(b) == k
    {
      var b :| b in l' && s.keyOf(b) == k;
    }
    CommitsUnique(s, l', m', Committed(s, l', addrs));
  }

  lemma CommitDrop<A>(s: Scheme<A>, l: Ledger<A>, addrs: iset<Addr>, a: Addr)
    requires Apart(s, addrs) && Over(l, addrs) && a in addrs
    ensures Committed(s, l - {a}, addrs) == After(Committed(s, l, addrs), s.keyOf(a), [])
  {
    var l', m' := l - {a}, After(Committed(s, l, addrs), s.keyOf(a), []);
    forall k | k in m'
      ensures exists b :: b in l' && s.keyOf(b) == k
    {
      var b :| b in l && s.keyOf(b) == k;
      assert b in l';
    }
    CommitsUnique(s, l', m', Committed(s, l', addrs));
  }

  /** Every preimage hashed to commit a tree, listed. */
  ghost function Hashes(h: HashFn, t: Tree): (s: seq<Bytes>) {
    [TopPreimage(h, t)] + if t.Branch? then Hashes(h, t.left) + Hashes(h, t.right) else []
  }

  lemma {:induction false} HashedIffAll(h: HashFn, t: Tree, u: iset<Bytes>)
    ensures HashedIn(h, t, u) <==> forall p :: p in Hashes(h, t) ==> p in u
  {
    if t.Branch? {
      HashedIffAll(h, t.left, u);
      HashedIffAll(h, t.right, u);
    }
    assert TopPreimage(h, t) in Hashes(h, t);
  }

  /** The ledger with the accounts in `done` already moved to their new values. */
  ghost function Mixed<A>(before: Ledger<A>, after: Ledger<A>, done: set<Addr>): (l: Ledger<A>) {
    map a | a in before.Keys + after.Keys && (if a in done then a in after else a in before) ::
      if a in done then after[a] else before[a]
  }

  lemma MixedStep<A>(before: Ledger<A>, after: Ledger<A>, done: set<Addr>, a: Addr)
    ensures Mixed(before, after, done + {a}) ==
            if a in after then Mixed(before, after, done)[a := after[a]] else Mixed(before, after, done) - {a}
  {
  }

  /** The distinct addresses an undo log names, in order. */
  method TouchedAddrs(undo: seq<Addr>) returns (out: seq<Addr>)
    ensures out == SortedOf(Members(undo)) && NoRepeats(out)
  {
    out := Sort(undo);
  }

  /** The trie updates that bring the named accounts to their current values. */
  function Updates<A>(s: Scheme<A>, state: Ledger<A>, touched: seq<Addr>): (us: seq<(Key, Bytes)>)
    ensures |us| == |touched|
  {
    seq(|touched|, i requires 0 <= i < |touched| =>
      (s.keyOf(touched[i]), if touched[i] in state then s.leafOf(touched[i], state[touched[i]]) else []))
  }

  /** Every prefix of those updates commits the ledger with just those accounts moved. */
  lemma {:induction false} UpdatesCommit<A>(
    s: Scheme<A>, before: Ledger<A>, state: Ledger<A>, touched: seq<Addr>, i: nat, addrs: iset<Addr>)
    requires Apart(s, addrs) && Over(before, addrs) && Over(state, addrs)
    requires i <= |touched| && forall a :: a in touched ==> a in addrs
    ensures Over(Mixed(before, state, Members(touched[..i])), addrs)
    ensures AfterAll(Committed(s, before, addrs), Updates(s, state, touched)[..i])
         == Committed(s, Mixed(before, state, Members(touched[..i])), addrs)
    decreases i
  {
    var us := Updates(s, state, touched);
    if i == 0 {
      assert us[..0] == [];
      assert Mixed(before, state, Members(touched[..0])) == before;
    } else {
      var j := i - 1;
      UpdatesCommit(s, before, state, touched, j, addrs);
      var a := touched[j];
      assert us[..i][..j] == us[..j] && us[..i][j] == us[j];
      assert touched[..i] == touched[..j] + [a];
      assert Members(touched[..i]) == Members(touched[..j]) + {a};
      var l := Mixed(before, state, Members(touched[..j]));
      MixedStep(before, state, Members(touched[..j]), a);
      if a in state {
        CommitPut(s, l, addrs, a, state[a]);
      } else {
        CommitDrop(s, l, addrs, a);
      }
    }
  }

  ghost predicate AgreeOutside<A>(before: Ledger<A>, state: Ledger<A>, touched: seq<Addr>) {
    forall a :: a !in touched ==> (a in before <==> a in state) && (a in before ==> before[a] == state[a])
  }

  /** The tree committed once the first `i` of the touched accounts have moved. */
  ghost function Stage<A>(s: Scheme<A>, before: Ledger<A>, state: Ledger<A>, touched: seq<Addr>, i: nat, addrs: iset<Addr>): (t: Tree)
    requires Apart(s, addrs) && i <= |touched|
  {
    Canon(Committed(s, Mixed(before, state, Members(touched[..i])), addrs), 0)
  }

  /** Lists `0` to `n`, one after the other. */
  ghost function Listed(lists: nat -> seq<Bytes>, n: nat): (p: seq<Bytes>) {
    lists(n) + if n == 0 then [] else Listed(lists, n - 1)
  }

  lemma {:induction false} ListedHas(lists: nat -> seq<Bytes>, n: nat, i: nat, u: iset<Bytes>)
    requires i <= n && Covers(u, Listed(lists, n))
    ensures Covers(u, lists(i))
  {
    if i < n {
      ListedHas(lists, n - 1, i, u);
    }
  }

  /** The preimages of each stage. */
  ghost function StageLists<A>(h: HashFn, s: Scheme<A>, before: Ledger<A>, state: Ledger<A>, touched: seq<Addr>, addrs: iset<Addr>): (f: nat -> seq<Bytes>)
    requires Apart(s, addrs)
  {
    (i: nat) => if i <= |touched| then Hashes(h, Stage(s, before, state, touched, i, addrs)) else []
  }

  ghost function StageHashes<A>(h: HashFn, s: Scheme<A>, before: Ledger<A>, state: Ledger<A>, touched: seq<Addr>, addrs: iset<Addr>): (p: seq<Bytes>)
    requires Apart(s, addrs)
  {
    Listed(StageLists(h, s, before, state, touched, addrs), |touched|)
  }

  lemma StageCovered<A>(h: HashFn, s: Scheme<A>, before: Ledger<A>, state: Ledger<A>, touched: seq<Addr>, i: nat, addrs: iset<Addr>, u: iset<Bytes>)
    requires Apart(s, addrs) && i <= |touched| && Covers(u, StageHashes(h, s, before, state, touched, addrs))
    ensures HashedIn(h, Stage(s, before, state, touched, i, addrs), u)
  {
    ListedHas(StageLists(h, s, before, state, touched, addrs), |touched|, i, u);
    HashedIffAll(h, Stage(s, before, state, touched, i, addrs), u);
  }

  ghost predicate Covers(u: iset<Bytes>, preimages: seq<Bytes>) {
    forall p :: p in preimages ==> p in u
  }

  /** Every preimage one commitment can hash: those of the trees the touched accounts lead through,
      and of the trees a rebuild from the whole ledger passes. */
  ghost function Visited<A>(h: HashFn, s: Scheme<A>, before: Ledger<A>, state: Ledger<A>, undo: seq<Addr>, addrs: iset<Addr>): (p: seq<Bytes>)
    requires Apart(s, addrs)
  {
    var touched, order := SortedOf(Members(undo)), SortedOf(state.Keys);
    [EMPTY_TAG] + StageHashes(h, s, before, state, touched, addrs)
    + StageHashes(h, s, map[], state, order, addrs)
  }

  /** The trees the updates pass through, from the old ledger's to the new one's. */
  lemma Plan<A>(h: HashFn, s: Scheme<A>, before: Ledger<A>, state: Ledger<A>, touched: seq<Addr>,
                addrs: iset<Addr>, u: iset<Bytes>) returns (trees: seq<Tree>)
    requires Apart(s, addrs) && Over(before, addrs) && Over(state, addrs)
    requires (forall a :: a in touched ==> a in addrs) && AgreeOutside(before, state, touched)
    requires Covers(u, StageHashes(h, s, before, state, touched, addrs))
    ensures Chain(h, trees, Updates(s, state, touched), u)
    ensures Root(h, trees[0]) == StateRoot(h, s, before, addrs)
    ensures before == map[] ==> trees[0] == Empty
    ensures Root(h, trees[|touched|]) == StateRoot(h, s, state, addrs)
  {
    var us, m := Updates(s, state, touched), Committed(s, before, addrs);
    trees := seq(|us| + 1, i requires 0 <= i <= |us| => Canon(AfterAll(m, us[..i]), 0));
    forall i | 0 <= i <= |us|
      ensures HashedIn(h, trees[i], u)
    {
      UpdatesCommit(s, before, state, touched, i, addrs);
      StageCovered(h, s, before, state, touched, i, addrs, u);
    }
    forall i | 0 <= i < |us|
      ensures Reaches(trees[i], us[i].0, 0) && trees[i + 1] == UpdateTree(trees[i], us[i].0, us[i].1)
    {
      PlanStep(m, us, i);
    }
    PlanEnds(s, before, state, touched, addrs);
    PlanBounds(m, us);
  }

  lemma PlanStep(m: Entries, us: seq<(Key, Bytes)>, i: nat)
    requires i < |us|
    ensures Reaches(Canon(AfterAll(m, us[..i]), 0), us[i].0, 0)
    ensures Canon(AfterAll(m, us[..i + 1]), 0) == UpdateTree(Canon(AfterAll(m, us[..i]), 0), us[i].0, us[i].1)
  {
    assert us[..i + 1][..i] == us[..i] && us[..i + 1][i] == us[i];
    UpdateRefinesMap(AfterAll(m, us[..i]), us[i].0, us[i].1);
  }

  lemma PlanBounds(m: Entries, us: seq<(Key, Bytes)>)
    ensures AfterAll(m, us[..0]) == m && AfterAll(m, us[..|us|]) == AfterAll(m, us)
  {
    assert us[..0] == [] && us[..|us|] == us;
  }

  lemma PlanEnds<A>(s: Scheme<A>, before: Ledger<A>, state: Ledger<A>, touched: seq<Addr>, addrs: iset<Addr>)
    requires Apart(s, addrs) && Over(before, addrs) && Over(state, addrs)
    requires (forall a :: a in touched ==> a in addrs) && AgreeOutside(before, state, touched)
    ensures before == map[] ==> Committed(s, before, addrs) == map[]
    ensures AfterAll(Committed(s, before, addrs), Updates(s, state, touched)) == Committed(s, state, addrs)
  {
    var us := Updates(s, state, touched);
    UpdatesCommit(s, before, state, touched, |touched|, addrs);
    MixedAll(before, state, touched);
    assert touched[..|touched|] == touched && us[..|us|] == us;
  }

  lemma MixedAll<A>(before: Ledger<A>, state: Ledger<A>, touched: seq<Addr>)
    requires AgreeOutside(before, state, touched)
    ensures Mixed(before, state, Members(touched)) == state
  {
    forall a
      ensures a in Mixed(before, state, Members(touched)) <==> a in state
      ensures a in state ==> Mixed(before, state, Members(touched))[a] == state[a]
    {
      assert a in Members(touched) <==> a in touched;
    }
  }

  /** Every account of a ledger, in order. */
  method Addresses<A>(state: Ledger<A>) returns (out: seq<Addr>)
    ensures out == SortedOf(state.Keys)
  {
    out := [];
    var left := state.Keys;
    while left != {}
      invariant left <= state.Keys && Ascending(out)
      invariant forall a :: a in out <==> a in state && a !in left
      decreases left
    {
      var a :| a in left;
      out := Placed(a, out);
      left := left - {a};
    }
    AscendingUnique(out, SortedOf(state.Keys));
  }

  /** The fallback: builds the trie of the whole ledger in a private store, copying every node
      into the cache on the way.  The build reads back only nodes it wrote itself, so nothing
      the cache forgets meanwhile can stop it. */
  method StateRootInto<A>(h: HashFn, s: Scheme<A>, cache: CacheStore, state: Ledger<A>,
                          ghost addrs: iset<Addr>, ghost u: iset<Bytes>)
    returns (root: Digest)
    requires Apart(s, addrs) && Over(state, addrs) && CollisionFree(h, u) && EMPTY_TAG in u
    requires var order := SortedOf(state.Keys); Covers(u, StageHashes(h, s, map[], state, order, addrs))
    requires cache.Valid(h) && cache.Within(u)
    modifies cache.Object()
    ensures cache.Valid(h) && cache.Within(u)
    ensures root == StateRoot(h, s, state, addrs)
  {
    var order := Addresses(state);
    ghost var trees := Plan(h, s, map[], state, order, addrs, u);
    root := BuildInto(h, cache, Updates(s, state, order), trees, u);
  }

  /** A run of updates from the empty trie, over a private store that warms the cache. */
  method BuildInto(h: HashFn, cache: CacheStore, updates: seq<(Key, Bytes)>, ghost trees: seq<Tree>, ghost u: iset<Bytes>)
    returns (root: Digest)
    requires Chain(h, trees, updates, u) && trees[0] == Empty && CollisionFree(h, u) && EMPTY_TAG in u
    requires cache.Valid(h) && cache.Within(u)
    modifies cache.Object()
    ensures cache.Valid(h) && cache.Within(u) && root == Root(h, trees[|updates|])
  {
    var build := new MemStore(h);
    var t := new Trie(h, Tee(build, cache), h(EMPTY_TAG));
    assert t.store.Objects() == {build, cache.Object()};
    var ok := ApplyUpdates(t, updates, trees, u);
    root := t.root;
  }

  class StateCommitter<!A> {
    const h: HashFn
    const s: Scheme<A>
    const cache: CacheStore
    var root: Digest

    constructor (h: HashFn, s: Scheme<A>, cache: CacheStore, root: Digest)
      ensures this.h == h && this.s == s && this.cache == cache && this.root == root
    {
      this.h := h;
      this.s := s;
      this.cache := cache;
      this.root := root;
    }

    /** The cursor stands at the root of `l`; the cache is honest, whatever it still holds; and no
        two of the preimages in `u`, the cache's among them, collide. */
    ghost predicate At(l: Ledger<A>, addrs: iset<Addr>, u: iset<Bytes>)
      reads this, cache.Object()
    {
      && Apart(s, addrs) && Over(l, addrs) && CollisionFree(h, u)
      && cache.Valid(h) && cache.Within(u) && cache.Object() != this
      && root == StateRoot(h, s, l, addrs)
    }

    /** The root after a block that changed at most the accounts its undo log names: the root of
        a rebuild, with the cursor left standing there, whatever the cache forgets and when. */
    method RootAfter(state: Ledger<A>, undo: seq<Addr>, ghost before: Ledger<A>, ghost addrs: iset<Addr>, ghost u: iset<Bytes>)
      returns (r: Digest)
      requires At(before, addrs, u) && BlockCovered(h, s, before, state, undo, addrs, u)
      modifies this, cache.Object()
      ensures At(state, addrs, u)
      ensures r == root == StateRoot(h, s, state, addrs)
    {
      VisitedCovers(h, s, before, state, undo, addrs, u);
      var fast := UpdateTouched(h, s, cache, root, state, undo, before, addrs, u);
      if fast.Some? {
        root := fast.value;
      } else {
        root := StateRootInto(h, s, cache, state, addrs, u);
      }
      r := root;
    }
  }

  /** The fast path: only the touched keys are updated; none when the cache misses a node. */
  method UpdateTouched<A>(h: HashFn, s: Scheme<A>, cache: CacheStore, root: Digest, state: Ledger<A>, undo: seq<Addr>,
                          ghost before: Ledger<A>, ghost addrs: iset<Addr>, ghost u: iset<Bytes>)
    returns (r: Option<Digest>)
    requires Apart(s, addrs) && Over(before, addrs) && Over(state, addrs) && CollisionFree(h, u) && EMPTY_TAG in u
    requires forall a :: a in SortedOf(Members(undo)) ==> a in addrs
    requires AgreeOutside(before, state, SortedOf(Members(undo)))
    requires var touched := SortedOf(Members(undo)); Covers(u, StageHashes(h, s, before, state, touched, addrs))
    requires cache.Valid(h) && cache.Within(u) && root == StateRoot(h, s, before, addrs)
    modifies cache.Object()
    ensures cache.Valid(h) && cache.Within(u)
    ensures r.Some? ==> r.value == StateRoot(h, s, state, addrs)
  {
    var touched := TouchedAddrs(undo);
    ghost var trees := Plan(h, s, before, state, touched, addrs, u);
    var t := new Trie(h, Cache(cache), root);
    assert t.store.Objects() == {cache.Object()};
    var ok := ApplyUpdates(t, Updates(s, state, touched), trees, u);
    r := if ok then Some(t.root) else None;
  }

  /** A block takes `before` to `state`, changing at most what its log names, and `u` holds all that
      committing it can hash. */
  ghost predicate BlockCovered<A>(h: HashFn, s: Scheme<A>, before: Ledger<A>, state: Ledger<A>, undo: seq<Addr>, addrs: iset<Addr>, u: iset<Bytes>)
    requires Apart(s, addrs)
  {
    && Over(state, addrs) && (forall a :: a in undo ==> a in addrs) && AgreeOutside(before, state, undo)
    && Covers(u, Visited(h, s, before, state, undo, addrs))
  }

  lemma VisitedCovers<A>(h: HashFn, s: Scheme<A>, before: Ledger<A>, state: Ledger<A>, undo: seq<Addr>, addrs: iset<Addr>, u: iset<Bytes>)
    requires Apart(s, addrs) && BlockCovered(h, s, before, state, undo, addrs, u)
    ensures EMPTY_TAG in u && Over(state, addrs)
    ensures var touched := SortedOf(Members(undo));
            && Covers(u, StageHashes(h, s, before, state, touched, addrs))
            && (forall a :: a in touched ==> a in addrs) && AgreeOutside(before, state, touched)
    ensures var order := SortedOf(state.Keys); Covers(u, StageHashes(h, s, map[], state, order, addrs))
  {
    assert EMPTY_TAG in Visited(h, s, before, state, undo, addrs);
  }

  /** What a suffix can hash: block `i` takes ledger `i` to ledger `i + 1`. */
  ghost predicate SuffixCovered<A>(h: HashFn, s: Scheme<A>, ledgers: seq<Ledger<A>>, undos: seq<seq<Addr>>, addrs: iset<Addr>, u: iset<Bytes>)
    requires Apart(s, addrs) && |ledgers| == |undos| + 1
  {
    forall i :: 0 <= i < |undos| ==> StepCovered(h, s, ledgers, undos, i, addrs, u)
  }

  ghost predicate StepCovered<A>(h: HashFn, s: Scheme<A>, ledgers: seq<Ledger<A>>, undos: seq<seq<Addr>>, i: nat, addrs: iset<Addr>, u: iset<Bytes>)
    requires Apart(s, addrs) && |ledgers| == |undos| + 1 && i < |undos|
  {
    BlockCovered(h, s, ledgers[i], LedgerAfter(ledgers, i), undos[i], addrs, u)
  }

  /** Committing block after block of a suffix: ledger `i + 1` differs from ledger `i` at most
      where undo log `i` says, and every root handed out is that of a rebuild. */
  method CommitSuffix<A>(c: StateCommitter<A>, ledgers: seq<Ledger<A>>, undos: seq<seq<Addr>>,
                         ghost addrs: iset<Addr>, ghost u: iset<Bytes>)
    returns (roots: seq<Digest>)
    requires |ledgers| == |undos| + 1 && c.At(ledgers[0], addrs, u) && SuffixCovered(c.h, c.s, ledgers, undos, addrs, u)
    modifies c, c.cache.Object()
    ensures |roots| == |undos| && RootsOf(c.h, c.s, ledgers, addrs, roots)
    ensures c.At(ledgers[|undos|], addrs, u)
  {
    roots := [];
    for i := 0 to |undos|
      invariant |roots| == i && c.At(ledgers[i], addrs, u) && RootsOf(c.h, c.s, ledgers, addrs, roots)
    {
      assert StepCovered(c.h, c.s, ledgers, undos, i, addrs, u);
      var r := c.RootAfter(LedgerAfter(ledgers, i), undos[i], ledgers[i], addrs, u);
      RootsMore(c.h, c.s, ledgers, addrs, roots, r);
      roots := roots + [r];
    }
  }

  /** Root `j` is that of a rebuild from the ledger after block `j`. */
  ghost predicate RootsOf<A>(h: HashFn, s: Scheme<A>, ledgers: seq<Ledger<A>>, addrs: iset<Addr>, roots: seq<Digest>)
    requires Apart(s, addrs)
  {
    |roots| < |ledgers| && forall j :: 0 <= j < |roots| ==> roots[j] == StateRoot(h, s, LedgerAfter(ledgers, j), addrs)
  }

  function LedgerAfter<A>(ledgers: seq<Ledger<A>>, j: nat): (l: Ledger<A>)
    requires j + 1 < |ledgers|
  {
    ledgers[j + 1]
  }

  lemma RootsMore<A>(h: HashFn, s: Scheme<A>, ledgers: seq<Ledger<A>>, addrs: iset<Addr>, roots: seq<Digest>, r: Digest)
    requires Apart(s, addrs) && RootsOf(h, s, ledgers, addrs, roots) && |roots| + 1 < |ledgers|
    requires r == StateRoot(h, s, LedgerAfter(ledgers, |roots|), addrs)
    ensures RootsOf(h, s, ledgers, addrs, roots + [r])
  {
  }
}
