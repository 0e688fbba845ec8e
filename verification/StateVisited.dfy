/** How much one commitment can hash: a number of preimages bounded by the ledgers' sizes and the
    length of the undo log, so that assuming them free of collisions is assuming little. */
module StateVisited {
  import opened Bytes
  import opened Seqs
  import opened ByteOrder
  import opened TrieSpec
  import opened TrieStore
  import opened StateCommit

  /** Nodes per key, at most: its path, and an empty sibling for every step of it. */
  const NODES_PER_KEY := 513

  lemma SidesSplit(m: Entries, d: nat)
    requires d < KEY_BITS
    ensures |Side(m, d, false)| + |Side(m, d, true)| == |m|
  {
    var l, r := Side(m, d, false), Side(m, d, true);
    assert l.Keys + r.Keys == m.Keys && l.Keys !! r.Keys;
    assert |l| == |l.Keys| && |r| == |r.Keys| && |m| == |m.Keys|;
  }

  /** `n` times `k`, counted up. */
  ghost function Times(n: nat, k: nat): (r: nat) {
    if n == 0 then 0 else Times(n - 1, k) + k
  }

  lemma {:induction false} TimesIs(n: nat, k: nat)
    ensures Times(n, k) == n * k
  {
    if n > 0 {
      TimesIs(n - 1, k);
    }
  }

  ghost function NodeBound(n: nat, d: nat): (k: nat)
    requires d <= KEY_BITS
  {
    if n == 0 then 1 else Times(n, 2 * (KEY_BITS - d) + 1)
  }

  /** What one tree over at most `n` accounts can hash, and what `trees` of them can. */
  ghost function PerTree(n: nat): (k: nat) {
    1 + NODES_PER_KEY * n
  }

  ghost function Budget(trees: nat, n: nat): (k: nat) {
    Times(trees, PerTree(n))
  }

  lemma BudgetIs(trees: nat, n: nat)
    ensures Budget(trees, n) == trees * (1 + NODES_PER_KEY * n)
  {
    TimesIs(trees, PerTree(n));
  }

  lemma {:induction false} TimesGrows(a: nat, b: nat, k: nat)
    requires a <= b
    ensures Times(a, k) <= Times(b, k)
  {
    if a < b {
      TimesGrows(a, b - 1, k);
    }
  }

  lemma WithinTree(k: nat, n: nat)
    requires k <= n
    ensures NodeBound(k, 0) <= PerTree(n)
  {
    TimesIs(k, NODES_PER_KEY);
  }

  lemma BoundsAdd(l: nat, r: nat, d: nat)
    requires d < KEY_BITS && l + r > 0
    ensures 1 + NodeBound(l, d + 1) + NodeBound(r, d + 1) <= NodeBound(l + r, d)
  {
    var k := 2 * (KEY_BITS - d) + 1;
    TimesIs(l, k - 2);
    TimesIs(r, k - 2);
    TimesIs(l + r, k);
    Spread(l, r, k);
  }

  lemma Spread(l: nat, r: nat, k: nat)
    requires k >= 2
    ensures l * (k - 2) + r * (k - 2) == (l + r) * k - 2 * (l + r)
  {
  }

  lemma {:induction false} BoundPositive(n: nat, d: nat)
    requires d <= KEY_BITS
    ensures NodeBound(n, d) >= 1
  {
  }

  ghost function Nodes(t: Tree): (n: nat) {
    1 + if t.Branch? then Nodes(t.left) + Nodes(t.right) else 0
  }

  /** A tree hashes one preimage for each of its nodes. */
  lemma {:induction false} HashesCounted(h: HashFn, t: Tree)
    ensures |Hashes(h, t)| == Nodes(t)
  {
    if t.Branch? {
      HashesCounted(h, t.left);
      HashesCounted(h, t.right);
    }
  }

  /** The two halves of a branch, and how many keys each holds. */
  lemma CanonSides(m: Entries, n: nat, d: nat) returns (l: Entries, r: Entries, i: nat, j: nat)
    requires d <= KEY_BITS && Canon(m, d).Branch? && n == |m|
    ensures d < KEY_BITS && i == |l| && j == |r| && i + j == n > 0
    ensures Canon(m, d).left == Canon(l, d + 1) && Canon(m, d).right == Canon(r, d + 1)
  {
    l, r := Side(m, d, false), Side(m, d, true);
    i, j := |l|, |r|;
    SidesSplit(m, d);
  }

  lemma BranchBounded(t: Tree, l: nat, r: nat, n: nat, d: nat)
    requires t.Branch? && d < KEY_BITS && l + r == n > 0
    requires Nodes(t.left) <= NodeBound(l, d + 1) && Nodes(t.right) <= NodeBound(r, d + 1)
    ensures Nodes(t) <= NodeBound(n, d)
  {
    BoundsAdd(l, r, d);
  }

  /** A canonical tree has at most 513 nodes for each key it holds. */
  lemma {:induction false} TreeBounded(m: Entries, n: nat, d: nat)
    requires d <= KEY_BITS && n == |m|
    ensures Nodes(Canon(m, d)) <= NodeBound(n, d)
    decreases KEY_BITS - d
  {
    if Canon(m, d).Branch? {
      var l, r, i, j := CanonSides(m, n, d);
      TreeBounded(l, i, d + 1);
      TreeBounded(r, j, d + 1);
      BranchBounded(Canon(m, d), i, j, n, d);
    } else {
      BoundPositive(n, d);
    }
  }

  lemma UnionBound<T>(a: set<T>, b: set<T>)
    ensures |a + b| <= |a| + |b|
  {
    assert a + b == a + (b - a);
    SubsetBound(b - a, b);
  }

  lemma SubsetBound<T>(a: set<T>, b: set<T>)
    requires a <= b
    ensures |a| <= |b|
  {
    assert b == a + (b - a);
  }

  /** A ledger commits no more entries than it has accounts. */
  lemma {:induction false} CommittedBounded<A>(s: Scheme<A>, l: Ledger<A>, addrs: iset<Addr>)
    requires Apart(s, addrs) && Over(l, addrs)
    ensures |Committed(s, l, addrs)| <= |l|
    decreases |l|
  {
    if l == map[] {
      assert Committed(s, l, addrs) == map[];
    } else {
      var a :| a in l;
      var rest := l - {a};
      assert rest.Keys == l.Keys - {a};
      CommittedBounded(s, rest, addrs);
      CommitDrop(s, l, addrs, a);
      var m := Committed(s, l, addrs);
      assert After(m, s.keyOf(a), []) == m - {s.keyOf(a)};
      assert m.Keys <= (m - {s.keyOf(a)}).Keys + {s.keyOf(a)};
      SubsetBound(m.Keys, (m - {s.keyOf(a)}).Keys + {s.keyOf(a)});
      UnionBound((m - {s.keyOf(a)}).Keys, {s.keyOf(a)});
    }
  }

  lemma MixedBounded<A>(before: Ledger<A>, after: Ledger<A>, done: set<Addr>, addrs: iset<Addr>)
    requires Over(before, addrs) && Over(after, addrs)
    ensures Over(Mixed(before, after, done), addrs) && |Mixed(before, after, done)| <= |before| + |after|
  {
    var m := Mixed(before, after, done);
    SubsetBound(m.Keys, before.Keys + after.Keys);
    UnionBound(before.Keys, after.Keys);
  }

  lemma StageBounded<A>(h: HashFn, s: Scheme<A>, before: Ledger<A>, state: Ledger<A>, touched: seq<Addr>, i: nat, addrs: iset<Addr>)
    requires Apart(s, addrs) && Over(before, addrs) && Over(state, addrs) && i <= |touched|
    ensures |Hashes(h, Stage(s, before, state, touched, i, addrs))| <= PerTree(|before| + |state|)
  {
    var l := Mixed(before, state, Members(touched[..i]));
    MixedBounded(before, state, Members(touched[..i]), addrs);
    CommittedBounded(s, l, addrs);
    TreeBounded(Committed(s, l, addrs), |Committed(s, l, addrs)|, 0);
    HashesCounted(h, Canon(Committed(s, l, addrs), 0));
    WithinTree(|Committed(s, l, addrs)|, |before| + |state|);
  }

  lemma {:induction false} ListedBounded(lists: nat -> seq<Bytes>, n: nat, size: nat)
    requires forall i :: 0 <= i <= n ==> |lists(i)| <= PerTree(size)
    ensures |Listed(lists, n)| <= Budget(n + 1, size)
  {
    if n > 0 {
      ListedBounded(lists, n - 1, size);
      OneMore(|Listed(lists, n - 1)|, |lists(n)|, n, size);
    } else {
      OneMore(0, |lists(n)|, 0, size);
    }
  }

  lemma StageListBounded<A>(h: HashFn, s: Scheme<A>, before: Ledger<A>, state: Ledger<A>, touched: seq<Addr>, i: nat, addrs: iset<Addr>, size: nat)
    requires Apart(s, addrs) && Over(before, addrs) && Over(state, addrs) && size == |before| + |state|
    ensures |StageLists(h, s, before, state, touched, addrs)(i)| <= PerTree(size)
  {
    if i <= |touched| {
      StageBounded(h, s, before, state, touched, i, addrs);
    }
  }

  lemma StagesBounded<A>(h: HashFn, s: Scheme<A>, before: Ledger<A>, state: Ledger<A>, touched: seq<Addr>, addrs: iset<Addr>, size: nat)
    requires Apart(s, addrs) && Over(before, addrs) && Over(state, addrs) && size == |before| + |state|
    ensures |StageHashes(h, s, before, state, touched, addrs)| <= Budget(|touched| + 1, size)
  {
    var lists := StageLists(h, s, before, state, touched, addrs);
    forall i | 0 <= i <= |touched| ensures |lists(i)| <= PerTree(size) {
      StageListBounded(h, s, before, state, touched, i, addrs, size);
    }
    ListedBounded(lists, |touched|, size);
  }

  lemma OneMore(x: nat, y: nat, n: nat, size: nat)
    requires x <= Budget(n, size) && y <= PerTree(size)
    ensures x + y <= Budget(n + 1, size)
  {
  }

  lemma {:induction false} MembersBounded(xs: seq<Bytes>)
    ensures |Members(xs)| <= |xs|
  {
    if xs != [] {
      var n := |xs| - 1;
      MembersBounded(xs[..n]);
      assert xs == xs[..n] + [xs[n]];
      assert Members(xs) == Members(xs[..n]) + {xs[n]};
      UnionBound(Members(xs[..n]), {xs[n]});
    }
  }

  lemma {:induction false} SortedLength(s: set<Bytes>)
    ensures |SortedOf(s)| == |s|
  {
    var r := SortedOf(s);
    AscendingApart(r);
    NoRepeatsCount(r);
    assert Members(r) == s;
  }

  lemma {:induction false} NoRepeatsCount(r: seq<Bytes>)
    requires NoRepeats(r)
    ensures |Members(r)| == |r|
  {
    if r != [] {
      var n := |r| - 1;
      NoRepeatsCount(r[..n]);
      assert r == r[..n] + [r[n]];
      assert Members(r) == Members(r[..n]) + {r[n]};
    }
  }

  /** Committing one block hashes among a number of preimages that is polynomial in the sizes of the
      two ledgers and of the undo log. */
  lemma VisitedBounded<A>(h: HashFn, s: Scheme<A>, before: Ledger<A>, state: Ledger<A>, undo: seq<Addr>, addrs: iset<Addr>,
                          both: nat, after: nat)
    requires Apart(s, addrs) && Over(before, addrs) && Over(state, addrs) && both == |before| + |state| && after == |state|
    ensures |Visited(h, s, before, state, undo, addrs)| <= 1 + Budget(|undo| + 1, both) + Budget(after + 1, after)
  {
    var touched, order := SortedOf(Members(undo)), SortedOf(state.Keys);
    StagesBounded(h, s, before, state, touched, addrs, both);
    RebuildBounded(h, s, state, addrs, after);
    SortedLength(Members(undo));
    MembersBounded(undo);
    TimesGrows(|touched| + 1, |undo| + 1, PerTree(both));
  }

  lemma RebuildBounded<A>(h: HashFn, s: Scheme<A>, state: Ledger<A>, addrs: iset<Addr>, after: nat)
    requires Apart(s, addrs) && Over(state, addrs) && after == |state|
    ensures |StageHashes(h, s, map[], state, SortedOf(state.Keys), addrs)| <= Budget(after + 1, after)
  {
    SortedLength(state.Keys);
    StagesBounded(h, s, map[], state, SortedOf(state.Keys), addrs, after);
  }
}
