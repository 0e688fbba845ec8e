/** What a commitment can hash depends on the two ledgers alone: a log that names more accounts than
    changed leads through the same trees. */
module StateChanged {
  import opened Bytes
  import opened ByteOrder
  import opened TrieSpec
  import opened StateCommit

  ghost predicate SameAt<A>(before: Ledger<A>, state: Ledger<A>, a: Addr) {
    (a in before <==> a in state) && (a in before ==> before[a] == state[a])
  }

  /** The accounts on which two ledgers differ. */
  ghost function Changed<A>(before: Ledger<A>, state: Ledger<A>): (s: set<Addr>) {
    set a | a in before.Keys + state.Keys && !SameAt(before, state, a)
  }

  /** The front of an ascending list is what comes before its last member. */
  lemma FrontIs(s: seq<Bytes>, k: nat, x: Bytes)
    requires Ascending(s) && k < |s|
    ensures x in s[..k + 1] <==> x in s && (x == s[k] || Before(x, s[k]))
  {
    if x in s {
      var j :| 0 <= j < |s| && s[j] == x;
      if j <= k {
        assert s[..k + 1][j] == x;
      } else {
        NotInFront(s, k, j);
      }
    }
  }

  lemma NotInFront(s: seq<Bytes>, k: nat, j: nat)
    requires Ascending(s) && k < j < |s|
    ensures s[j] !in s[..k + 1] && s[j] != s[k] && !Before(s[j], s[k])
  {
    forall i | 0 <= i < j ensures s[i] != s[j] {
      BeforeIrreflexive(s[j]);
    }
    if Before(s[j], s[k]) {
      BeforeTransitive(s[k], s[j], s[k]);
      BeforeIrreflexive(s[k]);
    }
  }

  /** Accounts that did not change may be moved or not. */
  lemma MixedSame<A>(before: Ledger<A>, state: Ledger<A>, p: set<Addr>, q: set<Addr>)
    requires forall a :: a in Changed(before, state) ==> (a in p <==> a in q)
    ensures Mixed(before, state, p) == Mixed(before, state, q)
  {
    var l, r := Mixed(before, state, p), Mixed(before, state, q);
    forall a ensures (a in l <==> a in r) && (a in l ==> l[a] == r[a]) {
      if a in before.Keys + state.Keys && a !in Changed(before, state) {
        assert SameAt(before, state, a);
      }
    }
  }

  /** Each tree on the way through the longer list is one on the way through the shorter. */
  lemma {:induction false} StageOf<A>(s: Scheme<A>, before: Ledger<A>, state: Ledger<A>, touched: seq<Addr>, changed: seq<Addr>, i: nat, addrs: iset<Addr>)
    returns (j: nat)
    requires Apart(s, addrs) && Ascending(touched) && Ascending(changed) && i <= |touched|
    requires (forall a :: a in changed <==> a in Changed(before, state)) && forall a :: a in changed ==> a in touched
    ensures j <= |changed| && forall a :: a in changed ==> (a in touched[..i] <==> a in changed[..j])
    decreases i
  {
    if i == 0 {
      return 0;
    }
    var last := touched[i - 1];
    if last in changed {
      var k :| 0 <= k < |changed| && changed[k] == last;
      forall a | a in changed ensures a in touched[..i] <==> a in changed[..k + 1] {
        FrontIs(touched, i - 1, a);
        FrontIs(changed, k, a);
      }
      return k + 1;
    }
    j := StageOf(s, before, state, touched, changed, i - 1, addrs);
    assert touched[..i] == touched[..i - 1] + [last];
  }

  lemma {:induction false} ListedAll(lists: nat -> seq<Bytes>, n: nat, u: iset<Bytes>)
    requires forall i :: 0 <= i <= n ==> Covers(u, lists(i))
    ensures Covers(u, Listed(lists, n))
  {
    if n > 0 {
      ListedAll(lists, n - 1, u);
    }
    assert Covers(u, lists(n));
  }

  lemma StagesCovered<A>(h: HashFn, s: Scheme<A>, before: Ledger<A>, state: Ledger<A>, touched: seq<Addr>, changed: seq<Addr>, addrs: iset<Addr>, u: iset<Bytes>)
    requires Apart(s, addrs) && Ascending(touched) && Ascending(changed)
    requires (forall a :: a in changed <==> a in Changed(before, state)) && forall a :: a in changed ==> a in touched
    requires Covers(u, StageHashes(h, s, before, state, changed, addrs))
    ensures Covers(u, StageHashes(h, s, before, state, touched, addrs))
  {
    var lists := StageLists(h, s, before, state, touched, addrs);
    forall i | 0 <= i <= |touched| ensures Covers(u, lists(i)) {
      var j := StageOf(s, before, state, touched, changed, i, addrs);
      MixedSame(before, state, Members(touched[..i]), Members(changed[..j]));
      ListedHas(StageLists(h, s, before, state, changed, addrs), |changed|, j, u);
    }
    ListedAll(lists, |touched|, u);
  }

  /** So a log that names every change can hash nothing that the changes themselves do not. */
  lemma VisitedChanged<A>(h: HashFn, s: Scheme<A>, before: Ledger<A>, state: Ledger<A>, undo: seq<Addr>, addrs: iset<Addr>, u: iset<Bytes>)
    requires Apart(s, addrs) && AgreeOutside(before, state, undo)
    requires var changes := SortedOf(Changed(before, state)); Covers(u, Visited(h, s, before, state, changes, addrs))
    ensures Covers(u, Visited(h, s, before, state, undo, addrs))
  {
    var changes := SortedOf(Changed(before, state));
    var touched, changed := SortedOf(Members(undo)), SortedOf(Members(changes));
    forall a | a in changed ensures a in touched {
      assert a in Changed(before, state);
    }
    VisitedParts(h, s, before, state, changes, addrs, u);
    StagesCovered(h, s, before, state, touched, changed, addrs, u);
  }

  lemma VisitedParts<A>(h: HashFn, s: Scheme<A>, before: Ledger<A>, state: Ledger<A>, undo: seq<Addr>, addrs: iset<Addr>, u: iset<Bytes>)
    requires Apart(s, addrs) && Covers(u, Visited(h, s, before, state, undo, addrs))
    ensures EMPTY_TAG in u
    ensures var touched := SortedOf(Members(undo)); Covers(u, StageHashes(h, s, before, state, touched, addrs))
    ensures var order := SortedOf(state.Keys); Covers(u, StageHashes(h, s, map[], state, order, addrs))
  {
    assert EMPTY_TAG in Visited(h, s, before, state, undo, addrs);
  }
}
