/** How much of the pool one transaction may hang on. */
module PackageLimits {
  import opened Bytes
  import opened Seqs
  import opened Transactions
  import opened PoolIndexes
  import opened Admission
  import opened Graphs
  import opened Packages
  import opened PackageClimb

  const MAX_ANCESTORS := 25
  const MAX_PACKAGE_BYTES := 101_000

  ghost function Only(txs: Txs, ds: set<Digest>): (r: Txs) {
    map h | h in txs && h in ds :: txs[h]
  }

  ghost function Foreign(txs: Txs, a: Address, ds: set<Digest>): (r: set<Digest>) {
    set h | h in ds && h in txs && txs[h].sender != a
  }

  /** One more would not be too many for what it relies on. */
  ghost predicate Bears(v: View, h: Digest) {
    h in v.s.txs && |Dependents(v, v.s.txs[h]) - {h}| + 1 <= MAX_DESCENDANTS
  }

  /** A newcomer that relies on these is within the limits. */
  ghost predicate Light(v: View, size: Measure, tx: Tx, ds: set<Digest>) {
    && |Foreign(v.s.txs, tx.sender, ds)| <= MAX_ANCESTORS
    && size(tx) + Sum(Only(v.s.txs, ds), size) <= MAX_PACKAGE_BYTES
    && forall h :: h in Foreign(v.s.txs, tx.sender, ds) ==> Bears(v, h)
  }

  lemma ForeignSplits(txs: Txs, a: Address, ds: set<Digest>, h: Digest)
    requires h in ds && h in txs
    ensures |Foreign(txs, a, ds)| == |Foreign(txs, a, ds - {h})| + if txs[h].sender != a then 1 else 0
  {
    if txs[h].sender != a {
      assert Foreign(txs, a, ds) == Foreign(txs, a, ds - {h}) + {h};
    } else {
      assert Foreign(txs, a, ds) == Foreign(txs, a, ds - {h});
    }
  }

  lemma BytesSplit(txs: Txs, ds: set<Digest>, size: Measure, h: Digest)
    requires h in ds && h in txs
    ensures Sum(Only(txs, ds), size) == size(txs[h]) + Sum(Only(txs, ds - {h}), size)
  {
    SumTakes(Only(txs, ds), size, h);
    assert Only(txs, ds) - {h} == Only(txs, ds - {h});
  }

  /** How many of these are somebody else's, and the size of them all. */
  method Weigh(txs: Txs, a: Address, ds: set<Digest>, size: Measure) returns (foreign: nat, bytes: nat)
    requires ds <= txs.Keys
    ensures foreign == |Foreign(txs, a, ds)| && bytes == Sum(Only(txs, ds), size)
  {
    foreign, bytes := 0, 0;
    var left := ds;
    while left != {}
      invariant left <= ds
      invariant foreign + |Foreign(txs, a, left)| == |Foreign(txs, a, ds)|
      invariant bytes + Sum(Only(txs, left), size) == Sum(Only(txs, ds), size)
      decreases left
    {
      var h :| h in left;
      ForeignSplits(txs, a, left, h);
      BytesSplit(txs, left, size, h);
      if txs[h].sender != a {
        foreign := foreign + 1;
      }
      bytes := bytes + size(txs[h]);
      left := left - {h};
    }
    assert Foreign(txs, a, {}) == {};
    assert Only(txs, {}) == map[];
  }

  /** Whether everybody else's among these can bear one more. */
  method AllBear(v: View, a: Address, ds: set<Digest>) returns (ok: bool)
    requires SendersExact(v.s.txs, v.s.bySender) && ds <= v.s.txs.Keys
    ensures ok <==> forall h :: h in Foreign(v.s.txs, a, ds) ==> Bears(v, h)
  {
    var left := ds;
    while left != {}
      invariant left <= ds && forall h :: h in Foreign(v.s.txs, a, ds) && h !in left ==> Bears(v, h)
      decreases left
    {
      var h :| h in left;
      if v.s.txs[h].sender != a {
        var below := Descendants(v, h);
        LimitDecided(v, h, below);
        if |below| + 1 > MAX_DESCENDANTS {
          assert h in Foreign(v.s.txs, a, ds) && !Bears(v, h);
          return false;
        }
      }
      left := left - {h};
    }
    return true;
  }

  /** The limits on what a newcomer may rely on. */
  method PackageFits(v: View, size: Measure, tx: Tx) returns (ok: bool, ghost found: set<Digest>)
    requires Indexed(v.s)
    ensures found == Up(v, tx, {}, MAX_CLIMB) && (ok <==> Light(v, size, tx, found))
  {
    var above := Climb(v, tx, {}, MAX_CLIMB);
    ClimbBounds(v, tx);
    var foreign, bytes := Weigh(v.s.txs, tx.sender, above, size);
    var bear := AllBear(v, tx.sender, above);
    return foreign <= MAX_ANCESTORS && size(tx) + bytes <= MAX_PACKAGE_BYTES && bear, above;
  }

  /** What the climb finds is relied on, and all that is surely relied on, unless it found as many as it
      has steps. */
  lemma ClimbBounds(v: View, tx: Tx)
    requires Indexed(v.s)
    ensures var found := Up(v, tx, {}, MAX_CLIMB);
            found <= Ancestors(v, tx) && (SureAncestors(v, tx) <= found || |found| >= MAX_CLIMB)
  {
    var found := Up(v, tx, {}, MAX_CLIMB);
    var cut := UpClimbs(v, tx, {}, MAX_CLIMB);
    if !cut {
      ReachLeast(v.s.txs.Keys, SureEdges(v), SureParents(v, tx), found);
    }
  }

  ghost function QueuedBy(txs: Txs, a: Address): (ds: set<Digest>) {
    set h | h in txs && txs[h].sender == a
  }

  /** A climb that ran out of steps has met too many of other senders. */
  lemma CutIsRefused(v: View, size: Measure, tx: Tx, found: set<Digest>)
    requires found <= v.s.txs.Keys && |found| >= MAX_CLIMB && |QueuedBy(v.s.txs, tx.sender)| <= 64
    ensures !Light(v, size, tx, found)
  {
    var foreign := Foreign(v.s.txs, tx.sender, found);
    SubsetSmaller(found - foreign, QueuedBy(v.s.txs, tx.sender));
    assert found == foreign + (found - foreign);
  }

  /** So what the limits let in was weighed with all that it surely relies on: running out of steps never
      decides. */
  lemma LetInWeighed(v: View, size: Measure, tx: Tx)
    requires Indexed(v.s) && |QueuedBy(v.s.txs, tx.sender)| <= 64 && Light(v, size, tx, Up(v, tx, {}, MAX_CLIMB))
    ensures SureAncestors(v, tx) <= Up(v, tx, {}, MAX_CLIMB) <= Ancestors(v, tx)
  {
    ClimbBounds(v, tx);
    if |Up(v, tx, {}, MAX_CLIMB)| >= MAX_CLIMB {
      CutIsRefused(v, size, tx, Up(v, tx, {}, MAX_CLIMB));
    }
  }

  /** Relying on less is never too much. */
  lemma LessIsLight(v: View, size: Measure, tx: Tx, few: set<Digest>, ds: set<Digest>)
    requires few <= ds && Light(v, size, tx, ds)
    ensures Light(v, size, tx, few)
  {
    SubsetSmaller(Foreign(v.s.txs, tx.sender, few), Foreign(v.s.txs, tx.sender, ds));
    SumShrinks(Only(v.s.txs, few), Only(v.s.txs, ds), size);
  }

  /** Whoever is refused does rely on too much. */
  lemma RefusedRightly(v: View, size: Measure, tx: Tx)
    requires Indexed(v.s) && Light(v, size, tx, Ancestors(v, tx))
    ensures Light(v, size, tx, Up(v, tx, {}, MAX_CLIMB))
  {
    ClimbBounds(v, tx);
    LessIsLight(v, size, tx, Up(v, tx, {}, MAX_CLIMB), Ancestors(v, tx));
  }

  /** No sum of one sender's costs passes what it has confirmed without one of them doing so alone. */
  ghost predicate Plain(v: View, tx: Tx) {
    (Lacks(v, tx) ==> SurelyLacks(v, tx)) && forall d :: d in v.s.txs && Lacks(v, v.s.txs[d]) ==> SurelyLacks(v, v.s.txs[d])
  }

  lemma PlainIsSure(v: View, tx: Tx)
    requires Plain(v, tx)
    ensures Ancestors(v, tx) <= SureAncestors(v, tx)
  {
    UpWithin(v);
    forall m | m in v.s.txs.Keys ensures UpEdges(v)(m) <= SureEdges(v)(m) {
    }
    ReachMore(v.s.txs.Keys, UpEdges(v), SureEdges(v), Parents(v, tx), SureParents(v, tx));
  }

  /** Then the verdict is that on all a newcomer relies on. */
  lemma PlainDecides(v: View, size: Measure, tx: Tx)
    requires Indexed(v.s) && |QueuedBy(v.s.txs, tx.sender)| <= 64 && Plain(v, tx)
    ensures Light(v, size, tx, Up(v, tx, {}, MAX_CLIMB)) <==> Light(v, size, tx, Ancestors(v, tx))
  {
    var found, all := Up(v, tx, {}, MAX_CLIMB), Ancestors(v, tx);
    if Light(v, size, tx, found) {
      PlainIsSure(v, tx);
      LetInWeighed(v, size, tx);
      assert found == all;
    }
    if Light(v, size, tx, all) {
      RefusedRightly(v, size, tx);
    }
  }
}
