/** The conservation rule as it is checked: over the accounts the undo log names, in wrapping
    64-bit arithmetic.  It decides exactly the rule stated over the whole ledger. */
module Conservation {
  import opened Bytes
  import opened Transactions
  import opened Ledger
  import opened LedgerSums
  import opened LedgerLaws
  import opened AssetLaws
  import opened BlockLedger
  import opened LedgerStore

  /** Each named account as it was before the log: its first entry. */
  method TouchedBefore(undo: seq<UndoEntry>, ghost base: State, ghost s: State) returns (before: map<Address, Account>)
    requires Undone(s, undo) == base && WellKept(undo)
    ensures before.Keys == Named(undo)
    ensures forall a :: a in before ==> before[a] == Get(base, a)
  {
    before := map[];
    for i := 0 to |undo|
      invariant before.Keys == Named(undo[..i])
      invariant forall a :: a in before ==> before[a] == Get(base, a)
    {
      assert undo[..i + 1] == undo[..i] + [undo[i]];
      NamedSnoc(undo[..i], undo[i]);
      if undo[i].addr !in before {
        FirstEntry(s, undo, i);
        before := before[undo[i].addr := undo[i].prev];
      }
    }
    assert undo[..|undo|] == undo;
  }

  lemma SumStep(sum: int, more: int, left: int, total: int)
    requires Congruent(sum + left, total)
    ensures Congruent((sum + more) % U64_LIMIT + (left - more), total)
  {
  }

  /** The coin of the named accounts, summed in 64 bits. */
  method SumBalances(accounts: State, keys: set<Address>) returns (sum: Word)
    ensures Congruent(sum, SumOver(keys, accounts, Coin()))
  {
    sum := 0;
    var left := keys;
    ghost var total := SumOver(keys, accounts, Coin());
    while left != {}
      invariant left <= keys && Congruent(sum + SumOver(left, accounts, Coin()), total)
      decreases left
    {
      var a :| a in left;
      SumOverTakes(left, accounts, Coin(), a);
      SumStep(sum, Get(accounts, a).balance, SumOver(left, accounts, Coin()), total);
      sum := (sum + Get(accounts, a).balance) % U64_LIMIT;
      left := left - {a};
    }
  }

  lemma DeltaStep(after: int, before: int, x: int, y: int, delta: int)
    requires Congruent(after, x) && Congruent(before, y) && delta == x - y
    ensures Congruent((after - before) % U64_LIMIT, delta)
  {
  }

  /** The net change in coin over the named accounts, as a 64-bit word. */
  method CoinDelta(state: State, before: map<Address, Account>, ghost base: State) returns (delta: Word)
    requires forall a :: a in before ==> before[a] == Get(base, a)
    requires AgreeBut(before.Keys, base, state)
    ensures Congruent(delta, Coins(state) - Coins(base))
  {
    var sumBefore := SumBalances(before, before.Keys);
    var sumAfter := SumBalances(state, before.Keys);
    SumOverSame(before.Keys, before, base, Coin());
    SumOverMoves(before.Keys, base, state, Coin());
    DeltaStep(sumAfter, sumBefore, SumOver(before.Keys, state, Coin()), SumOver(before.Keys, base, Coin()),
              Coins(state) - Coins(base));
    delta := (sumAfter - sumBefore) % U64_LIMIT;
  }

  type Deltas = map<Bytes, Word>

  function DeltaOf(d: Deltas, id: Bytes): (n: Word) {
    if id in d then d[id] else 0
  }

  function Bumped(d: Deltas, id: Bytes, step: int): (r: Deltas)
    ensures DeltaOf(r, id) == (DeltaOf(d, id) + step) % U64_LIMIT
    ensures forall other :: other != id ==> DeltaOf(r, other) == DeltaOf(d, other)
  {
    d[id := (DeltaOf(d, id) + step) % U64_LIMIT]
  }

  function HeldIn(assets: map<Bytes, Word>, id: Bytes): (n: Word) {
    if id in assets then assets[id] else 0
  }

  function Signed(n: Word, add: bool): (d: int) {
    if add then n else 0 - n as int
  }

  ghost predicate AddedSoFar(d: Deltas, r: Deltas, assets: map<Bytes, Word>, add: bool, left: set<Bytes>, id: Bytes) {
    Congruent(DeltaOf(r, id), DeltaOf(d, id) + if id in left then 0 else Signed(HeldIn(assets, id), add))
  }

  lemma BumpStep(d: int, r: int, step: int)
    requires Congruent(r, d)
    ensures Congruent((r + step) % U64_LIMIT, d + step)
  {
  }

  /** Adds or subtracts every holding of one account. */
  method AddHoldings(d: Deltas, assets: map<Bytes, Word>, add: bool) returns (r: Deltas)
    ensures forall id :: Congruent(DeltaOf(r, id), DeltaOf(d, id) + Signed(HeldIn(assets, id), add))
  {
    r := d;
    var left := assets.Keys;
    while left != {}
      invariant left <= assets.Keys
      invariant forall id :: AddedSoFar(d, r, assets, add, left, id)
      decreases left
    {
      var id :| id in left;
      var next := Bumped(r, id, Signed(assets[id], add));
      forall k ensures AddedSoFar(d, next, assets, add, left - {id}, k) {
        assert AddedSoFar(d, r, assets, add, left, k);
        if k == id {
          BumpStep(DeltaOf(d, id), DeltaOf(r, id), Signed(assets[id], add));
        }
      }
      r := next;
      left := left - {id};
    }
    forall id ensures Congruent(DeltaOf(r, id), DeltaOf(d, id) + Signed(HeldIn(assets, id), add)) {
      assert AddedSoFar(d, r, assets, add, {}, id);
    }
  }

  /** Entries that came out at zero dropped. */
  method DropZeros(d: Deltas) returns (r: Deltas)
    ensures forall id :: DeltaOf(r, id) == DeltaOf(d, id)
    ensures forall id :: id in r <==> DeltaOf(d, id) != 0
  {
    r := d;
    var left := d.Keys;
    while left != {}
      invariant left <= d.Keys
      invariant forall id :: DeltaOf(r, id) == DeltaOf(d, id)
      invariant forall id :: id in r <==> id in left || DeltaOf(d, id) != 0
      decreases left
    {
      var id :| id in left;
      if d[id] == 0 {
        r := r - {id};
      }
      left := left - {id};
    }
  }

  ghost function UnitsOver(keys: set<Address>, s: State, id: Bytes): (n: nat) {
    SumOver(keys, s, Holding(id))
  }

  ghost predicate DeltasSoFar(d: Deltas, keys: set<Address>, left: set<Address>, base: State, state: State, id: Bytes) {
    Congruent(DeltaOf(d, id) + (UnitsOver(left, state, id) - UnitsOver(left, base, id)),
              UnitsOver(keys, state, id) - UnitsOver(keys, base, id))
  }

  lemma HoldingsStep(d: int, d1: int, d2: int, was: int, now: int, left: int, total: int)
    requires Congruent(d + left, total) && Congruent(d1, d - was) && Congruent(d2, d1 + now)
    ensures Congruent(d2 + (left - now + was), total)
  {
  }

  lemma DeltasStep(d: Deltas, d1: Deltas, d2: Deltas, keys: set<Address>, left: set<Address>, a: Address,
                   base: State, state: State, id: Bytes)
    requires a in left && DeltasSoFar(d, keys, left, base, state, id)
    requires Congruent(DeltaOf(d1, id), DeltaOf(d, id) + Signed(Held(Get(base, a), id), false))
    requires Congruent(DeltaOf(d2, id), DeltaOf(d1, id) + Signed(Held(Get(state, a), id), true))
    ensures DeltasSoFar(d2, keys, left - {a}, base, state, id)
  {
    SumOverTakes(left, base, Holding(id), a);
    SumOverTakes(left, state, Holding(id), a);
    HoldingsStep(DeltaOf(d, id), DeltaOf(d1, id), DeltaOf(d2, id), Held(Get(base, a), id), Held(Get(state, a), id),
                 UnitsOver(left, state, id) - UnitsOver(left, base, id),
                 UnitsOver(keys, state, id) - UnitsOver(keys, base, id));
  }

  lemma DeltasDone(d: Deltas, keys: set<Address>, base: State, state: State, id: Bytes)
    requires AgreeBut(keys, base, state) && DeltasSoFar(d, keys, {}, base, state, id)
    ensures Congruent(DeltaOf(d, id), Units(state, id) - Units(base, id))
  {
    SumOverMoves(keys, base, state, Holding(id));
  }

  /** One account's part in the deltas. */
  method AccountDeltas(d: Deltas, was: Account, now: Account) returns (d1: Deltas, d2: Deltas)
    ensures forall id :: Congruent(DeltaOf(d1, id), DeltaOf(d, id) + Signed(Held(was, id), false))
    ensures forall id :: Congruent(DeltaOf(d2, id), DeltaOf(d1, id) + Signed(Held(now, id), true))
  {
    d1 := AddHoldings(d, was.assets, false);
    forall id ensures Congruent(DeltaOf(d1, id), DeltaOf(d, id) + Signed(Held(was, id), false)) {
      assert HeldIn(was.assets, id) == Held(was, id);
    }
    d2 := AddHoldings(d1, now.assets, true);
    forall id ensures Congruent(DeltaOf(d2, id), DeltaOf(d1, id) + Signed(Held(now, id), true)) {
      assert HeldIn(now.assets, id) == Held(now, id);
    }
  }

  /** The net change per asset over the named accounts. */
  method AssetDeltas(state: State, before: map<Address, Account>, ghost base: State) returns (got: Deltas)
    requires forall a :: a in before ==> before[a] == Get(base, a)
    requires AgreeBut(before.Keys, base, state)
    ensures forall id :: Congruent(DeltaOf(got, id), Units(state, id) - Units(base, id))
    ensures forall id :: id in got <==> DeltaOf(got, id) != 0
  {
    var d: Deltas := map[];
    var left, keys := before.Keys, before.Keys;
    while left != {}
      invariant left <= keys
      invariant forall id :: DeltasSoFar(d, keys, left, base, state, id)
      decreases left
    {
      var a :| a in left;
      var d1, d2 := AccountDeltas(d, before[a], Get(state, a));
      forall id ensures DeltasSoFar(d2, keys, left - {a}, base, state, id) {
        DeltasStep(d, d1, d2, keys, left, a, base, state, id);
      }
      d := d2;
      left := left - {a};
    }
    got := DropZeros(d);
    forall id ensures Congruent(DeltaOf(got, id), Units(state, id) - Units(base, id)) {
      DeltasDone(d, keys, base, state, id);
    }
  }

  /** The consensus rules count as minted what the ledger's rules do. */
  ghost predicate MintsAs(c: Consensus, r: Rules) {
    forall tx, id {:trigger AssetLaws.Minted(r, tx, id)} :: c.minted(tx, id) == AssetLaws.Minted(r, tx, id)
  }

  method WantTx(r: Rules, tx: Tx, d: Deltas) returns (next: Deltas)
    ensures forall id :: Congruent(DeltaOf(next, id), DeltaOf(d, id) + AssetLaws.Minted(r, tx, id))
  {
    var id, step: int := [], 0;
    if tx.issue.Some? {
      id, step := IssuedId(r, tx), tx.issue.value.supply;
    } else if tx.assetOp.Some? {
      id := tx.assetId;
      if tx.assetOp.value.op == MINT {
        step := tx.assetOp.value.amount;
      } else if tx.assetOp.value.op == BURN {
        step := 0 - tx.assetOp.value.amount as int;
      }
    }
    assert forall k :: AssetLaws.Minted(r, tx, k) == if k == id then step else 0;
    next := BumpOne(d, id, step);
  }

  method BumpOne(d: Deltas, id: Bytes, step: int) returns (next: Deltas)
    ensures forall k :: Congruent(DeltaOf(next, k), DeltaOf(d, k) + if k == id then step else 0)
  {
    next := Bumped(d, id, step);
    BumpStep(DeltaOf(d, id), DeltaOf(d, id), step);
  }

  lemma WantStep(c: Consensus, r: Rules, was: Deltas, now: Deltas, txs: seq<Tx>, n: nat, id: Bytes)
    requires 1 <= n < |txs| && MintsAs(c, r)
    requires Congruent(DeltaOf(was, id), MintedBy(c, txs, n, id))
    requires Congruent(DeltaOf(now, id), DeltaOf(was, id) + AssetLaws.Minted(r, txs[n], id))
    ensures Congruent(DeltaOf(now, id), MintedBy(c, txs, n + 1, id))
  {
    CongruentShift(DeltaOf(was, id), MintedBy(c, txs, n, id), AssetLaws.Minted(r, txs[n], id));
    CongruentChain(DeltaOf(now, id), DeltaOf(was, id) + AssetLaws.Minted(r, txs[n], id), MintedBy(c, txs, n + 1, id));
  }

  /** What the block's issuances and management operations may change. */
  method WantedDeltas(r: Rules, txs: seq<Tx>, ghost c: Consensus) returns (want: Deltas)
    requires txs != [] && MintsAs(c, r)
    ensures forall id :: Congruent(DeltaOf(want, id), MintedBy(c, txs, |txs|, id))
    ensures forall id :: id in want <==> DeltaOf(want, id) != 0
  {
    var d: Deltas := map[];
    for i := 1 to |txs|
      invariant forall id :: Congruent(DeltaOf(d, id), MintedBy(c, txs, i, id))
    {
      var next := WantTx(r, txs[i], d);
      forall id ensures Congruent(DeltaOf(next, id), MintedBy(c, txs, i + 1, id)) {
        WantStep(c, r, d, next, txs, i, id);
      }
      d := next;
    }
    want := DropZeros(d);
  }

  /** Two sets of deltas, zeros dropped, agree everywhere. */
  method SameDeltas(got: Deltas, want: Deltas) returns (same: bool)
    requires forall id :: id in got <==> DeltaOf(got, id) != 0
    requires forall id :: id in want <==> DeltaOf(want, id) != 0
    ensures same <==> forall id :: DeltaOf(got, id) == DeltaOf(want, id)
  {
    var left := want.Keys;
    while left != {}
      invariant left <= want.Keys
      invariant forall id :: id in want && id !in left ==> DeltaOf(got, id) == DeltaOf(want, id)
      decreases left
    {
      var id :| id in left;
      if DeltaOf(got, id) != want[id] {
        assert DeltaOf(got, id) != DeltaOf(want, id);
        return false;
      }
      left := left - {id};
    }
    left := got.Keys;
    while left != {}
      invariant left <= got.Keys
      invariant forall id :: id in got && id !in left ==> id in want
      decreases left
    {
      var id :| id in left;
      if id !in want {
        assert DeltaOf(got, id) != DeltaOf(want, id);
        return false;
      }
      left := left - {id};
    }
    return true;
  }

  /** The asset half of the check. */
  method CheckAssets(r: Rules, state: State, before: map<Address, Account>, txs: seq<Tx>, ghost base: State, ghost c: Consensus)
    returns (ok: bool)
    requires forall a :: a in before ==> before[a] == Get(base, a)
    requires AgreeBut(before.Keys, base, state) && txs != [] && MintsAs(c, r)
    ensures ok <==> AssetsConserved(c, base, state, txs)
  {
    var want := WantedDeltas(r, txs, c);
    var got := AssetDeltas(state, before, base);
    ok := SameDeltas(got, want);
    forall id
      ensures DeltaOf(got, id) == DeltaOf(want, id) <==> AssetConserved(c, base, state, txs, id)
    {
      SameWords(DeltaOf(got, id), Units(state, id) - Units(base, id), DeltaOf(want, id), MintedBy(c, txs, |txs|, id));
    }
  }

  /** The check over the accounts the log names decides the rule over the whole ledger. */
  method CheckConservation(r: Rules, st: Accounts, txs: seq<Tx>, reward: Word, burned: Word, ghost c: Consensus) returns (ok: bool)
    requires st.Valid() && txs != [] && MintsAs(c, r)
    ensures ok <==> CoinConserved(st.base, st.state, reward, burned) && AssetsConserved(c, st.base, st.state, txs)
  {
    UndoneAgrees(st.state, st.undo);
    var before := TouchedBefore(st.undo, st.base, st.state);
    var delta := CoinDelta(st.state, before, st.base);
    CompareWords(delta, Coins(st.state) - Coins(st.base), reward - burned);
    if delta != (reward - burned) % U64_LIMIT {
      return false;
    }
    ok := CheckAssets(r, st.state, before, txs, st.base, c);
  }

  lemma CompareWords(w: Word, x: int, y: int)
    requires Congruent(w, x)
    ensures w == y % U64_LIMIT <==> Congruent(x, y)
  {
  }

  lemma SameWords(v: Word, x: int, w: Word, y: int)
    requires Congruent(v, x) && Congruent(w, y)
    ensures v == w <==> Congruent(x, y)
  {
  }
}
