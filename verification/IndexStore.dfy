/** The index maintenance loops, one block at a time. */
module IndexStore {
  import opened Bytes
  import opened Transactions
  import opened Indexes

  method IndexTxs(id: Tx -> Digest, idx: TxIndex, b: Block) returns (r: TxIndex)
    ensures r == Indexed(id, idx, b, |b.txs|)
  {
    r := idx;
    for i := 0 to |b.txs|
      invariant r == Indexed(id, idx, b, i)
    {
      var key := id(b.txs[i]);
      if key !in r {
        r := r[key := TxLoc(b.index, i)];
      }
    }
  }

  method UnindexTxs(id: Tx -> Digest, idx: TxIndex, b: Block) returns (r: TxIndex)
    ensures r == Unindexed(id, idx, b, |b.txs|)
  {
    r := idx;
    for i := 0 to |b.txs|
      invariant r == Unindexed(id, idx, b, i)
    {
      var key := id(b.txs[i]);
      if key in r && r[key].height == b.index {
        r := r - {key};
      }
    }
  }

  /** One more place for every address of a transaction. */
  method AddPlace(idx: AddrIndex, addrs: set<Address>, loc: TxLoc) returns (r: AddrIndex)
    ensures forall a :: Placed(idx, r, addrs, loc, a)
  {
    r := idx;
    var left := addrs;
    while left != {}
      invariant left <= addrs
      invariant forall a :: Placed(idx, r, addrs - left, loc, a)
      decreases left
    {
      var a :| a in left;
      assert Placed(idx, r, addrs - left, loc, a);
      var next := r[a := LocsOf(r, a) + [loc]];
      forall k ensures Placed(idx, next, addrs - (left - {a}), loc, k) {
        assert Placed(idx, r, addrs - left, loc, k);
      }
      r := next;
      left := left - {a};
    }
    assert addrs - {} == addrs;
  }

  ghost predicate Placed(idx: AddrIndex, r: AddrIndex, addrs: set<Address>, loc: TxLoc, a: Address) {
    && LocsOf(r, a) == LocsOf(idx, a) + (if a in addrs then [loc] else [])
    && (a in r <==> a in idx || a in addrs)
  }

  ghost predicate IndexedSoFar(touch: Touch, idx: AddrIndex, blocks: seq<Block>, b: Block, n: nat, a: Address)
    requires n <= |b.txs|
  {
    var locs := HistoryOfAddress(touch, blocks, a) + Appearances(touch, b, n, a);
    LocsOf(idx, a) == locs && (a in idx <==> locs != [])
  }

  method IndexAddresses(touch: Touch, idx: AddrIndex, b: Block, ghost blocks: seq<Block>) returns (r: AddrIndex)
    requires IndexesAddresses(touch, idx, blocks)
    ensures IndexesAddresses(touch, r, blocks + [b])
  {
    r := idx;
    forall a ensures IndexedSoFar(touch, r, blocks, b, 0, a) {
      PlacesStart(touch, idx, blocks, b, a);
    }
    for i := 0 to |b.txs|
      invariant forall a :: IndexedSoFar(touch, r, blocks, b, i, a)
    {
      var next := AddPlace(r, touch(b.txs[i]), TxLoc(b.index, i));
      ghost var k := i + 1;
      forall a ensures IndexedSoFar(touch, next, blocks, b, k, a) {
        PlaceStep(touch, r, next, blocks, b, i, a);
      }
      r := next;
    }
    forall a ensures IndexesAddress(touch, r, blocks + [b], a) {
      PlacesDone(touch, r, blocks, b, a);
    }
  }

  lemma PlacesStart(touch: Touch, idx: AddrIndex, blocks: seq<Block>, b: Block, a: Address)
    requires IndexesAddresses(touch, idx, blocks)
    ensures IndexedSoFar(touch, idx, blocks, b, 0, a)
  {
    assert IndexesAddress(touch, idx, blocks, a);
    assert HistoryOfAddress(touch, blocks, a) + [] == HistoryOfAddress(touch, blocks, a);
  }

  lemma PlaceStep(touch: Touch, idx: AddrIndex, next: AddrIndex, blocks: seq<Block>, b: Block, i: nat, a: Address)
    requires i < |b.txs| && IndexedSoFar(touch, idx, blocks, b, i, a)
    requires Placed(idx, next, touch(b.txs[i]), TxLoc(b.index, i), a)
    ensures IndexedSoFar(touch, next, blocks, b, i + 1, a)
  {
    var past, more := HistoryOfAddress(touch, blocks, a), if a in touch(b.txs[i]) then [TxLoc(b.index, i)] else [];
    assert past + (Appearances(touch, b, i, a) + more) == (past + Appearances(touch, b, i, a)) + more;
  }

  lemma PlacesDone(touch: Touch, idx: AddrIndex, blocks: seq<Block>, b: Block, a: Address)
    requires IndexedSoFar(touch, idx, blocks, b, |b.txs|, a)
    ensures IndexesAddress(touch, idx, blocks + [b], a)
  {
    assert (blocks + [b])[..|blocks|] == blocks;
  }

  method KeepElsewhere(locs: seq<TxLoc>, h: Word) returns (kept: seq<TxLoc>)
    ensures kept == Elsewhere(locs, h)
  {
    kept := [];
    for i := 0 to |locs|
      invariant kept == Elsewhere(locs[..i], h)
    {
      assert locs[..i + 1][..i] == locs[..i];
      if locs[i].height != h {
        kept := kept + [locs[i]];
      }
    }
    assert locs[..|locs|] == locs;
  }

  lemma {:induction false} ElsewhereTwice(locs: seq<TxLoc>, h: Word)
    ensures Elsewhere(Elsewhere(locs, h), h) == Elsewhere(locs, h)
    decreases |locs|
  {
    if locs != [] {
      var n := |locs| - 1;
      var rest := Elsewhere(locs[..n], h);
      ElsewhereTwice(locs[..n], h);
      if locs[n].height != h {
        var kept := rest + [locs[n]];
        assert Elsewhere(locs, h) == kept && kept[..|kept| - 1] == rest && kept[|kept| - 1] == locs[n];
        assert Elsewhere(kept, h) == Elsewhere(rest, h) + [locs[n]];
      } else {
        assert Elsewhere(locs, h) == rest + [] == rest;
      }
    }
  }

  /** The entries of some addresses filtered, empty ones removed. */
  ghost predicate Filtered(idx: AddrIndex, r: AddrIndex, addrs: set<Address>, h: Word, a: Address) {
    if a in addrs then LocsOf(r, a) == Elsewhere(LocsOf(idx, a), h) && (a in r <==> LocsOf(r, a) != [])
    else LocsOf(r, a) == LocsOf(idx, a) && (a in r <==> a in idx)
  }

  method DropPlaces(idx: AddrIndex, addrs: set<Address>, h: Word) returns (r: AddrIndex)
    ensures forall a :: Filtered(idx, r, addrs, h, a)
  {
    r := idx;
    var left := addrs;
    while left != {}
      invariant left <= addrs
      invariant forall a :: Filtered(idx, r, addrs - left, h, a)
      decreases left
    {
      var a :| a in left;
      assert Filtered(idx, r, addrs - left, h, a);
      var kept := KeepElsewhere(LocsOf(r, a), h);
      var next := if kept == [] then r - {a} else r[a := kept];
      forall k ensures Filtered(idx, next, addrs - (left - {a}), h, k) {
        assert Filtered(idx, r, addrs - left, h, k);
      }
      r := next;
      left := left - {a};
    }
    assert addrs - {} == addrs;
  }

  ghost function AddressesUpTo(touch: Touch, b: Block, n: nat): (s: set<Address>)
    requires n <= |b.txs|
  {
    if n == 0 then {} else AddressesUpTo(touch, b, n - 1) + touch(b.txs[n - 1])
  }

  lemma FilteredTwice(idx: AddrIndex, r: AddrIndex, r': AddrIndex, s: set<Address>, t: set<Address>, h: Word, a: Address)
    requires Filtered(idx, r, s, h, a) && Filtered(r, r', t, h, a)
    ensures Filtered(idx, r', s + t, h, a)
  {
    ElsewhereTwice(LocsOf(idx, a), h);
  }

  method UnindexAddresses(touch: Touch, idx: AddrIndex, b: Block, ghost blocks: seq<Block>) returns (r: AddrIndex)
    requires IndexesAddresses(touch, idx, blocks + [b])
    requires forall i :: 0 <= i < |blocks| ==> blocks[i].index != b.index
    ensures IndexesAddresses(touch, r, blocks)
  {
    r := idx;
    for i := 0 to |b.txs|
      invariant forall a :: Filtered(idx, r, AddressesUpTo(touch, b, i), b.index, a)
    {
      var next := DropPlaces(r, touch(b.txs[i]), b.index);
      ghost var k := i + 1;
      forall a ensures Filtered(idx, next, AddressesUpTo(touch, b, k), b.index, a) {
        FilteredTwice(idx, r, next, AddressesUpTo(touch, b, i), touch(b.txs[i]), b.index, a);
      }
      r := next;
    }
    forall a ensures IndexesAddress(touch, r, blocks, a) {
      assert Filtered(idx, r, AddressesUpTo(touch, b, |b.txs|), b.index, a);
      TipGone(touch, idx, r, blocks, b, a);
    }
  }

  lemma {:induction false} AppearsWhereNamed(touch: Touch, b: Block, n: nat, a: Address)
    requires n <= |b.txs|
    ensures Appearances(touch, b, n, a) != [] <==> a in AddressesUpTo(touch, b, n)
    decreases n
  {
    if n > 0 {
      AppearsWhereNamed(touch, b, n - 1, a);
    }
  }

  lemma TipGone(touch: Touch, idx: AddrIndex, r: AddrIndex, blocks: seq<Block>, b: Block, a: Address)
    requires IndexesAddress(touch, idx, blocks + [b], a) && forall i :: 0 <= i < |blocks| ==> blocks[i].index != b.index
    requires Filtered(idx, r, AddressesUpTo(touch, b, |b.txs|), b.index, a)
    ensures IndexesAddress(touch, r, blocks, a)
  {
    DropTip(touch, blocks, b, a);
    AppearsWhereNamed(touch, b, |b.txs|, a);
    assert (blocks + [b])[..|blocks|] == blocks;
    assert LocsOf(idx, a) == HistoryOfAddress(touch, blocks + [b], a);
  }
}
