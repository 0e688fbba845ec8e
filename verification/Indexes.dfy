/** The indexes kept beside the chain: where each transaction and each address appears.  Indexing
    a block and unindexing it from the tip are inverse. */
module Indexes {
  import opened Bytes
  import opened Transactions

  datatype TxLoc = TxLoc(height: Word, index: nat)

  type TxIndex = map<Digest, TxLoc>

  /** The first `n` transactions of a block indexed; a known id keeps its first place. */
  function Indexed(id: Tx -> Digest, idx: TxIndex, b: Block, n: nat): (r: TxIndex)
    requires n <= |b.txs|
  {
    if n == 0 then idx
    else
      var done, key := Indexed(id, idx, b, n - 1), id(b.txs[n - 1]);
      if key in done then done else done[key := TxLoc(b.index, n - 1)]
  }

  /** The index of a whole chain, built from scratch. */
  function TxIndexOf(id: Tx -> Digest, blocks: seq<Block>): (r: TxIndex) {
    if blocks == [] then map[]
    else
      var n := |blocks| - 1;
      Indexed(id, TxIndexOf(id, blocks[..n]), blocks[n], |blocks[n].txs|)
  }

  /** A block's transactions dropped, as far as they point at that block. */
  function Unindexed(id: Tx -> Digest, idx: TxIndex, b: Block, n: nat): (r: TxIndex)
    requires n <= |b.txs|
  {
    if n == 0 then idx
    else
      var done, key := Unindexed(id, idx, b, n - 1), id(b.txs[n - 1]);
      if key in done && done[key].height == b.index then done - {key} else done
  }

  /** Indexing a block adds entries at its own height for its own ids, and nothing else. */
  lemma {:induction false} IndexedEntries(id: Tx -> Digest, idx: TxIndex, b: Block, n: nat, key: Digest)
    requires n <= |b.txs|
    ensures key in idx ==> key in Indexed(id, idx, b, n) && Indexed(id, idx, b, n)[key] == idx[key]
    ensures key !in idx && key in Indexed(id, idx, b, n) ==>
      Indexed(id, idx, b, n)[key].height == b.index && exists i :: 0 <= i < n && id(b.txs[i]) == key
    decreases n
  {
    if n > 0 {
      IndexedEntries(id, idx, b, n - 1, key);
    }
  }

  lemma {:induction false} UnindexedEntries(id: Tx -> Digest, idx: TxIndex, b: Block, n: nat, key: Digest)
    requires n <= |b.txs|
    ensures key in Unindexed(id, idx, b, n) <==>
      key in idx && !(idx[key].height == b.index && exists i :: 0 <= i < n && id(b.txs[i]) == key)
    ensures key in Unindexed(id, idx, b, n) ==> Unindexed(id, idx, b, n)[key] == idx[key]
    decreases n
  {
    if n > 0 {
      UnindexedEntries(id, idx, b, n - 1, key);
      UnindexedEntries(id, idx, b, n - 1, id(b.txs[n - 1]));
    }
  }

  /** No entry points at height `h`. */
  ghost predicate NoneAt(idx: TxIndex, h: Word) {
    forall key :: key in idx ==> idx[key].height != h
  }

  /** Unindexing a block from the tip undoes indexing it. */
  lemma UnindexUndoes(id: Tx -> Digest, idx: TxIndex, b: Block)
    requires NoneAt(idx, b.index)
    ensures Unindexed(id, Indexed(id, idx, b, |b.txs|), b, |b.txs|) == idx
  {
    var with := Indexed(id, idx, b, |b.txs|);
    var out := Unindexed(id, with, b, |b.txs|);
    forall key
      ensures key in out <==> key in idx
      ensures key in idx ==> out[key] == idx[key]
    {
      IndexedEntries(id, idx, b, |b.txs|, key);
      UnindexedEntries(id, with, b, |b.txs|, key);
    }
  }

  lemma {:induction false} IndexedHeights(id: Tx -> Digest, blocks: seq<Block>, h: Word)
    requires forall i :: 0 <= i < |blocks| ==> blocks[i].index != h
    ensures NoneAt(TxIndexOf(id, blocks), h)
    decreases |blocks|
  {
    if blocks != [] {
      var n := |blocks| - 1;
      IndexedHeights(id, blocks[..n], h);
      forall key | key in TxIndexOf(id, blocks) ensures TxIndexOf(id, blocks)[key].height != h {
        IndexedEntries(id, TxIndexOf(id, blocks[..n]), blocks[n], |blocks[n].txs|, key);
      }
    }
  }

  type AddrIndex = map<Address, seq<TxLoc>>

  /** Which addresses a transaction is listed under. */
  type Touch = Tx -> set<Address>

  function LocsOf(idx: AddrIndex, a: Address): (locs: seq<TxLoc>) {
    if a in idx then idx[a] else []
  }

  /** Where address `a` appears in the first `n` transactions of a block. */
  function Appearances(touch: Touch, b: Block, n: nat, a: Address): (locs: seq<TxLoc>)
    requires n <= |b.txs|
  {
    if n == 0 then []
    else Appearances(touch, b, n - 1, a) + if a in touch(b.txs[n - 1]) then [TxLoc(b.index, n - 1)] else []
  }

  /** Where an address appears in a whole chain. */
  function HistoryOfAddress(touch: Touch, blocks: seq<Block>, a: Address): (locs: seq<TxLoc>) {
    if blocks == [] then []
    else
      var n := |blocks| - 1;
      HistoryOfAddress(touch, blocks[..n], a) + Appearances(touch, blocks[n], |blocks[n].txs|, a)
  }

  /** An index holds exactly the addresses that appear, with all their places in order. */
  ghost predicate IndexesAddresses(touch: Touch, idx: AddrIndex, blocks: seq<Block>) {
    forall a :: IndexesAddress(touch, idx, blocks, a)
  }

  ghost predicate IndexesAddress(touch: Touch, idx: AddrIndex, blocks: seq<Block>, a: Address) {
    LocsOf(idx, a) == HistoryOfAddress(touch, blocks, a) && (a in idx <==> HistoryOfAddress(touch, blocks, a) != [])
  }

  /** Such an index is the only one. */
  lemma AddressIndexUnique(touch: Touch, idx: AddrIndex, idx': AddrIndex, blocks: seq<Block>)
    requires IndexesAddresses(touch, idx, blocks) && IndexesAddresses(touch, idx', blocks)
    ensures idx == idx'
  {
    forall a
      ensures a in idx <==> a in idx'
      ensures a in idx ==> idx[a] == idx'[a]
    {
      assert IndexesAddress(touch, idx, blocks, a) && IndexesAddress(touch, idx', blocks, a);
    }
  }

  /** Places at other heights. */
  function Elsewhere(locs: seq<TxLoc>, h: Word): (kept: seq<TxLoc>) {
    if locs == [] then []
    else Elsewhere(locs[..|locs| - 1], h) + if locs[|locs| - 1].height != h then [locs[|locs| - 1]] else []
  }

  lemma {:induction false} ElsewhereAll(locs: seq<TxLoc>, h: Word)
    requires forall i :: 0 <= i < |locs| ==> locs[i].height != h
    ensures Elsewhere(locs, h) == locs
    decreases |locs|
  {
    if locs != [] {
      ElsewhereAll(locs[..|locs| - 1], h);
    }
  }

  lemma {:induction false} ElsewhereSplits(xs: seq<TxLoc>, ys: seq<TxLoc>, h: Word)
    requires forall i :: 0 <= i < |ys| ==> ys[i].height == h
    ensures Elsewhere(xs + ys, h) == Elsewhere(xs, h)
    decreases |ys|
  {
    if ys == [] {
      assert xs + ys == xs;
    } else {
      var n := |ys| - 1;
      ElsewhereSplits(xs, ys[..n], h);
      assert (xs + ys)[..|xs + ys| - 1] == xs + ys[..n];
    }
  }

  lemma {:induction false} AppearHere(touch: Touch, b: Block, n: nat, a: Address)
    requires n <= |b.txs|
    ensures forall i :: 0 <= i < |Appearances(touch, b, n, a)| ==> Appearances(touch, b, n, a)[i].height == b.index
    ensures Appearances(touch, b, n, a) != [] <==> exists i :: 0 <= i < n && a in touch(b.txs[i])
    decreases n
  {
    if n > 0 {
      AppearHere(touch, b, n - 1, a);
    }
  }

  lemma {:induction false} AppearBelow(touch: Touch, blocks: seq<Block>, a: Address, h: Word)
    requires forall i :: 0 <= i < |blocks| ==> blocks[i].index != h
    ensures forall i :: 0 <= i < |HistoryOfAddress(touch, blocks, a)| ==> HistoryOfAddress(touch, blocks, a)[i].height != h
    decreases |blocks|
  {
    if blocks != [] {
      var n := |blocks| - 1;
      AppearBelow(touch, blocks[..n], a, h);
      AppearHere(touch, blocks[n], |blocks[n].txs|, a);
    }
  }

  /** Dropping a tip block's places leaves the places of the chain below it. */
  lemma DropTip(touch: Touch, blocks: seq<Block>, b: Block, a: Address)
    requires forall i :: 0 <= i < |blocks| ==> blocks[i].index != b.index
    ensures Elsewhere(HistoryOfAddress(touch, blocks + [b], a), b.index) == HistoryOfAddress(touch, blocks, a)
  {
    assert (blocks + [b])[..|blocks|] == blocks;
    AppearHere(touch, b, |b.txs|, a);
    AppearBelow(touch, blocks, a, b.index);
    ElsewhereSplits(HistoryOfAddress(touch, blocks, a), Appearances(touch, b, |b.txs|, a), b.index);
    ElsewhereAll(HistoryOfAddress(touch, blocks, a), b.index);
  }
}
