/** What the indexes tell: where a transaction is, and where an address appears. */
module IndexLaws {
  import opened Bytes
  import opened Seqs
  import opened Transactions
  import opened Indexes

  /** A transaction of the chain with this id. */
  ghost predicate StandsAt(id: Tx -> Digest, blocks: seq<Block>, i: nat, j: nat, key: Digest) {
    i < |blocks| && j < |blocks[i].txs| && id(blocks[i].txs[j]) == key
  }

  ghost predicate HeightsAre(blocks: seq<Block>) {
    forall i :: 0 <= i < |blocks| ==> blocks[i].index == i
  }

  /** The first of the first `n` transactions with this id, if any, and where it is put. */
  lemma {:induction false} IndexedFirst(id: Tx -> Digest, idx: TxIndex, b: Block, n: nat, key: Digest)
    requires n <= |b.txs| && key !in idx
    ensures key in Indexed(id, idx, b, n) <==> exists j :: 0 <= j < n && id(b.txs[j]) == key
    ensures key in Indexed(id, idx, b, n) ==>
      var loc := Indexed(id, idx, b, n)[key];
      && loc.height == b.index && loc.index < n && id(b.txs[loc.index]) == key
      && forall j :: 0 <= j < loc.index ==> id(b.txs[j]) != key
    decreases n
  {
    if n > 0 {
      IndexedFirst(id, idx, b, n - 1, key);
    }
  }

  /** The index of a chain finds an id exactly when a transaction of the chain has it, at the first place
      where one does. */
  lemma {:induction false} IndexFinds(id: Tx -> Digest, blocks: seq<Block>, key: Digest)
    requires HeightsAre(blocks)
    ensures key in TxIndexOf(id, blocks) <==> exists i: nat, j: nat :: StandsAt(id, blocks, i, j, key)
    ensures key in TxIndexOf(id, blocks) ==>
      var loc := TxIndexOf(id, blocks)[key];
      && StandsAt(id, blocks, loc.height, loc.index, key)
      && forall i: nat, j: nat :: StandsAt(id, blocks, i, j, key) ==> loc.height < i || (loc.height == i && loc.index <= j)
    decreases |blocks|
  {
    if blocks != [] {
      var n := |blocks| - 1;
      var front, b := blocks[..n], blocks[n];
      IndexFinds(id, front, key);
      forall i: nat, j: nat ensures StandsAt(id, blocks, i, j, key) <==> StandsAt(id, front, i, j, key) || (i == n && j < |b.txs| && id(b.txs[j]) == key) {
      }
      var idx := TxIndexOf(id, front);
      if key in idx {
        IndexedEntries(id, idx, b, |b.txs|, key);
      } else {
        IndexedFirst(id, idx, b, |b.txs|, key);
      }
      LastFinds(id, blocks, key);
    }
  }

  lemma LastFinds(id: Tx -> Digest, blocks: seq<Block>, key: Digest)
    requires blocks != []
    ensures (exists i: nat, j: nat :: StandsAt(id, blocks, i, j, key)) <==>
      var n := |blocks| - 1;
      (exists i: nat, j: nat :: StandsAt(id, blocks[..n], i, j, key)) || exists j :: 0 <= j < |blocks[n].txs| && id(blocks[n].txs[j]) == key
  {
    var n := |blocks| - 1;
    if i: nat, j: nat :| StandsAt(id, blocks, i, j, key) {
      if i < n {
        assert StandsAt(id, blocks[..n], i, j, key);
      }
    }
    if i: nat, j: nat :| StandsAt(id, blocks[..n], i, j, key) {
      assert StandsAt(id, blocks, i, j, key);
    }
    if j :| 0 <= j < |blocks[n].txs| && id(blocks[n].txs[j]) == key {
      assert StandsAt(id, blocks, n, j, key);
    }
  }

  /** A transaction of the chain that an address is listed for. */
  ghost predicate ListedAt(touch: Touch, blocks: seq<Block>, i: nat, j: nat, a: Address) {
    i < |blocks| && j < |blocks[i].txs| && a in touch(blocks[i].txs[j])
  }

  ghost predicate Sooner(x: TxLoc, y: TxLoc) {
    x.height < y.height || (x.height == y.height && x.index < y.index)
  }

  ghost predicate InOrder(locs: seq<TxLoc>) {
    forall i, j :: 0 <= i < j < |locs| ==> Sooner(locs[i], locs[j])
  }

  lemma {:induction false} AppearancesAre(touch: Touch, b: Block, n: nat, a: Address)
    requires n <= |b.txs|
    ensures forall loc :: loc in Appearances(touch, b, n, a) <==> loc.height == b.index && loc.index < n && a in touch(b.txs[loc.index])
    ensures InOrder(Appearances(touch, b, n, a))
    decreases n
  {
    if n > 0 {
      AppearancesAre(touch, b, n - 1, a);
      var before := Appearances(touch, b, n - 1, a);
      forall i | 0 <= i < |before| ensures Sooner(before[i], TxLoc(b.index, n - 1)) {
        assert before[i] in before;
      }
    }
  }

  /** An address's history lists exactly the transactions it is listed for, oldest first. */
  lemma {:induction false} HistoryFinds(touch: Touch, blocks: seq<Block>, a: Address)
    requires HeightsAre(blocks)
    ensures forall loc :: loc in HistoryOfAddress(touch, blocks, a) <==> ListedAt(touch, blocks, loc.height, loc.index, a)
    ensures InOrder(HistoryOfAddress(touch, blocks, a))
    decreases |blocks|
  {
    if blocks != [] {
      var n := |blocks| - 1;
      var front, b := blocks[..n], blocks[n];
      HistoryFinds(touch, front, a);
      AppearancesAre(touch, b, |b.txs|, a);
      var past, more := HistoryOfAddress(touch, front, a), Appearances(touch, b, |b.txs|, a);
      forall i, j | 0 <= i < |past| && 0 <= j < |more| ensures Sooner(past[i], more[j]) {
        assert past[i] in past && more[j] in more;
      }
      OrderJoins(past, more);
    }
  }

  lemma OrderJoins(x: seq<TxLoc>, y: seq<TxLoc>)
    requires InOrder(x) && InOrder(y) && forall i, j :: 0 <= i < |x| && 0 <= j < |y| ==> Sooner(x[i], y[j])
    ensures InOrder(x + y)
  {
  }
}
