/** Block selection run on the pool itself: its indexes are what selection relies on. */
module PoolSelect {
  import opened Bytes
  import opened Transactions
  import opened Ledger
  import opened PoolIndexes
  import opened Greedy
  import Selection
  import SelectionApplies
  import SelectionOrder
  import BlockSelect

  ghost predicate Lists(list: seq<Tx>, txs: Txs) {
    forall tx :: tx in list <==> exists h :: h in txs && txs[h] == tx
  }

  /** The pool's transactions in some order. */
  method All(txs: Txs) returns (list: seq<Tx>)
    ensures Lists(list, txs)
  {
    list := [];
    var left := txs.Keys;
    while left != {}
      invariant left <= txs.Keys && forall tx :: tx in list <==> exists h :: h in txs && h !in left && txs[h] == tx
      decreases left
    {
      var h :| h in left;
      ghost var was := left;
      left := left - {h};
      forall tx ensures tx in list + [txs[h]] <==> exists g :: g in txs && g !in left && txs[g] == tx {
        if tx in list {
          var g :| g in txs && g !in was && txs[g] == tx;
          assert g !in left;
        }
        assert h in txs && h !in left;
      }
      list := list + [txs[h]];
    }
  }

  /** A pool whose indexes are exact holds one transaction per hash and per sender and nonce. */
  lemma PoolKeyed<C>(d: Desk<C>, size: Measure, s: Shelf, list: seq<Tx>)
    requires Exact(d.hash, size, s) && Lists(list, s.txs)
    ensures SlotKeyed(list) && HashKeyed(d, list)
  {
    forall x, y | x in list && y in list && x.sender == y.sender && x.nonce == y.nonce ensures x == y {
      var g :| g in s.txs && s.txs[g] == x;
      var h :| h in s.txs && s.txs[h] == y;
      assert SlotExact(s.txs, s.bySender, x.sender, x.nonce);
    }
    forall x, y | x in list && y in list && d.hash(x) == d.hash(y) ensures x == y {
      var g :| g in s.txs && s.txs[g] == x;
      var h :| h in s.txs && s.txs[h] == y;
    }
  }

  /** The coin a transaction takes from its sender, as the pool counts it in 64 bits; a sum that does
      not fit is unaffordable by construction. */
  function PoolCost(tx: Tx): (n: Word) {
    if tx.issue.Some? || IsAssetTransfer(tx) then SenderFee(tx)
    else
      var out := SumOutputs(Outputs(tx));
      if out >= U64_LIMIT then U64_LIMIT - 1 else (out + SenderFee(tx)) % U64_LIMIT
  }

  /** For every transaction the pool may hold, what admission counts is what selection charges. */
  lemma PoolCostAgrees(r: Rules, tx: Tx)
    requires Sane(r, tx)
    ensures PoolCost(tx) == Selection.CoinCost(tx)
  {
    var outs := Outputs(tx);
    assert SumOutputs(outs) == SumOutputs(outs[..|outs| - 1]) + outs[|outs| - 1].amount;
    if !IsMultiOutput(tx) {
      assert outs[..0] == [];
    }
  }

  /** What a miner builds its next block from. */
  method SelectFromPool(r: Rules, t: Selection.Tip, height: Word, baseFee: Word, ops: Tx -> nat, rate: Tx -> real,
                        s: Shelf, limit: int) returns (chosen: seq<Tx>, pool: seq<Tx>)
    requires Exact(r.txid, r.size, s)
    ensures Lists(pool, s.txs)
    ensures var d := SelectionApplies.DeskOf(r, t, height, baseFee, ops, rate);
            HashKeyed(d, pool) && Selected(d, map[], pool, limit, chosen) && SelectionOrder.BestFirst(d, map[], pool, limit, chosen)
  {
    var d := SelectionApplies.DeskOf(r, t, height, baseFee, ops, rate);
    SelectionApplies.DeskOrderly(r, t, height, baseFee, ops, rate);
    pool := All(s.txs);
    PoolKeyed(d, r.size, s, pool);
    chosen := BlockSelect.Select(d, map[], pool, limit);
    SelectionOrder.SelectsBest(d, map[], pool, limit, chosen);
  }
}
