/** What the pool keeps can be mined: a sender's whole run can be paid for on the simulated ledger
    that block selection works on. */
module PoolMines {
  import opened Bytes
  import opened Transactions
  import opened Ledger
  import opened PoolIndexes
  import opened Mempool
  import opened Admission
  import opened PoolTrim
  import opened PoolSelect
  import PoolSettle
  import Selection
  import SelectionApplies

  function Balance(t: Selection.Tip, c: Selection.Cache, a: Address): (n: Word) {
    Selection.SimOf(t, c, a).balance
  }

  /** Being paid never costs anything, as long as there is room for the coin. */
  lemma {:induction false} CreditedKeeps(t: Selection.Tip, c: Selection.Cache, outs: seq<Output>, a: Address)
    requires Balance(t, c, a) + SumOutputs(outs) < U64_LIMIT
    ensures Balance(t, c, a) <= Balance(t, Selection.Credited(t, c, outs), a) <= Balance(t, c, a) + SumOutputs(outs)
    decreases |outs|
  {
    if outs != [] {
      CreditedKeeps(t, c, outs[..|outs| - 1], a);
    }
  }

  lemma SponsorSpares(t: Selection.Tip, c: Selection.Cache, tx: Tx, a: Address)
    requires IsSponsored(tx) ==> tx.feePayer != a
    ensures Selection.SimOf(t, Selection.SponsorDebited(t, c, tx), a) == Selection.SimOf(t, c, a)
  {
  }

  lemma DebitedBy(s: Selection.Sim, cost: nat)
    requires cost <= s.balance
    ensures Selection.Debited(s, cost).balance == s.balance - cost
  {
  }

  /** A transfer of coin that is picked takes from its sender no more than it costs. */
  lemma TransferTakes(r: Rules, t: Selection.Tip, c: Selection.Cache, tx: Tx)
    requires IsSponsored(tx) ==> tx.feePayer != tx.sender
    requires tx.name.None? && tx.issue.None? && tx.assetOp.None? && !IsAssetTransfer(tx) && Balance(t, c, tx.sender) >= Selection.CoinCost(tx)
    ensures Balance(t, Selection.Picked(r, t, c, tx), tx.sender) >= Balance(t, c, tx.sender) - Selection.CoinCost(tx)
  {
    var sim := Selection.SimOf(t, c, tx.sender);
    var debited := c[tx.sender := Selection.Debited(sim, Selection.CoinCost(tx))];
    DebitedBy(sim, Selection.CoinCost(tx));
    SponsorSpares(t, debited, tx, tx.sender);
    CreditedKeeps(t, Selection.SponsorDebited(t, debited, tx), Outputs(tx), tx.sender);
  }

  /** Anything else takes the fee. */
  lemma OthersTake(r: Rules, t: Selection.Tip, c: Selection.Cache, tx: Tx)
    requires IsSponsored(tx) ==> tx.feePayer != tx.sender
    requires tx.name.Some? || tx.issue.Some? || tx.assetOp.Some? || IsAssetTransfer(tx)
    requires Balance(t, c, tx.sender) >= SenderFee(tx)
    ensures Balance(t, Selection.Picked(r, t, c, tx), tx.sender) == Balance(t, c, tx.sender) - SenderFee(tx)
  {
    DebitedBy(Selection.SimOf(t, c, tx.sender), SenderFee(tx));
  }

  lemma PickedTakes(r: Rules, t: Selection.Tip, c: Selection.Cache, tx: Tx)
    requires Sane(r, tx) && Balance(t, c, tx.sender) >= Selection.CoinCost(tx)
    ensures Balance(t, Selection.Picked(r, t, c, tx), tx.sender) >= Balance(t, c, tx.sender) - Selection.CoinCost(tx)
  {
    if tx.name.None? && tx.issue.None? && tx.assetOp.None? && !IsAssetTransfer(tx) {
      TransferTakes(r, t, c, tx);
    } else {
      OthersTake(r, t, c, tx);
    }
  }

  /** The simulated ledger once the slots from `n` up to `end` have been picked. */
  ghost function AfterRun(r: Rules, t: Selection.Tip, txs: Txs, q: Queue, n: nat, end: nat): (c: Selection.Cache)
    decreases end
  {
    if end <= n then map[]
    else
      var c := AfterRun(r, t, txs, q, n, end - 1);
      var k := end - 1;
      if k < U64_LIMIT && k in q && q[k] in txs then Selection.Picked(r, t, c, txs[q[k]]) else c
  }

  /** The pool's policy and its view of the chain are those of the tip. */
  ghost predicate AtTip(p: Policy, src: Source, t: Selection.Tip) {
    && (forall tx :: p.cost(tx) == PoolCost(tx))
    && (forall a :: src.nonce(a) == Get(t.state, a).nonce && src.spendable(a) == Selection.Spendable(t, a))
  }

  ghost predicate AllSane(r: Rules, txs: Txs) {
    forall h :: h in txs ==> Sane(r, txs[h])
  }

  /** One slot of a run. */
  lemma SlotCosts(p: Policy, src: Source, r: Rules, t: Selection.Tip, s: Shelf, a: Address, k: Word)
    requires Exact(p.id, p.size, s) && AtTip(p, src, t) && AllSane(r, s.txs) && k in QueueOf(s.bySender, a)
    ensures var h := QueueOf(s.bySender, a)[k];
            && h in s.txs && s.txs[h].sender == a && s.txs[h].nonce == k && Sane(r, s.txs[h])
            && SlotCost(p.cost, s.txs, QueueOf(s.bySender, a), k) == Selection.CoinCost(s.txs[h])
  {
    assert SlotExact(s.txs, s.bySender, a, k);
    PoolCostAgrees(r, s.txs[QueueOf(s.bySender, a)[k]]);
  }

  lemma RunCovered(p: Policy, src: Source, s: Shelf, a: Address, k: Word)
    requires Exact(p.id, p.size, s) && PoolSettle.InOrder(p, src, s, a) && k in QueueOf(s.bySender, a)
    ensures RunTotal(p.cost, s.txs, QueueOf(s.bySender, a), src.nonce(a), k + 1) <= src.spendable(a)
  {
    var q := QueueOf(s.bySender, a);
    forall j: Word | j in q ensures q[j] in s.txs && s.txs[q[j]].sender == a && s.txs[q[j]].nonce == j {
      assert SlotExact(s.txs, s.bySender, a, j);
    }
    PoolSettle.RunWithin(p.cost, s.txs, q, a, src.nonce(a), k + 1);
  }

  lemma OneMorePicked(r: Rules, t: Selection.Tip, c: Selection.Cache, tx: Tx, spendable: Word, spent: nat)
    requires Sane(r, tx) && Balance(t, c, tx.sender) + spent >= spendable && spent + Selection.CoinCost(tx) <= spendable
    requires tx.nonce + 1 < U64_LIMIT && Selection.SimOf(t, c, tx.sender).nonce == tx.nonce
    ensures Balance(t, Selection.Picked(r, t, c, tx), tx.sender) + spent + Selection.CoinCost(tx) >= spendable
    ensures Selection.SimOf(t, Selection.Picked(r, t, c, tx), tx.sender).nonce == tx.nonce + 1
  {
    PickedTakes(r, t, c, tx);
    SelectionApplies.PickedNonce(r, t, c, tx, tx.sender);
  }

  /** After the slots below `k` the sender has at least what they left it, and its next nonce is `k`. */
  lemma {:induction false} RunLeaves(p: Policy, src: Source, r: Rules, t: Selection.Tip, s: Shelf, a: Address, k: nat)
    requires Exact(p.id, p.size, s) && AtTip(p, src, t) && AllSane(r, s.txs) && PoolSettle.InOrder(p, src, s, a)
    requires src.nonce(a) <= k < U64_LIMIT && forall j: Word :: src.nonce(a) <= j < k ==> j in QueueOf(s.bySender, a)
    ensures var q, n := QueueOf(s.bySender, a), src.nonce(a);
            && Balance(t, AfterRun(r, t, s.txs, q, n, k), a) + RunTotal(p.cost, s.txs, q, n, k) >= src.spendable(a)
            && Selection.SimOf(t, AfterRun(r, t, s.txs, q, n, k), a).nonce == k
    decreases k
  {
    var q, n := QueueOf(s.bySender, a), src.nonce(a);
    if k > n {
      var j: Word := k - 1;
      var c := AfterRun(r, t, s.txs, q, n, j);
      RunLeaves(p, src, r, t, s, a, j);
      SlotCosts(p, src, r, t, s, a, j);
      RunCovered(p, src, s, a, j);
      OneMorePicked(r, t, c, s.txs[q[j]], src.spendable(a), RunTotal(p.cost, s.txs, q, n, j));
    }
  }

  /** Needs nothing but its sender's coin. */
  predicate Plain(tx: Tx) {
    !IsSponsored(tx) && tx.assetOp.None? && !IsAssetTransfer(tx)
  }

  /** When the slot's turn comes, its nonce is the next and its sender can pay for it. */
  ghost predicate Mines(r: Rules, t: Selection.Tip, s: Shelf, a: Address, confirmed: Word, k: Word)
    requires k in QueueOf(s.bySender, a)
  {
    var q := QueueOf(s.bySender, a);
    var c, h := AfterRun(r, t, s.txs, q, confirmed, k), q[k];
    && h in s.txs && Selection.SimOf(t, c, a).nonce == s.txs[h].nonce
    && Balance(t, c, a) >= Selection.CoinCost(s.txs[h]) && (Plain(s.txs[h]) ==> Selection.Affordable(t, c, s.txs[h]))
  }

  /** A queue in order can be mined to its last transaction. */
  lemma RunPays(p: Policy, src: Source, r: Rules, t: Selection.Tip, s: Shelf, a: Address, k: Word)
    requires Exact(p.id, p.size, s) && AtTip(p, src, t) && AllSane(r, s.txs) && PoolSettle.InOrder(p, src, s, a)
    requires k in QueueOf(s.bySender, a)
    ensures Mines(r, t, s, a, src.nonce(a), k)
  {
    RunLeaves(p, src, r, t, s, a, k);
    SlotCosts(p, src, r, t, s, a, k);
    RunCovered(p, src, s, a, k);
  }

  /** The clean-up at a new tip leaves, of every sender, a queue the miner can take to its last
      transaction, as long as its total fits 64 bits. */
  method ReconcileAtTip(pool: Pool, p: Policy, src: Source, r: Rules, t: Selection.Tip) returns (dropped: nat)
    requires Exact(p.id, p.size, pool.Now()) && AtTip(p, src, t) && AllSane(r, pool.txs)
    modifies pool
    ensures Exact(p.id, p.size, pool.Now()) && AllSane(r, pool.txs)
    ensures forall a, k :: k in QueueOf(pool.bySender, a) && QueueCost(p.cost, pool.txs, a) < U64_LIMIT ==>
      Mines(r, t, pool.Now(), a, src.nonce(a), k)
  {
    ghost var mid, gone, ends;
    dropped, mid, gone, ends := PoolSettle.Reconcile(pool, p, src);
    forall a, k | k in QueueOf(pool.bySender, a) && QueueCost(p.cost, pool.txs, a) < U64_LIMIT
      ensures Mines(r, t, pool.Now(), a, src.nonce(a), k)
    {
      assert PoolSettle.SenderFits(p, src, pool.Now(), a);
      RunPays(p, src, r, t, pool.Now(), a, k);
    }
  }
}
