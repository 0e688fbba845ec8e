/** What a block's filter leaves out, measured by the ledger: an account whose address is not among the
    coded ones is untouched by the block, but for the fees it sponsored. */
module FilterLaws {
  import opened Bytes
  import opened Transactions
  import opened Ledger
  import opened BlockLedger
  import opened BlockFilters
  import AccountHistory
  import LedgerEffects
  import Nonces

  /** The fees an address pays for others in the transactions of a block before position `n`. */
  function SponsoredIn(b: Block, n: nat, a: Address): (k: nat)
    requires n <= |b.txs|
  {
    if n <= 1 then 0
    else SponsoredIn(b, n - 1, a) + if b.txs[n - 1].feePayer != [] && b.txs[n - 1].feePayer == a then b.txs[n - 1].fee else 0
  }

  lemma {:induction false} PaidNothing(outs: seq<Output>, a: Address)
    requires forall o :: o in outs ==> o.recipient != a
    ensures PaidBy(outs, a) == 0
    decreases |outs|
  {
    if outs != [] {
      var n := |outs| - 1;
      assert outs[n] in outs;
      PaidNothing(outs[..n], a);
    }
  }

  /** A transaction that does not name an address gives it nothing and takes nothing but a sponsored fee. */
  lemma UnnamedTx(tx: Tx, a: Address)
    requires a != [] && a !in TxTouched(tx) && tx.sender != COINBASE
    ensures LedgerEffects.Gets(tx, a) == 0 && a != tx.sender
    ensures LedgerEffects.Gives(tx, a) == if tx.feePayer != [] && tx.feePayer == a then tx.fee else 0
  {
    forall o | o in Outputs(tx) ensures o.recipient != a {
      if IsMultiOutput(tx) {
        assert o in tx.outputs;
      }
    }
    PaidNothing(Outputs(tx), a);
  }

  lemma {:induction false} TouchedHas(txs: seq<Tx>, i: nat, a: Address)
    requires i < |txs| && a in TxTouched(txs[i])
    ensures a in Touched(txs)
    decreases |txs|
  {
    if i < |txs| - 1 {
      TouchedHas(txs[..|txs| - 1], i, a);
    }
  }

  lemma {:induction false} UnnamedTxs(b: Block, n: nat, a: Address)
    requires n <= |b.txs| && a != [] && a !in Touched(b.txs) && forall i :: 1 <= i < n ==> b.txs[i].sender != COINBASE
    ensures AccountHistory.GotIn(b, n, a) == 0 && AccountHistory.GaveIn(b, n, a) == SponsoredIn(b, n, a) && Nonces.SentIn(b, n, a) == 0
    decreases n
  {
    if n > 1 {
      UnnamedTxs(b, n - 1, a);
      if a in TxTouched(b.txs[n - 1]) {
        TouchedHas(b.txs, n - 1, a);
      }
      UnnamedTx(b.txs[n - 1], a);
    }
  }

  /** So an address the filter does not code keeps its nonce through the block, and its balance falls by
      exactly the fees it sponsored: it is unconcerned if and only if it sponsored none. */
  lemma UncodedKeeps(c: Consensus, blocks: seq<Block>, b: Block, s: State, a: Address)
    requires AccountHistory.FlowLaw(c) && Nonces.NonceLaw(c) && b.txs != [] && ApplyBlock(c, blocks, b, s).Ok?
    requires a != [] && !IsNameKey(a) && a !in Touched(b.txs) && forall i :: 1 <= i < |b.txs| ==> b.txs[i].sender != COINBASE
    ensures var t := ApplyBlock(c, blocks, b, s).value.state;
            && Get(t, a).nonce == Get(s, a).nonce
            && Get(t, a).balance + SponsoredIn(b, |b.txs|, a) == Get(s, a).balance
  {
    UnnamedTxs(b, |b.txs|, a);
    AccountHistory.BlockFlows(c, blocks, b, s, a);
    Nonces.BlockCounts(c, blocks, b, s, a);
    if b.txs[0].recipient == a {
      TouchedHas(b.txs, 0, a);
    }
  }

  /** A sponsor that is neither sender nor recipient is not coded, whatever it pays. */
  lemma SponsorUncoded(tx: Tx)
    requires tx.feePayer != [] && tx.feePayer != tx.sender && tx.feePayer != tx.recipient
    requires forall o :: o in tx.outputs ==> o.recipient != tx.feePayer
    ensures tx.feePayer !in TxTouched(tx) && LedgerEffects.Gives(tx, tx.feePayer) == tx.fee
  {
  }
}
