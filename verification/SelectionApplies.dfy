/** What block building chooses, the ledger accepts. */
module SelectionApplies {
  import opened Bytes
  import opened Transactions
  import opened Ledger
  import opened LedgerSums
  import opened LedgerLaws
  import opened BlockLedger
  import opened Selection
  import opened SelectionSteps
  import opened NameRecords
  import opened Greedy

  /** Choosing for the block after the tip. */
  function DeskOf(r: Rules, t: Tip, height: Word, baseFee: Word, ops: Tx -> nat, rate: Tx -> real): (d: Desk<Cache>) {
    Desk(
      (tx: Tx) =>
        tx.fee >= BaseFeeFor(r, tx, baseFee) && Sane(r, tx) && r.ready(tx, height) && (tx.name.Some? ==> Mineable(t, tx, height)),
      (c: Cache, a: Address) => SimOf(t, c, a).nonce,
      (c: Cache, tx: Tx) => Affordable(t, c, tx),
      (c: Cache, tx: Tx) => Picked(r, t, c, tx),
      r.size, ops, rate, r.txid)
  }

  function NonceOf(t: Tip, c: Cache, a: Address): (n: Word) {
    SimOf(t, c, a).nonce
  }

  lemma SponsorNonce(t: Tip, c: Cache, tx: Tx, a: Address)
    ensures NonceOf(t, SponsorDebited(t, c, tx), a) == NonceOf(t, c, a)
  {
  }

  lemma {:induction false} CreditedNonce(t: Tip, c: Cache, outs: seq<Output>, a: Address)
    ensures NonceOf(t, Credited(t, c, outs), a) == NonceOf(t, c, a)
    decreases |outs|
  {
    if outs != [] {
      CreditedNonce(t, c, outs[..|outs| - 1], a);
    }
  }

  function NextNonce(t: Tip, c: Cache, tx: Tx, a: Address): (n: Word) {
    if a == tx.sender then (NonceOf(t, c, a) + 1) % U64_LIMIT else NonceOf(t, c, a)
  }

  lemma SpentNonce(t: Tip, c: Cache, tx: Tx, sim: Sim, a: Address)
    requires sim.nonce == (NonceOf(t, c, tx.sender) + 1) % U64_LIMIT
    ensures NonceOf(t, SponsorDebited(t, c[tx.sender := sim], tx), a) == NextNonce(t, c, tx, a)
  {
    SponsorNonce(t, c[tx.sender := sim], tx, a);
  }

  lemma AssetMovedNonce(r: Rules, t: Tip, c: Cache, tx: Tx, a: Address)
    requires IsAssetTransfer(tx) && tx.name.None?
    ensures NonceOf(t, Picked(r, t, c, tx), a) == NextNonce(t, c, tx, a)
  {
    var s := SimOf(t, c, tx.sender);
    var sim := Debited(s, SenderFee(tx)).(assets := Gained(s.assets, tx.assetId, 0 - tx.amount as int));
    SpentNonce(t, c, tx, sim, a);
    AssetTransferPicked(r, t, c, tx, SponsorDebited(t, c[tx.sender := sim], tx));
  }

  lemma TransferredNonce(r: Rules, t: Tip, c: Cache, tx: Tx, a: Address)
    requires tx.name.None? && tx.issue.None? && tx.assetOp.None? && !IsAssetTransfer(tx)
    ensures NonceOf(t, Picked(r, t, c, tx), a) == NextNonce(t, c, tx, a)
  {
    var sim := Debited(SimOf(t, c, tx.sender), CoinCost(tx));
    SpentNonce(t, c, tx, sim, a);
    CreditedNonce(t, SponsorDebited(t, c[tx.sender := sim], tx), Outputs(tx), a);
  }

  lemma AssetOpNonce(r: Rules, t: Tip, c: Cache, tx: Tx, a: Address)
    requires tx.name.None? && tx.issue.None? && tx.assetOp.Some?
    ensures NonceOf(t, Picked(r, t, c, tx), a) == NextNonce(t, c, tx, a)
  {
    var s, o := SimOf(t, c, tx.sender), tx.assetOp.value;
    var delta := if o.op == MINT then o.amount as int else if o.op == BURN then 0 - o.amount as int else 0;
    SpentNonce(t, c, tx, Debited(s, SenderFee(tx)).(assets := Gained(s.assets, tx.assetId, delta)), a);
  }

  lemma IssuedNonce(r: Rules, t: Tip, c: Cache, tx: Tx, a: Address)
    requires tx.name.None? && tx.issue.Some?
    ensures NonceOf(t, Picked(r, t, c, tx), a) == NextNonce(t, c, tx, a)
  {
    var s := SimOf(t, c, tx.sender);
    SpentNonce(t, c, tx, Debited(s, SenderFee(tx)).(assets := Gained(s.assets, IssuedId(r, tx), tx.issue.value.supply)), a);
  }

  /** A pick moves its sender's nonce by one and no other nonce. */
  lemma PickedNonce(r: Rules, t: Tip, c: Cache, tx: Tx, a: Address)
    ensures NonceOf(t, Picked(r, t, c, tx), a) == NextNonce(t, c, tx, a)
  {
    if tx.name.Some? {
      SpentNonce(t, c, tx, Debited(SimOf(t, c, tx.sender), SenderFee(tx)), a);
    } else if tx.issue.Some? {
      IssuedNonce(r, t, c, tx, a);
    } else if tx.assetOp.Some? {
      AssetOpNonce(r, t, c, tx, a);
    } else if IsAssetTransfer(tx) {
      AssetMovedNonce(r, t, c, tx, a);
    } else {
      TransferredNonce(r, t, c, tx, a);
    }
  }

  lemma DeskOrderly(r: Rules, t: Tip, height: Word, baseFee: Word, ops: Tx -> nat, rate: Tx -> real)
    ensures Orderly(DeskOf(r, t, height, baseFee, ops, rate))
  {
    var d := DeskOf(r, t, height, baseFee, ops, rate);
    forall c, tx, a ensures d.nonce(d.picked(c, tx), a) == if a == tx.sender then (d.nonce(c, a) + 1) % U64_LIMIT else d.nonce(c, a) {
      PickedNonce(r, t, c, tx, a);
    }
  }

  /** A chosen transaction the pool was right about: it applies, the simulation goes on tracking
      the ledger, and the records of other names stay. */
  ghost predicate PickLaw(d: Desk<Cache>, c: Consensus, r: Rules, t: Tip, f: Floor, height: Word,
                          cache: Cache, s: State, tx: Tx, reserve: Word, payerReserve: Word) {
    && d.admissible(tx) && SelectionSteps.Sound(r, tx) && d.nonce(cache, tx.sender) == tx.nonce && d.affordable(cache, tx)
    && Tracks(t, cache, s, f) && Reserves(tx, reserve, payerReserve, f) && Coins(s) < U64_LIMIT
    && (tx.name.Some? ==> Get(s, NameKey(tx.name.value.name)) == Get(t.state, NameKey(tx.name.value.name))) ==>
      var after := c.apply(s, tx, height, reserve, payerReserve);
      && c.admits(tx, height) && after.Ok?
      && Tracks(t, d.picked(cache, tx), after.value, f) && OthersKept(s, after.value, tx)
  }

  ghost predicate Picks(d: Desk<Cache>, c: Consensus, r: Rules, t: Tip, f: Floor, height: Word, baseFee: Word) {
    && (forall cache, s, tx, reserve, payerReserve :: PickLaw(d, c, r, t, f, height, cache, s, tx, reserve, payerReserve))
    && (forall tx :: d.admissible(tx) ==> tx.fee >= c.baseFee(tx, baseFee))
    && (forall tx :: d.hash(tx) == c.txid(tx))
  }

  lemma PickLawHolds(r: Rules, t: Tip, f: Floor, height: Word, baseFee: Word, ops: Tx -> nat, rate: Tx -> real,
                     cache: Cache, s: State, tx: Tx, reserve: Word, payerReserve: Word)
    ensures PickLaw(DeskOf(r, t, height, baseFee, ops, rate), ConsensusOf(r), r, t, f, height, cache, s, tx, reserve, payerReserve)
  {
    var d := DeskOf(r, t, height, baseFee, ops, rate);
    if && d.admissible(tx) && SelectionSteps.Sound(r, tx) && d.nonce(cache, tx.sender) == tx.nonce && d.affordable(cache, tx)
       && Tracks(t, cache, s, f) && Reserves(tx, reserve, payerReserve, f) && Coins(s) < U64_LIMIT
       && (tx.name.Some? ==> Get(s, NameKey(tx.name.value.name)) == Get(t.state, NameKey(tx.name.value.name)))
    {
      PickApplies(r, t, cache, s, f, tx, height, reserve, payerReserve);
      TxKeepsNames(r, s, tx, height, reserve, payerReserve);
    }
  }

  lemma DeskPicks(r: Rules, t: Tip, f: Floor, height: Word, baseFee: Word, ops: Tx -> nat, rate: Tx -> real)
    ensures Picks(DeskOf(r, t, height, baseFee, ops, rate), ConsensusOf(r), r, t, f, height, baseFee)
  {
    var d, c := DeskOf(r, t, height, baseFee, ops, rate), ConsensusOf(r);
    forall cache, s, tx, reserve, payerReserve ensures PickLaw(d, c, r, t, f, height, cache, s, tx, reserve, payerReserve) {
      PickLawHolds(r, t, f, height, baseFee, ops, rate, cache, s, tx, reserve, payerReserve);
    }
  }
}
