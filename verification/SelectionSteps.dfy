/** Each kind of picked transaction applies to the real ledger, which the simulation keeps
    tracking. */
module SelectionSteps {
  import opened Bytes
  import opened Transactions
  import opened Ledger
  import opened LedgerSums
  import opened LedgerLaws
  import opened BlockLedger
  import opened NameRecords
  import opened Selection

  /** What the rules take of a pool entry that the simulation does not check: valid signatures,
      a well-formed unique issuance, and not both outputs and an asset operation. */
  predicate Sound(r: Rules, tx: Tx) {
    && r.verified(tx)
    && (tx.issue.Some? && tx.issue.value.metadata != [] ==>
          r.validMetadata(tx.issue.value.metadata) && tx.issue.value.supply == 1)
    && !(IsMultiOutput(tx) && tx.assetOp.Some?)
  }

  /** None of the accounts a transaction moves is a name's key, and a sponsor is somebody else. */
  predicate Parties(tx: Tx) {
    && !IsNameKey(tx.sender) && !IsNameKey(tx.feePayer) && !IsNameKey(tx.recipient)
    && (IsSponsored(tx) ==> tx.feePayer != tx.sender)
  }

  /** The picked transaction is the sender's next and can be paid for. */
  ghost predicate Ready(t: Tip, c: Cache, tx: Tx) {
    tx.nonce == SimOf(t, c, tx.sender).nonce && Affordable(t, c, tx)
  }

  /** The debit common to every kind, then the sponsor. */
  lemma PaidStep(t: Tip, c: Cache, s: State, f: Floor, tx: Tx, cost: Word, reserve: Word, payerReserve: Word,
                 sim: Sim, acc: Account)
    requires Tracks(t, c, s, f) && Reserves(tx, reserve, payerReserve, f)
    requires Parties(tx)
    requires IsSponsored(tx) ==> SimOf(t, c, tx.feePayer).balance >= tx.fee
    requires Matches(sim, acc, f(tx.sender))
    ensures ChargeSponsor(Set(s, tx.sender, acc), tx, payerReserve).Ok?
    ensures Tracks(t, SponsorDebited(t, c[tx.sender := sim], tx), ChargeSponsor(Set(s, tx.sender, acc), tx, payerReserve).value, f)
  {
    TracksSet(t, c, s, f, tx.sender, sim, acc);
    SponsorForReal(t, c[tx.sender := sim], Set(s, tx.sender, acc), f, tx, payerReserve);
  }

  lemma GainedMatches(sim: Sim, acc: Account, held: nat, id: Bytes, delta: int)
    requires Matches(sim, acc, held)
    ensures Matches(sim.(assets := Gained(sim.assets, id, delta)), WithAsset(acc, id, delta), held)
  {
  }

  lemma NameStep(r: Rules, t: Tip, c: Cache, s: State, f: Floor, tx: Tx, height: Word, reserve: Word, payerReserve: Word)
    requires tx.name.Some? && Parties(tx) && NameOpShape(r, tx.name.value) && tx.amount == 0 && tx.outputs == []
    requires tx.issue.None? && tx.assetOp.None? && tx.assetId == []
    requires Ready(t, c, tx) && Tracks(t, c, s, f) && Reserves(tx, reserve, payerReserve, f)
    requires Mineable(t, tx, height)
    requires Get(s, NameKey(tx.name.value.name)) == Get(t.state, NameKey(tx.name.value.name))
    ensures ApplyName(r, s, tx, height, reserve, payerReserve).Ok?
    ensures Tracks(t, Picked(r, t, c, tx), ApplyName(r, s, tx, height, reserve, payerReserve).value, f)
  {
    var key := NameKey(tx.name.value.name);
    NoOutputs(tx);
    PaysForReal(t, c, s, f, tx, SenderFee(tx), reserve);
    MineableRecord(t, tx, height);
    var paid := Paid(Get(s, tx.sender), tx, SenderFee(tx), reserve).value;
    var rec := NameRecord(NameAfter(tx.name.value, tx.sender, Get(s, key), height).value);
    var sim := Debited(SimOf(t, c, tx.sender), SenderFee(tx));
    TracksSet(t, c, s, f, tx.sender, sim, paid);
    TracksName(t, c[tx.sender := sim], Set(s, tx.sender, paid), f, key, rec);
    SponsorForReal(t, c[tx.sender := sim], Set(Set(s, tx.sender, paid), key, rec), f, tx, payerReserve);
    NameApplied(r, s, tx, height, reserve, payerReserve, paid, rec);
  }

  lemma NameApplied(r: Rules, s: State, tx: Tx, height: Word, reserve: Word, payerReserve: Word, paid: Account, rec: Account)
    requires tx.name.Some? && NameOpShape(r, tx.name.value) && Paid(Get(s, tx.sender), tx, SenderFee(tx), reserve) == Ok(paid)
    requires var after := NameAfter(tx.name.value, tx.sender, Get(s, NameKey(tx.name.value.name)), height);
             after.Some? && rec == NameRecord(after.value)
    ensures ApplyName(r, s, tx, height, reserve, payerReserve)
         == ChargeSponsor(Set(Set(s, tx.sender, paid), NameKey(tx.name.value.name), rec), tx, payerReserve)
  {
  }

  lemma NoOutputs(tx: Tx)
    requires tx.amount == 0 && tx.outputs == []
    ensures SumOutputs(Outputs(tx)) == 0
  {
    assert Outputs(tx)[..0] == [];
  }

  lemma MineableRecord(t: Tip, tx: Tx, height: Word)
    requires tx.name.Some? && Mineable(t, tx, height)
    ensures NameAfter(tx.name.value, tx.sender, Get(t.state, NameKey(tx.name.value.name)), height).Some?
  {
  }

  lemma IssueStep(r: Rules, t: Tip, c: Cache, s: State, f: Floor, tx: Tx, reserve: Word, payerReserve: Word)
    requires tx.issue.Some? && tx.name.None? && Parties(tx) && IssueShape(r, tx.issue.value) && Sound(r, tx) && Ready(t, c, tx)
    requires Tracks(t, c, s, f) && Reserves(tx, reserve, payerReserve, f)
    ensures ApplyIssue(r, s, tx, reserve, payerReserve).Ok?
    ensures Tracks(t, Picked(r, t, c, tx), ApplyIssue(r, s, tx, reserve, payerReserve).value, f)
  {
    var id, supply := IssuedId(r, tx), tx.issue.value.supply;
    PaysForReal(t, c, s, f, tx, SenderFee(tx), reserve);
    var paid, sim := Paid(Get(s, tx.sender), tx, SenderFee(tx), reserve).value, Debited(SimOf(t, c, tx.sender), SenderFee(tx));
    GainedMatches(sim, paid, f(tx.sender), id, supply);
    PaidStep(t, c, s, f, tx, SenderFee(tx), reserve, payerReserve,
             sim.(assets := Gained(sim.assets, id, supply)), WithAsset(paid, id, supply));
  }

  /** The ledger once the sender's own holding has changed and the fee is paid. */
  function HoldingLeft(s: State, tx: Tx, reserve: Word, payerReserve: Word, id: Bytes, delta: int): (res: Result<State>) {
    var paid := Paid(Get(s, tx.sender), tx, SenderFee(tx), reserve);
    if paid.Err? then Err else ChargeSponsor(Set(s, tx.sender, WithAsset(paid.value, id, delta)), tx, payerReserve)
  }

  /** The fee common to the asset kinds, with a change in the sender's own holding. */
  lemma HoldingStep(t: Tip, c: Cache, s: State, f: Floor, tx: Tx, reserve: Word, payerReserve: Word, id: Bytes, delta: int)
    requires Tracks(t, c, s, f) && Reserves(tx, reserve, payerReserve, f) && Parties(tx)
    requires tx.nonce == SimOf(t, c, tx.sender).nonce && SimOf(t, c, tx.sender).balance >= SenderFee(tx)
    requires IsSponsored(tx) ==> SimOf(t, c, tx.feePayer).balance >= tx.fee
    ensures Paid(Get(s, tx.sender), tx, SenderFee(tx), reserve).Ok? && HoldingLeft(s, tx, reserve, payerReserve, id, delta).Ok?
    ensures Tracks(t, SponsorDebited(t, HoldingSim(t, c, tx, id, delta), tx),
                   HoldingLeft(s, tx, reserve, payerReserve, id, delta).value, f)
  {
    PaysForReal(t, c, s, f, tx, SenderFee(tx), reserve);
    var paid, sim := Paid(Get(s, tx.sender), tx, SenderFee(tx), reserve).value, Debited(SimOf(t, c, tx.sender), SenderFee(tx));
    GainedMatches(sim, paid, f(tx.sender), id, delta);
    PaidStep(t, c, s, f, tx, SenderFee(tx), reserve, payerReserve,
             sim.(assets := Gained(sim.assets, id, delta)), WithAsset(paid, id, delta));
  }

  /** The sender's simulated account with the fee paid and one holding changed. */
  function HoldingSim(t: Tip, c: Cache, tx: Tx, id: Bytes, delta: int): (next: Cache) {
    var s := SimOf(t, c, tx.sender);
    c[tx.sender := Debited(s, SenderFee(tx)).(assets := Gained(s.assets, id, delta))]
  }

  lemma AssetOpStep(r: Rules, t: Tip, c: Cache, s: State, f: Floor, tx: Tx, reserve: Word, payerReserve: Word)
    requires tx.assetOp.Some? && tx.issue.None? && tx.name.None? && Parties(tx) && Ready(t, c, tx)
    requires AssetOpShape(r, tx.assetOp.value) && AuthorizedBy(r, tx.assetOp.value, tx.sender, tx.assetId)
    requires Tracks(t, c, s, f) && Reserves(tx, reserve, payerReserve, f)
    ensures ApplyAssetOp(r, s, tx, reserve, payerReserve).Ok?
    ensures Tracks(t, Picked(r, t, c, tx), ApplyAssetOp(r, s, tx, reserve, payerReserve).value, f)
  {
    HoldingTracked(t, c, s, f, tx.sender, tx.assetId);
    var delta := AssetOpDelta(tx.assetOp.value, Held(Get(s, tx.sender), tx.assetId)).value;
    HoldingStep(t, c, s, f, tx, reserve, payerReserve, tx.assetId, delta);
    AssetOpPicked(r, t, c, tx);
    AssetOpApplied(r, s, tx, reserve, payerReserve, delta);
  }

  lemma AssetOpApplied(r: Rules, s: State, tx: Tx, reserve: Word, payerReserve: Word, delta: int)
    requires tx.assetOp.Some? && AssetOpShape(r, tx.assetOp.value) && AuthorizedBy(r, tx.assetOp.value, tx.sender, tx.assetId)
    requires AssetOpDelta(tx.assetOp.value, Held(Get(s, tx.sender), tx.assetId)) == Some(delta)
    ensures ApplyAssetOp(r, s, tx, reserve, payerReserve) == HoldingLeft(s, tx, reserve, payerReserve, tx.assetId, delta)
  {
  }

  lemma AssetOpPicked(r: Rules, t: Tip, c: Cache, tx: Tx)
    requires tx.assetOp.Some? && tx.issue.None? && tx.name.None?
    requires AssetOpDelta(tx.assetOp.value, Selection.Units(SimOf(t, c, tx.sender).assets, tx.assetId)).Some?
    ensures var delta := AssetOpDelta(tx.assetOp.value, Selection.Units(SimOf(t, c, tx.sender).assets, tx.assetId)).value;
            Picked(r, t, c, tx) == SponsorDebited(t, HoldingSim(t, c, tx, tx.assetId, delta), tx)
  {
  }

  lemma AssetTransferStep(r: Rules, t: Tip, c: Cache, s: State, f: Floor, tx: Tx, reserve: Word, payerReserve: Word)
    requires IsAssetTransfer(tx) && tx.name.None? && Parties(tx) && tx.amount != 0 && Ready(t, c, tx)
    requires Tracks(t, c, s, f) && Reserves(tx, reserve, payerReserve, f)
    ensures ApplyAssetTransfer(s, tx, reserve, payerReserve).Ok?
    ensures Tracks(t, Picked(r, t, c, tx), ApplyAssetTransfer(s, tx, reserve, payerReserve).value, f)
  {
    HoldingTracked(t, c, s, f, tx.sender, tx.assetId);
    var c2, s2 := AssetLeaves(t, c, s, f, tx, reserve, payerReserve);
    GainTracks(t, c2, s2, f, tx.recipient, tx.assetId, tx.amount);
    AssetTransferPicked(r, t, c, tx, c2);
    AssetTransferApplied(s, tx, reserve, payerReserve, s2);
  }

  /** The sender's half of an asset transfer. */
  function AssetLeft(s: State, tx: Tx, reserve: Word, payerReserve: Word): (res: Result<State>) {
    HoldingLeft(s, tx, reserve, payerReserve, tx.assetId, 0 - tx.amount as int)
  }

  lemma AssetLeaves(t: Tip, c: Cache, s: State, f: Floor, tx: Tx, reserve: Word, payerReserve: Word)
    returns (c2: Cache, s2: State)
    requires Tracks(t, c, s, f) && Reserves(tx, reserve, payerReserve, f) && Parties(tx)
    requires tx.nonce == SimOf(t, c, tx.sender).nonce && SimOf(t, c, tx.sender).balance >= SenderFee(tx)
    requires IsSponsored(tx) ==> SimOf(t, c, tx.feePayer).balance >= tx.fee
    ensures c2 == SponsorDebited(t, HoldingSim(t, c, tx, tx.assetId, 0 - tx.amount as int), tx)
    ensures Paid(Get(s, tx.sender), tx, SenderFee(tx), reserve).Ok?
    ensures AssetLeft(s, tx, reserve, payerReserve) == Ok(s2) && Tracks(t, c2, s2, f)
  {
    HoldingStep(t, c, s, f, tx, reserve, payerReserve, tx.assetId, 0 - tx.amount as int);
    c2 := SponsorDebited(t, HoldingSim(t, c, tx, tx.assetId, 0 - tx.amount as int), tx);
    s2 := AssetLeft(s, tx, reserve, payerReserve).value;
  }

  lemma AssetTransferPicked(r: Rules, t: Tip, c: Cache, tx: Tx, c2: Cache)
    requires IsAssetTransfer(tx) && tx.name.None?
    requires c2 == SponsorDebited(t, HoldingSim(t, c, tx, tx.assetId, 0 - tx.amount as int), tx)
    ensures var to := SimOf(t, c2, tx.recipient);
            Picked(r, t, c, tx) == c2[tx.recipient := to.(assets := Gained(to.assets, tx.assetId, tx.amount))]
  {
  }

  lemma AssetTransferApplied(s: State, tx: Tx, reserve: Word, payerReserve: Word, s2: State)
    requires tx.amount != 0 && Held(Get(s, tx.sender), tx.assetId) >= tx.amount
    requires AssetLeft(s, tx, reserve, payerReserve) == Ok(s2)
    ensures ApplyAssetTransfer(s, tx, reserve, payerReserve)
         == Ok(Set(s2, tx.recipient, WithAsset(Get(s2, tx.recipient), tx.assetId, tx.amount)))
  {
  }

  lemma HoldingTracked(t: Tip, c: Cache, s: State, f: Floor, a: Address, id: Bytes)
    requires Tracks(t, c, s, f) && !IsNameKey(a)
    ensures Selection.Units(SimOf(t, c, a).assets, id) == Held(Get(s, a), id)
  {
    assert Matches(SimOf(t, c, a), Get(s, a), f(a));
  }

  lemma GainTracks(t: Tip, c: Cache, s: State, f: Floor, a: Address, id: Bytes, n: Word)
    requires Tracks(t, c, s, f) && !IsNameKey(a)
    ensures var to := SimOf(t, c, a);
            Tracks(t, c[a := to.(assets := Gained(to.assets, id, n))], Set(s, a, WithAsset(Get(s, a), id, n)), f)
  {
    var to, acc := SimOf(t, c, a), Get(s, a);
    assert Matches(to, acc, f(a));
    GainedMatches(to, acc, f(a), id, n);
    TracksSet(t, c, s, f, a, to.(assets := Gained(to.assets, id, n)), WithAsset(acc, id, n));
  }

  lemma TransferStep(r: Rules, t: Tip, c: Cache, s: State, f: Floor, tx: Tx, reserve: Word, payerReserve: Word)
    requires tx.name.None? && tx.issue.None? && tx.assetOp.None? && !IsAssetTransfer(tx) && Parties(tx) && Ready(t, c, tx)
    requires SumOutputs(Outputs(tx)) + SenderFee(tx) < U64_LIMIT && !(SumOutputs(Outputs(tx)) == 0 && tx.fee == 0)
    requires forall i :: 0 <= i < |Outputs(tx)| ==> !IsNameKey(Outputs(tx)[i].recipient)
    requires Tracks(t, c, s, f) && Reserves(tx, reserve, payerReserve, f) && Coins(s) < U64_LIMIT
    ensures ApplyTransfer(s, tx, reserve, payerReserve).Ok?
    ensures Tracks(t, Picked(r, t, c, tx), ApplyTransfer(s, tx, reserve, payerReserve).value, f)
  {
    var outs, cost := Outputs(tx), CoinCost(tx);
    PaysForReal(t, c, s, f, tx, cost, reserve);
    var paid, sim := Paid(Get(s, tx.sender), tx, cost, reserve).value, Debited(SimOf(t, c, tx.sender), cost);
    PaidStep(t, c, s, f, tx, cost, reserve, payerReserve, sim, paid);
    TransferRoom(s, tx, cost, reserve, payerReserve, paid, f);
    CreditsForReal(t, SponsorDebited(t, c[tx.sender := sim], tx), ChargeSponsor(Set(s, tx.sender, paid), tx, payerReserve).value, f, outs);
    TransferApplied(r, t, c, s, tx, reserve, payerReserve, paid, sim);
  }

  lemma TransferApplied(r: Rules, t: Tip, c: Cache, s: State, tx: Tx, reserve: Word, payerReserve: Word, paid: Account, sim: Sim)
    requires tx.name.None? && tx.issue.None? && tx.assetOp.None? && !IsAssetTransfer(tx)
    requires SumOutputs(Outputs(tx)) + SenderFee(tx) < U64_LIMIT && !(SumOutputs(Outputs(tx)) == 0 && tx.fee == 0)
    requires Paid(Get(s, tx.sender), tx, CoinCost(tx), reserve) == Ok(paid) && sim == Debited(SimOf(t, c, tx.sender), CoinCost(tx))
    requires ChargeSponsor(Set(s, tx.sender, paid), tx, payerReserve).Ok?
    ensures ApplyTransfer(s, tx, reserve, payerReserve)
         == CreditAll(ChargeSponsor(Set(s, tx.sender, paid), tx, payerReserve).value, Outputs(tx))
    ensures Picked(r, t, c, tx) == Credited(t, SponsorDebited(t, c[tx.sender := sim], tx), Outputs(tx))
  {
  }

  /** What was paid leaves room for what is credited. */
  lemma TransferRoom(s: State, tx: Tx, cost: Word, reserve: Word, payerReserve: Word, paid: Account, f: Floor)
    requires Paid(Get(s, tx.sender), tx, cost, reserve) == Ok(paid) && cost >= SumOutputs(Outputs(tx)) && Coins(s) < U64_LIMIT
    requires ChargeSponsor(Set(s, tx.sender, paid), tx, payerReserve).Ok?
    ensures Coins(ChargeSponsor(Set(s, tx.sender, paid), tx, payerReserve).value) + SumOutputs(Outputs(tx)) < U64_LIMIT
  {
    SenderPays(s, tx, cost, reserve, paid, f);
    SponsorPays(Set(s, tx.sender, paid), tx, payerReserve, f);
  }

  /** Every transaction the simulation can pay for, the ledger takes. */
  lemma PickApplies(r: Rules, t: Tip, c: Cache, s: State, f: Floor, tx: Tx, height: Word, reserve: Word, payerReserve: Word)
    requires Sane(r, tx) && Sound(r, tx) && Ready(t, c, tx) && Tracks(t, c, s, f)
    requires Reserves(tx, reserve, payerReserve, f) && Coins(s) < U64_LIMIT
    requires tx.name.Some? ==>
      Mineable(t, tx, height) && Get(s, NameKey(tx.name.value.name)) == Get(t.state, NameKey(tx.name.value.name))
    ensures ApplyTx(r, s, tx, height, reserve, payerReserve).Ok?
    ensures Tracks(t, Picked(r, t, c, tx), ApplyTx(r, s, tx, height, reserve, payerReserve).value, f)
  {
    if tx.name.Some? {
      NameStep(r, t, c, s, f, tx, height, reserve, payerReserve);
    } else if tx.issue.Some? {
      IssueStep(r, t, c, s, f, tx, reserve, payerReserve);
    } else if tx.assetOp.Some? {
      AssetOpStep(r, t, c, s, f, tx, reserve, payerReserve);
    } else if IsAssetTransfer(tx) {
      AssetTransferStep(r, t, c, s, f, tx, reserve, payerReserve);
    } else {
      TransferShape(r, tx);
      TransferStep(r, t, c, s, f, tx, reserve, payerReserve);
    }
  }
}
