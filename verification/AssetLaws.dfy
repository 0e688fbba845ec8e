/** Each asset's total moves, modulo 64-bit words, by what is issued, minted or burned. */
module AssetLaws {
  import opened Bytes
  import opened Transactions
  import opened Ledger
  import opened LedgerSums
  import opened LedgerLaws

  /** What one transaction may add to an asset's total. */
  ghost function Minted(r: Rules, tx: Tx, id: Bytes): (d: int) {
    if tx.issue.Some? then (if IssuedId(r, tx) == id then tx.issue.value.supply else 0)
    else if tx.assetOp.Some? && tx.assetId == id then
      (if tx.assetOp.value.op == MINT then tx.assetOp.value.amount
       else if tx.assetOp.value.op == BURN then 0 - tx.assetOp.value.amount as int else 0)
    else 0
  }

  ghost predicate Congruent(a: int, b: int) {
    (a - b) % U64_LIMIT == 0
  }

  lemma CongruentChain(a: int, b: int, c: int)
    requires Congruent(a, b) && Congruent(b, c)
    ensures Congruent(a, c)
  {
  }

  lemma CongruentShift(a: int, b: int, d: int)
    requires Congruent(a, b)
    ensures Congruent(a + d, b + d)
  {
  }

  ghost function Units(s: State, id: Bytes): (n: nat) {
    Sum(s, Holding(id))
  }

  /** A write moves an asset's total as it moves the holding. */
  lemma UnitsSet(s: State, a: Address, acc: Account, id: Bytes)
    ensures Units(Set(s, a, acc), id) + Held(Get(s, a), id) == Units(s, id) + Held(acc, id)
  {
    SumSets(s, Holding(id), a, acc);
  }

  lemma UnitsWith(s: State, a: Address, acc: Account, asset: Bytes, delta: int, id: Bytes)
    requires forall k :: Held(acc, k) == Held(Get(s, a), k)
    ensures Congruent(Units(Set(s, a, WithAsset(acc, asset, delta)), id), Units(s, id) + if id == asset then delta else 0)
  {
    UnitsSet(s, a, WithAsset(acc, asset, delta), id);
  }

  lemma UnitsSponsor(s: State, tx: Tx, reserve: Word, id: Bytes)
    requires ChargeSponsor(s, tx, reserve).Ok?
    ensures Units(ChargeSponsor(s, tx, reserve).value, id) == Units(s, id)
  {
    if IsSponsored(tx) {
      var payer := Get(s, tx.feePayer);
      UnitsSet(s, tx.feePayer, payer.(balance := payer.balance - tx.fee), id);
    }
  }

  lemma {:induction false} UnitsCredits(s: State, outs: seq<Output>, id: Bytes)
    requires CreditAll(s, outs).Ok?
    ensures Units(CreditAll(s, outs).value, id) == Units(s, id)
    decreases |outs|
  {
    if outs != [] {
      var n := |outs| - 1;
      UnitsCredits(s, outs[..n], id);
      var t := CreditAll(s, outs[..n]).value;
      var acc := Get(t, outs[n].recipient);
      UnitsSet(t, outs[n].recipient, acc.(balance := acc.balance + outs[n].amount), id);
    }
  }

  lemma TransferUnits(s: State, tx: Tx, reserve: Word, payerReserve: Word, id: Bytes)
    requires ApplyTransfer(s, tx, reserve, payerReserve).Ok?
    ensures Units(ApplyTransfer(s, tx, reserve, payerReserve).value, id) == Units(s, id)
  {
    var acc := Paid(Get(s, tx.sender), tx, SumOutputs(Outputs(tx)) + SenderFee(tx), reserve).value;
    UnitsSet(s, tx.sender, acc, id);
    UnitsSponsor(Set(s, tx.sender, acc), tx, payerReserve, id);
    UnitsCredits(ChargeSponsor(Set(s, tx.sender, acc), tx, payerReserve).value, Outputs(tx), id);
  }

  lemma AssetTransferUnits(s: State, tx: Tx, reserve: Word, payerReserve: Word, id: Bytes)
    requires ApplyAssetTransfer(s, tx, reserve, payerReserve).Ok?
    ensures Congruent(Units(ApplyAssetTransfer(s, tx, reserve, payerReserve).value, id), Units(s, id))
  {
    var paid := Paid(Get(s, tx.sender), tx, SenderFee(tx), reserve).value;
    var s1 := Set(s, tx.sender, WithAsset(paid, tx.assetId, 0 - tx.amount as int));
    UnitsWith(s, tx.sender, paid, tx.assetId, 0 - tx.amount as int, id);
    UnitsSponsor(s1, tx, payerReserve, id);
    var s2 := ChargeSponsor(s1, tx, payerReserve).value;
    UnitsWith(s2, tx.recipient, Get(s2, tx.recipient), tx.assetId, tx.amount, id);
  }

  lemma IssueUnits(r: Rules, s: State, tx: Tx, reserve: Word, payerReserve: Word, id: Bytes)
    requires tx.issue.Some? && ApplyIssue(r, s, tx, reserve, payerReserve).Ok?
    ensures Congruent(Units(ApplyIssue(r, s, tx, reserve, payerReserve).value, id), Units(s, id) + Minted(r, tx, id))
  {
    var paid := Paid(Get(s, tx.sender), tx, SenderFee(tx), reserve).value;
    UnitsWith(s, tx.sender, paid, IssuedId(r, tx), tx.issue.value.supply, id);
    UnitsSponsor(Set(s, tx.sender, WithAsset(paid, IssuedId(r, tx), tx.issue.value.supply)), tx, payerReserve, id);
  }

  lemma AssetOpUnits(r: Rules, s: State, tx: Tx, reserve: Word, payerReserve: Word, id: Bytes)
    requires tx.issue.None? && tx.assetOp.Some? && ApplyAssetOp(r, s, tx, reserve, payerReserve).Ok?
    ensures Congruent(Units(ApplyAssetOp(r, s, tx, reserve, payerReserve).value, id), Units(s, id) + Minted(r, tx, id))
  {
    var sender := Get(s, tx.sender);
    var paid := Paid(sender, tx, SenderFee(tx), reserve).value;
    var delta := AssetOpDelta(tx.assetOp.value, Held(sender, tx.assetId)).value;
    UnitsWith(s, tx.sender, paid, tx.assetId, delta, id);
    UnitsSponsor(Set(s, tx.sender, WithAsset(paid, tx.assetId, delta)), tx, payerReserve, id);
  }

  lemma NameUnits(r: Rules, s: State, tx: Tx, height: Word, reserve: Word, payerReserve: Word, id: Bytes)
    requires tx.name.Some? && !IsNameKey(tx.sender) && NamesBare(s, false)
    requires ApplyName(r, s, tx, height, reserve, payerReserve).Ok?
    ensures Units(ApplyName(r, s, tx, height, reserve, payerReserve).value, id) == Units(s, id)
  {
    var paid := Paid(Get(s, tx.sender), tx, SenderFee(tx), reserve).value;
    var key := NameKey(tx.name.value.name);
    var rec := NameRecord(NameAfter(tx.name.value, tx.sender, Get(s, key), height).value);
    UnitsSet(s, tx.sender, paid, id);
    GetSet(s, tx.sender, paid, key);
    assert Bare(Get(s, key), false);
    UnitsSet(Set(s, tx.sender, paid), key, rec, id);
    UnitsSponsor(Set(Set(s, tx.sender, paid), key, rec), tx, payerReserve, id);
  }

  /** A transaction moves every asset's total by exactly what it mints, modulo 64-bit words. */
  lemma TxUnits(r: Rules, s: State, tx: Tx, height: Word, reserve: Word, payerReserve: Word, id: Bytes)
    requires Sane(r, tx) && NamesBare(s, false) && ApplyTx(r, s, tx, height, reserve, payerReserve).Ok?
    ensures Congruent(Units(ApplyTx(r, s, tx, height, reserve, payerReserve).value, id), Units(s, id) + Minted(r, tx, id))
  {
    if tx.name.Some? {
      NameUnits(r, s, tx, height, reserve, payerReserve, id);
    } else if tx.issue.Some? {
      IssueUnits(r, s, tx, reserve, payerReserve, id);
    } else if tx.assetOp.Some? {
      AssetOpUnits(r, s, tx, reserve, payerReserve, id);
    } else if IsAssetTransfer(tx) {
      AssetTransferUnits(s, tx, reserve, payerReserve, id);
    } else {
      TransferUnits(s, tx, reserve, payerReserve, id);
    }
  }
}
