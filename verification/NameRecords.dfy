/** Which name records a transaction reaches: its own, and no other. */
module NameRecords {
  import opened Bytes
  import opened Transactions
  import opened Ledger
  import opened LedgerLaws

  /** The name a transaction acts on. */
  ghost predicate ActsOn(tx: Tx, name: Bytes) {
    tx.name.Some? && tx.name.value.name == name
  }

  /** Records of other names read the same. */
  ghost predicate OthersKept(s: State, t: State, tx: Tx) {
    forall name :: !ActsOn(tx, name) ==> Get(t, NameKey(name)) == Get(s, NameKey(name))
  }

  lemma OrdinarySet(s: State, a: Address, acc: Account, tx: Tx)
    requires !IsNameKey(a)
    ensures OthersKept(s, Set(s, a, acc), tx)
  {
  }

  lemma KeptTrans(s: State, t: State, u: State, tx: Tx)
    requires OthersKept(s, t, tx) && OthersKept(t, u, tx)
    ensures OthersKept(s, u, tx)
  {
  }

  lemma OwnRecordSet(s: State, rec: Account, tx: Tx)
    requires tx.name.Some?
    ensures OthersKept(s, Set(s, NameKey(tx.name.value.name), rec), tx)
  {
    forall name | !ActsOn(tx, name) ensures Get(Set(s, NameKey(tx.name.value.name), rec), NameKey(name)) == Get(s, NameKey(name)) {
      NameKeyUnique(name, tx.name.value.name);
      GetSet(s, NameKey(tx.name.value.name), rec, NameKey(name));
    }
  }

  lemma NameKeyUnique(a: Bytes, b: Bytes)
    requires a != b
    ensures NameKey(a) != NameKey(b)
  {
    if NameKey(a) == NameKey(b) {
      SplitUnique(NAME_KEY_PREFIX, a, NAME_KEY_PREFIX, b);
    }
  }

  lemma SponsorKept(s: State, tx: Tx, reserve: Word)
    requires !IsNameKey(tx.feePayer) && ChargeSponsor(s, tx, reserve).Ok?
    ensures OthersKept(s, ChargeSponsor(s, tx, reserve).value, tx)
  {
  }

  lemma {:induction false} CreditsKept(s: State, outs: seq<Output>, tx: Tx)
    requires CreditAll(s, outs).Ok? && forall i :: 0 <= i < |outs| ==> !IsNameKey(outs[i].recipient)
    ensures OthersKept(s, CreditAll(s, outs).value, tx)
    decreases |outs|
  {
    if outs != [] {
      var n := |outs| - 1;
      CreditsKept(s, outs[..n], tx);
      var s1 := CreditAll(s, outs[..n]).value;
      var acc := Get(s1, outs[n].recipient);
      OrdinarySet(s1, outs[n].recipient, acc.(balance := acc.balance + outs[n].amount), tx);
    }
  }

  /** A transaction reaches no name record but the one it acts on. */
  lemma TxKeepsNames(r: Rules, s: State, tx: Tx, height: Word, reserve: Word, payerReserve: Word)
    requires Sane(r, tx) && ApplyTx(r, s, tx, height, reserve, payerReserve).Ok?
    ensures OthersKept(s, ApplyTx(r, s, tx, height, reserve, payerReserve).value, tx)
  {
    if tx.name.Some? {
      NameOpKeeps(r, s, tx, height, reserve, payerReserve);
    } else if tx.issue.Some? {
      var acc := WithAsset(Paid(Get(s, tx.sender), tx, SenderFee(tx), reserve).value, IssuedId(r, tx), tx.issue.value.supply);
      SenderKeeps(s, tx, acc, payerReserve);
    } else if tx.assetOp.Some? {
      var delta := AssetOpDelta(tx.assetOp.value, Held(Get(s, tx.sender), tx.assetId)).value;
      SenderKeeps(s, tx, WithAsset(Paid(Get(s, tx.sender), tx, SenderFee(tx), reserve).value, tx.assetId, delta), payerReserve);
    } else if IsAssetTransfer(tx) {
      AssetTransferKeeps(s, tx, reserve, payerReserve);
    } else {
      TransferShape(r, tx);
      TransferKeepsNames(s, tx, reserve, payerReserve);
    }
  }

  lemma SenderKeeps(s: State, tx: Tx, acc: Account, payerReserve: Word)
    requires !IsNameKey(tx.sender) && !IsNameKey(tx.feePayer) && ChargeSponsor(Set(s, tx.sender, acc), tx, payerReserve).Ok?
    ensures OthersKept(s, ChargeSponsor(Set(s, tx.sender, acc), tx, payerReserve).value, tx)
  {
    OrdinarySet(s, tx.sender, acc, tx);
    SponsorKept(Set(s, tx.sender, acc), tx, payerReserve);
  }

  lemma NameOpKeeps(r: Rules, s: State, tx: Tx, height: Word, reserve: Word, payerReserve: Word)
    requires tx.name.Some? && !IsNameKey(tx.sender) && !IsNameKey(tx.feePayer)
    requires ApplyName(r, s, tx, height, reserve, payerReserve).Ok?
    ensures OthersKept(s, ApplyName(r, s, tx, height, reserve, payerReserve).value, tx)
  {
    var key := NameKey(tx.name.value.name);
    var s1 := Set(s, tx.sender, Paid(Get(s, tx.sender), tx, SenderFee(tx), reserve).value);
    var rec := NameRecord(NameAfter(tx.name.value, tx.sender, Get(s, key), height).value);
    OrdinarySet(s, tx.sender, Paid(Get(s, tx.sender), tx, SenderFee(tx), reserve).value, tx);
    OwnRecordSet(s1, rec, tx);
    SponsorKept(Set(s1, key, rec), tx, payerReserve);
    KeptTrans(s, s1, Set(s1, key, rec), tx);
    KeptTrans(s, Set(s1, key, rec), ApplyName(r, s, tx, height, reserve, payerReserve).value, tx);
  }

  lemma AssetTransferKeeps(s: State, tx: Tx, reserve: Word, payerReserve: Word)
    requires !IsNameKey(tx.sender) && !IsNameKey(tx.feePayer) && !IsNameKey(tx.recipient)
    requires ApplyAssetTransfer(s, tx, reserve, payerReserve).Ok?
    ensures OthersKept(s, ApplyAssetTransfer(s, tx, reserve, payerReserve).value, tx)
  {
    var acc := WithAsset(Paid(Get(s, tx.sender), tx, SenderFee(tx), reserve).value, tx.assetId, 0 - tx.amount as int);
    SenderKeeps(s, tx, acc, payerReserve);
    var s2 := ChargeSponsor(Set(s, tx.sender, acc), tx, payerReserve).value;
    OrdinarySet(s2, tx.recipient, WithAsset(Get(s2, tx.recipient), tx.assetId, tx.amount), tx);
    KeptTrans(s, s2, ApplyAssetTransfer(s, tx, reserve, payerReserve).value, tx);
  }

  lemma TransferKeepsNames(s: State, tx: Tx, reserve: Word, payerReserve: Word)
    requires !IsNameKey(tx.sender) && !IsNameKey(tx.feePayer)
    requires forall i :: 0 <= i < |Outputs(tx)| ==> !IsNameKey(Outputs(tx)[i].recipient)
    requires ApplyTransfer(s, tx, reserve, payerReserve).Ok?
    ensures OthersKept(s, ApplyTransfer(s, tx, reserve, payerReserve).value, tx)
  {
    var cost := SumOutputs(Outputs(tx)) + SenderFee(tx);
    var acc := Paid(Get(s, tx.sender), tx, cost, reserve).value;
    SenderKeeps(s, tx, acc, payerReserve);
    var s2 := ChargeSponsor(Set(s, tx.sender, acc), tx, payerReserve).value;
    CreditsKept(s2, Outputs(tx), tx);
    KeptTrans(s, s2, ApplyTransfer(s, tx, reserve, payerReserve).value, tx);
  }

  lemma TransferShape(r: Rules, tx: Tx)
    requires tx.name.None? && tx.issue.None? && tx.assetOp.None? && !IsAssetTransfer(tx) && Sane(r, tx)
    ensures SumOutputs(Outputs(tx)) + SenderFee(tx) < U64_LIMIT && !(SumOutputs(Outputs(tx)) == 0 && tx.fee == 0)
    ensures forall i :: 0 <= i < |Outputs(tx)| ==> !IsNameKey(Outputs(tx)[i].recipient)
  {
    var outs := Outputs(tx);
    assert SumOutputs(outs) == SumOutputs(outs[..|outs| - 1]) + outs[|outs| - 1].amount;
    if !IsMultiOutput(tx) {
      assert outs[..0] == [];
    }
  }

  /** Its own record becomes what the operation makes of it. */
  lemma ActingRecord(r: Rules, s: State, tx: Tx, height: Word, reserve: Word, payerReserve: Word)
    requires tx.name.Some? && !IsNameKey(tx.sender) && !IsNameKey(tx.feePayer)
    requires ApplyName(r, s, tx, height, reserve, payerReserve).Ok?
    ensures var key := NameKey(tx.name.value.name);
            var after := NameAfter(tx.name.value, tx.sender, Get(s, key), height);
            after.Some? && Get(ApplyName(r, s, tx, height, reserve, payerReserve).value, key) == NameRecord(after.value)
  {
    var key := NameKey(tx.name.value.name);
    var paid := Paid(Get(s, tx.sender), tx, SenderFee(tx), reserve).value;
    var rec := NameRecord(NameAfter(tx.name.value, tx.sender, Get(s, key), height).value);
    var s1 := Set(s, tx.sender, paid);
    GetSet(s1, key, rec, key);
    if IsSponsored(tx) {
      var payer := Get(Set(s1, key, rec), tx.feePayer);
      GetSet(Set(s1, key, rec), tx.feePayer, payer.(balance := payer.balance - tx.fee), key);
    }
  }
}
