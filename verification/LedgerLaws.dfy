/** What every transaction keeps: coin moves but for the fee, reserves stay untouched, and each
    asset's total changes only by what is issued, minted or burned. */
module LedgerLaws {
  import opened Bytes
  import opened Transactions
  import opened Ledger
  import opened LedgerSums

  lemma GetSet(s: State, a: Address, acc: Account, b: Address)
    ensures Get(Set(s, a, acc), b) == if b == a then acc else Get(s, b)
  {
    if IsEmpty(acc) {
      assert acc == ZERO;
    }
  }

  /** The least balance each address must keep. */
  type Floor = Address -> nat

  ghost predicate Above(s: State, f: Floor) {
    forall a :: f(a) <= Get(s, a).balance
  }

  lemma AboveSet(s: State, f: Floor, a: Address, acc: Account)
    requires Above(s, f) && f(a) <= acc.balance
    ensures Above(Set(s, a, acc), f)
  {
    forall b ensures f(b) <= Get(Set(s, a, acc), b).balance {
      GetSet(s, a, acc, b);
    }
  }

  /** The coin a name operation would overwrite: none, unless somebody paid the name's own key. */
  ghost function Overwritten(s: State, tx: Tx): (n: nat) {
    if tx.name.Some? then Get(s, NameKey(tx.name.value.name)).balance else 0
  }

  ghost function Coins(s: State): (n: nat) {
    Sum(s, Coin())
  }

  lemma CoinsSet(s: State, a: Address, acc: Account)
    ensures Coins(Set(s, a, acc)) + Get(s, a).balance == Coins(s) + acc.balance
  {
    SumSets(s, Coin(), a, acc);
  }

  lemma SponsorPays(s: State, tx: Tx, reserve: Word, f: Floor)
    requires ChargeSponsor(s, tx, reserve).Ok?
    ensures var t := ChargeSponsor(s, tx, reserve).value;
            && Coins(t) + (if IsSponsored(tx) then tx.fee else 0) == Coins(s)
            && (Above(s, f) && (IsSponsored(tx) ==> reserve == f(tx.feePayer)) ==> Above(t, f))
  {
    if IsSponsored(tx) {
      var payer := Get(s, tx.feePayer);
      var after := payer.(balance := payer.balance - tx.fee);
      CoinsSet(s, tx.feePayer, after);
      if Above(s, f) && reserve == f(tx.feePayer) {
        AboveSet(s, f, tx.feePayer, after);
      }
    }
  }

  lemma CreditPays(s: State, o: Output, f: Floor)
    requires Credit(s, o).Ok?
    ensures Coins(Credit(s, o).value) == Coins(s) + o.amount
    ensures Above(s, f) ==> Above(Credit(s, o).value, f)
  {
    var acc := Get(s, o.recipient);
    var after := acc.(balance := acc.balance + o.amount);
    CoinsSet(s, o.recipient, after);
    if Above(s, f) {
      assert f(o.recipient) <= acc.balance;
      AboveSet(s, f, o.recipient, after);
    }
  }

  lemma {:induction false} CreditsPay(s: State, outs: seq<Output>, f: Floor)
    requires CreditAll(s, outs).Ok?
    ensures Coins(CreditAll(s, outs).value) == Coins(s) + SumOutputs(outs)
    ensures Above(s, f) ==> Above(CreditAll(s, outs).value, f)
    decreases |outs|
  {
    if outs != [] {
      var n := |outs| - 1;
      CreditsPay(s, outs[..n], f);
      CreditPays(CreditAll(s, outs[..n]).value, outs[n], f);
    }
  }

  /** The sender's own write, common to every kind of transaction. */
  lemma SenderPays(s: State, tx: Tx, cost: Word, reserve: Word, acc: Account, f: Floor)
    requires Paid(Get(s, tx.sender), tx, cost, reserve).Ok?
    requires acc.balance == Paid(Get(s, tx.sender), tx, cost, reserve).value.balance
    ensures Coins(Set(s, tx.sender, acc)) + cost == Coins(s)
    ensures Above(s, f) && reserve == f(tx.sender) ==> Above(Set(s, tx.sender, acc), f)
  {
    CoinsSet(s, tx.sender, acc);
    if Above(s, f) && reserve == f(tx.sender) {
      AboveSet(s, f, tx.sender, acc);
    }
  }

  lemma TransferKeeps(s: State, tx: Tx, reserve: Word, payerReserve: Word, f: Floor)
    requires ApplyTransfer(s, tx, reserve, payerReserve).Ok?
    ensures var t := ApplyTransfer(s, tx, reserve, payerReserve).value;
            && Coins(t) + tx.fee == Coins(s)
            && (Above(s, f) && Reserves(tx, reserve, payerReserve, f) ==> Above(t, f))
  {
    var cost := SumOutputs(Outputs(tx)) + SenderFee(tx);
    var paid := Paid(Get(s, tx.sender), tx, cost, reserve);
    var s1 := Set(s, tx.sender, paid.value);
    SenderPays(s, tx, cost, reserve, paid.value, f);
    SponsorPays(s1, tx, payerReserve, f);
    CreditsPay(ChargeSponsor(s1, tx, payerReserve).value, Outputs(tx), f);
  }

  /** The reserves passed to a transaction are the floors of the accounts it debits. */
  ghost predicate Reserves(tx: Tx, reserve: Word, payerReserve: Word, f: Floor) {
    reserve == f(tx.sender) && (IsSponsored(tx) ==> payerReserve == f(tx.feePayer))
  }

  lemma AssetTxKeeps(r: Rules, s: State, tx: Tx, reserve: Word, payerReserve: Word, f: Floor)
    requires tx.issue.Some? ==> ApplyIssue(r, s, tx, reserve, payerReserve).Ok?
    requires tx.issue.None? && tx.assetOp.Some? ==> ApplyAssetOp(r, s, tx, reserve, payerReserve).Ok?
    requires tx.issue.Some? || tx.assetOp.Some?
    ensures var t := if tx.issue.Some? then ApplyIssue(r, s, tx, reserve, payerReserve).value
                     else ApplyAssetOp(r, s, tx, reserve, payerReserve).value;
            && Coins(t) + tx.fee == Coins(s)
            && (Above(s, f) && Reserves(tx, reserve, payerReserve, f) ==> Above(t, f))
  {
    var sender := Get(s, tx.sender);
    var paid := Paid(sender, tx, SenderFee(tx), reserve).value;
    var acc := if tx.issue.Some? then WithAsset(paid, IssuedId(r, tx), tx.issue.value.supply)
               else WithAsset(paid, tx.assetId, AssetOpDelta(tx.assetOp.value, Held(sender, tx.assetId)).value);
    SenderPays(s, tx, SenderFee(tx), reserve, acc, f);
    SponsorPays(Set(s, tx.sender, acc), tx, payerReserve, f);
  }

  lemma AssetTransferKeeps(s: State, tx: Tx, reserve: Word, payerReserve: Word, f: Floor)
    requires ApplyAssetTransfer(s, tx, reserve, payerReserve).Ok?
    ensures var t := ApplyAssetTransfer(s, tx, reserve, payerReserve).value;
            && Coins(t) + tx.fee == Coins(s)
            && (Above(s, f) && Reserves(tx, reserve, payerReserve, f) ==> Above(t, f))
  {
    var paid := Paid(Get(s, tx.sender), tx, SenderFee(tx), reserve).value;
    var acc := WithAsset(paid, tx.assetId, 0 - tx.amount as int);
    var s1 := Set(s, tx.sender, acc);
    SenderPays(s, tx, SenderFee(tx), reserve, acc, f);
    SponsorPays(s1, tx, payerReserve, f);
    var s2 := ChargeSponsor(s1, tx, payerReserve).value;
    var recip := WithAsset(Get(s2, tx.recipient), tx.assetId, tx.amount);
    CoinsSet(s2, tx.recipient, recip);
    if Above(s2, f) {
      assert f(tx.recipient) <= Get(s2, tx.recipient).balance;
      AboveSet(s2, f, tx.recipient, recip);
    }
  }

  lemma NameKeeps(r: Rules, s: State, tx: Tx, height: Word, reserve: Word, payerReserve: Word, f: Floor)
    requires tx.name.Some? && !IsNameKey(tx.sender) && ApplyName(r, s, tx, height, reserve, payerReserve).Ok?
    ensures var t := ApplyName(r, s, tx, height, reserve, payerReserve).value;
            && Coins(t) + tx.fee + Overwritten(s, tx) == Coins(s)
            && (Above(s, f) && Reserves(tx, reserve, payerReserve, f) && Overwritten(s, tx) == 0 ==> Above(t, f))
  {
    var n, key := tx.name.value, NameKey(tx.name.value.name);
    var paid := Paid(Get(s, tx.sender), tx, SenderFee(tx), reserve).value;
    var rec := NameRecord(NameAfter(n, tx.sender, Get(s, key), height).value);
    var s1 := Set(s, tx.sender, paid);
    SenderPays(s, tx, SenderFee(tx), reserve, paid, f);
    GetSet(s, tx.sender, paid, key);
    CoinsSet(s1, key, rec);
    if Above(s, f) && Reserves(tx, reserve, payerReserve, f) && Overwritten(s, tx) == 0 {
      assert f(key) <= Get(s, key).balance;
      AboveSet(s1, f, key, rec);
    }
    SponsorPays(Set(s1, key, rec), tx, payerReserve, f);
  }

  /** A transaction destroys exactly its fee and whatever coin it overwrites at a name's key; and
      if it overwrites none, every account keeps at least its floor. */
  lemma TxKeeps(r: Rules, s: State, tx: Tx, height: Word, reserve: Word, payerReserve: Word, f: Floor)
    requires Sane(r, tx) && ApplyTx(r, s, tx, height, reserve, payerReserve).Ok?
    ensures var t := ApplyTx(r, s, tx, height, reserve, payerReserve).value;
            && Coins(t) + tx.fee + Overwritten(s, tx) == Coins(s)
            && (Above(s, f) && Reserves(tx, reserve, payerReserve, f) && Overwritten(s, tx) == 0 ==> Above(t, f))
  {
    if tx.name.Some? {
      NameKeeps(r, s, tx, height, reserve, payerReserve, f);
    } else if tx.issue.Some? || tx.assetOp.Some? {
      AssetTxKeeps(r, s, tx, reserve, payerReserve, f);
    } else if IsAssetTransfer(tx) {
      AssetTransferKeeps(s, tx, reserve, payerReserve, f);
    } else {
      TransferKeeps(s, tx, reserve, payerReserve, f);
    }
  }

  /** No name record holds assets, nor coin where that is asked. */
  ghost predicate NamesBare(s: State, coin: bool) {
    forall a :: IsNameKey(a) ==> Bare(Get(s, a), coin)
  }

  predicate Bare(acc: Account, coin: bool) {
    (coin ==> acc.balance == 0) && acc.assets == map[]
  }

  lemma BareSet(s: State, a: Address, acc: Account, coin: bool)
    requires NamesBare(s, coin) && (IsNameKey(a) ==> Bare(acc, coin))
    ensures NamesBare(Set(s, a, acc), coin)
  {
    forall b | IsNameKey(b) ensures Bare(Get(Set(s, a, acc), b), coin) {
      GetSet(s, a, acc, b);
    }
  }

  lemma {:induction false} BareCredits(s: State, outs: seq<Output>, coin: bool)
    requires NamesBare(s, coin) && CreditAll(s, outs).Ok? && forall i :: 0 <= i < |outs| ==> !IsNameKey(outs[i].recipient)
    ensures NamesBare(CreditAll(s, outs).value, coin)
    decreases |outs|
  {
    if outs != [] {
      var n := |outs| - 1;
      BareCredits(s, outs[..n], coin);
      var t := CreditAll(s, outs[..n]).value;
      var acc := Get(t, outs[n].recipient);
      BareSet(t, outs[n].recipient, acc.(balance := (acc.balance + outs[n].amount)), coin);
    }
  }

  lemma BareSponsor(s: State, tx: Tx, reserve: Word, coin: bool)
    requires NamesBare(s, coin) && !IsNameKey(tx.feePayer) && ChargeSponsor(s, tx, reserve).Ok?
    ensures NamesBare(ChargeSponsor(s, tx, reserve).value, coin)
  {
    if IsSponsored(tx) {
      var payer := Get(s, tx.feePayer);
      BareSet(s, tx.feePayer, payer.(balance := payer.balance - tx.fee), coin);
    }
  }

  /** A sender's write and a sponsor's charge. */
  lemma BarePaid(s: State, tx: Tx, acc: Account, reserve: Word, coin: bool)
    requires NamesBare(s, coin) && !IsNameKey(tx.sender) && !IsNameKey(tx.feePayer)
    requires ChargeSponsor(Set(s, tx.sender, acc), tx, reserve).Ok?
    ensures NamesBare(ChargeSponsor(Set(s, tx.sender, acc), tx, reserve).value, coin)
  {
    BareSet(s, tx.sender, acc, coin);
    BareSponsor(Set(s, tx.sender, acc), tx, reserve, coin);
  }

  lemma BareName(r: Rules, s: State, tx: Tx, height: Word, reserve: Word, payerReserve: Word, coin: bool)
    requires tx.name.Some? && Sane(r, tx) && NamesBare(s, coin) && ApplyName(r, s, tx, height, reserve, payerReserve).Ok?
    ensures NamesBare(ApplyName(r, s, tx, height, reserve, payerReserve).value, coin)
  {
    var paid := Paid(Get(s, tx.sender), tx, SenderFee(tx), reserve).value;
    var key := NameKey(tx.name.value.name);
    var rec := NameRecord(NameAfter(tx.name.value, tx.sender, Get(s, key), height).value);
    BareSet(s, tx.sender, paid, coin);
    BareSet(Set(s, tx.sender, paid), key, rec, coin);
    BareSponsor(Set(Set(s, tx.sender, paid), key, rec), tx, payerReserve, coin);
  }

  lemma BareAssets(r: Rules, s: State, tx: Tx, reserve: Word, payerReserve: Word, coin: bool)
    requires Sane(r, tx) && NamesBare(s, coin)
    ensures tx.issue.Some? && ApplyIssue(r, s, tx, reserve, payerReserve).Ok? ==>
      NamesBare(ApplyIssue(r, s, tx, reserve, payerReserve).value, coin)
    ensures tx.assetOp.Some? && ApplyAssetOp(r, s, tx, reserve, payerReserve).Ok? ==>
      NamesBare(ApplyAssetOp(r, s, tx, reserve, payerReserve).value, coin)
  {
    var sender := Get(s, tx.sender);
    if tx.issue.Some? && ApplyIssue(r, s, tx, reserve, payerReserve).Ok? {
      var paid := Paid(sender, tx, SenderFee(tx), reserve).value;
      BarePaid(s, tx, WithAsset(paid, IssuedId(r, tx), tx.issue.value.supply), payerReserve, coin);
    }
    if tx.assetOp.Some? && ApplyAssetOp(r, s, tx, reserve, payerReserve).Ok? {
      var paid := Paid(sender, tx, SenderFee(tx), reserve).value;
      var delta := AssetOpDelta(tx.assetOp.value, Held(sender, tx.assetId)).value;
      BarePaid(s, tx, WithAsset(paid, tx.assetId, delta), payerReserve, coin);
    }
  }

  lemma BareAssetTransfer(r: Rules, s: State, tx: Tx, reserve: Word, payerReserve: Word, coin: bool)
    requires Sane(r, tx) && NamesBare(s, coin) && ApplyAssetTransfer(s, tx, reserve, payerReserve).Ok?
    ensures NamesBare(ApplyAssetTransfer(s, tx, reserve, payerReserve).value, coin)
  {
    var paid := Paid(Get(s, tx.sender), tx, SenderFee(tx), reserve).value;
    var acc := WithAsset(paid, tx.assetId, 0 - tx.amount as int);
    BarePaid(s, tx, acc, payerReserve, coin);
    var t := ChargeSponsor(Set(s, tx.sender, acc), tx, payerReserve).value;
    BareSet(t, tx.recipient, WithAsset(Get(t, tx.recipient), tx.assetId, tx.amount), coin);
  }

  lemma BareTransfer(r: Rules, s: State, tx: Tx, reserve: Word, payerReserve: Word, coin: bool)
    requires Sane(r, tx) && NamesBare(s, coin) && ApplyTransfer(s, tx, reserve, payerReserve).Ok?
    ensures NamesBare(ApplyTransfer(s, tx, reserve, payerReserve).value, coin)
  {
    var acc := Paid(Get(s, tx.sender), tx, SumOutputs(Outputs(tx)) + SenderFee(tx), reserve).value;
    BarePaid(s, tx, acc, payerReserve, coin);
    BareCredits(ChargeSponsor(Set(s, tx.sender, acc), tx, payerReserve).value, Outputs(tx), coin);
  }

  /** No transaction puts coin or assets under a name's key. */
  lemma TxKeepsBare(r: Rules, s: State, tx: Tx, height: Word, reserve: Word, payerReserve: Word, coin: bool)
    requires Sane(r, tx) && NamesBare(s, coin) && ApplyTx(r, s, tx, height, reserve, payerReserve).Ok?
    ensures NamesBare(ApplyTx(r, s, tx, height, reserve, payerReserve).value, coin)
  {
    if tx.name.Some? {
      BareName(r, s, tx, height, reserve, payerReserve, coin);
    } else if tx.issue.Some? || tx.assetOp.Some? {
      BareAssets(r, s, tx, reserve, payerReserve, coin);
    } else if IsAssetTransfer(tx) {
      BareAssetTransfer(r, s, tx, reserve, payerReserve, coin);
    } else {
      BareTransfer(r, s, tx, reserve, payerReserve, coin);
    }
  }
}
