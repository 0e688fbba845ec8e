/** What one transaction does to each account, field by field, and exactly when it may. */
module LedgerEffects {
  import opened Bytes
  import opened Transactions
  import opened Ledger
  import opened LedgerLaws
  import opened NameRecords
  import opened Leases

  /** A transfer of coin, as opposed to a name operation or one about assets. */
  predicate MovesCoin(tx: Tx) {
    tx.name.None? && tx.issue.None? && tx.assetOp.None? && tx.assetId == []
  }

  /** What the outputs take from the sender. */
  function Sent(tx: Tx): (n: nat) {
    if MovesCoin(tx) then SumOutputs(Outputs(tx)) else 0
  }

  /** The coin an address gives: its outputs and its fee as sender, the fee as sponsor. */
  function Gives(tx: Tx, a: Address): (n: nat) {
    (if a == tx.sender then Sent(tx) + (if tx.feePayer == [] then tx.fee else 0) else 0)
    + (if tx.feePayer != [] && a == tx.feePayer then tx.fee else 0)
  }

  /** The coin an address gets. */
  function Gets(tx: Tx, a: Address): (n: nat) {
    if MovesCoin(tx) then PaidBy(Outputs(tx), a) else 0
  }

  /** How an address's holding of one asset moves. */
  function Moves(r: Rules, tx: Tx, a: Address, id: Bytes): (d: int) {
    if tx.name.Some? then 0
    else if tx.issue.Some? then
      var i := tx.issue.value;
      var born := if i.metadata == [] then r.assetId(tx.sender, i.ticker, tx.nonce) else r.uniqueId(tx.sender, i.ticker, tx.nonce, i.metadata);
      if a == tx.sender && id == born then i.supply else 0
    else if id != tx.assetId then 0
    else if tx.assetOp.Some? then
      if a != tx.sender then 0 else if tx.assetOp.value.op == MINT then tx.assetOp.value.amount else 0 - tx.assetOp.value.amount as int
    else if id == [] then 0
    else (if a == tx.sender then 0 - tx.amount as int else 0) + (if a == tx.recipient then tx.amount else 0)
  }

  /** An account before and after. */
  ghost predicate Settles(r: Rules, tx: Tx, a: Address, was: Account, now: Account) {
    SettlesCoin(tx, a, was, now) && forall id :: SettlesUnits(r, tx, a, was, now, id)
  }

  ghost predicate SettlesCoin(tx: Tx, a: Address, was: Account, now: Account) {
    && now.balance == was.balance - Gives(tx, a) + Gets(tx, a)
    && now.nonce == (if a == tx.sender then (was.nonce + 1) % U64_LIMIT else was.nonce)
    && now.owner == was.owner && now.expires == was.expires
  }

  ghost predicate SettlesUnits(r: Rules, tx: Tx, a: Address, was: Account, now: Account, id: Bytes) {
    Held(now, id) == (Held(was, id) + Moves(r, tx, a, id)) % U64_LIMIT
  }

  /** Holdings that did not move. */
  lemma UnitsStay(r: Rules, tx: Tx, a: Address, was: Account, now: Account)
    requires now.assets == was.assets && forall id :: Moves(r, tx, a, id) == 0
    ensures forall id :: SettlesUnits(r, tx, a, was, now, id)
  {
    forall id ensures SettlesUnits(r, tx, a, was, now, id) {
      assert Moves(r, tx, a, id) == 0;
    }
  }

  lemma ThereAndBack(held: Word, n: Word)
    ensures ((held - n) % U64_LIMIT + n) % U64_LIMIT == held
  {
  }

  lemma SponsorGet(s: State, tx: Tx, reserve: Word, a: Address)
    requires ChargeSponsor(s, tx, reserve).Ok?
    ensures var acc, now := Get(s, a), Get(ChargeSponsor(s, tx, reserve).value, a);
            if tx.feePayer != [] && a == tx.feePayer then tx.fee <= acc.balance && now == acc.(balance := acc.balance - tx.fee) else now == acc
  {
    if IsSponsored(tx) {
      var payer := Get(s, tx.feePayer);
      GetSet(s, tx.feePayer, payer.(balance := payer.balance - tx.fee), a);
    }
  }

  lemma {:induction false} CreditsGet(s: State, outs: seq<Output>, a: Address)
    requires CreditAll(s, outs).Ok?
    ensures var acc := Get(s, a);
            acc.balance + PaidBy(outs, a) < U64_LIMIT
            && Get(CreditAll(s, outs).value, a) == acc.(balance := acc.balance + PaidBy(outs, a))
    decreases |outs|
  {
    if outs != [] {
      var n := |outs| - 1;
      CreditsGet(s, outs[..n], a);
      var t := CreditAll(s, outs[..n]).value;
      var acc := Get(t, outs[n].recipient);
      GetSet(t, outs[n].recipient, acc.(balance := acc.balance + outs[n].amount), a);
    }
  }

  /** Credits fail only where somebody's balance would leave 64 bits. */
  lemma {:induction false} CreditsFit(s: State, outs: seq<Output>)
    requires CreditAll(s, outs).Err?
    ensures exists a :: Get(s, a).balance + PaidBy(outs, a) >= U64_LIMIT
    decreases |outs|
  {
    var n := |outs| - 1;
    if CreditAll(s, outs[..n]).Err? {
      CreditsFit(s, outs[..n]);
      var a :| Get(s, a).balance + PaidBy(outs[..n], a) >= U64_LIMIT;
      assert Get(s, a).balance + PaidBy(outs, a) >= U64_LIMIT;
    } else {
      var a := outs[n].recipient;
      CreditsGet(s, outs[..n], a);
      assert Get(s, a).balance + PaidBy(outs, a) >= U64_LIMIT;
    }
  }

  lemma TransferCoin(s: State, tx: Tx, reserve: Word, payerReserve: Word, a: Address)
    requires MovesCoin(tx) && (IsSponsored(tx) ==> tx.feePayer != tx.sender) && ApplyTransfer(s, tx, reserve, payerReserve).Ok?
    ensures var was, now := Get(s, a), Get(ApplyTransfer(s, tx, reserve, payerReserve).value, a);
            SettlesCoin(tx, a, was, now) && now.assets == was.assets
  {
    var acc := Paid(Get(s, tx.sender), tx, SumOutputs(Outputs(tx)) + SenderFee(tx), reserve).value;
    GetSet(s, tx.sender, acc, a);
    SponsorGet(Set(s, tx.sender, acc), tx, payerReserve, a);
    CreditsGet(ChargeSponsor(Set(s, tx.sender, acc), tx, payerReserve).value, Outputs(tx), a);
  }

  lemma TransferMoves(r: Rules, s: State, tx: Tx, reserve: Word, payerReserve: Word, a: Address)
    requires MovesCoin(tx) && (IsSponsored(tx) ==> tx.feePayer != tx.sender) && ApplyTransfer(s, tx, reserve, payerReserve).Ok?
    ensures Settles(r, tx, a, Get(s, a), Get(ApplyTransfer(s, tx, reserve, payerReserve).value, a))
  {
    TransferCoin(s, tx, reserve, payerReserve, a);
    UnitsStay(r, tx, a, Get(s, a), Get(ApplyTransfer(s, tx, reserve, payerReserve).value, a));
  }

  /** A write to the sender that moves one holding, and the sponsor's charge. */
  lemma OwnHolding(s: State, tx: Tx, reserve: Word, id: Bytes, delta: int, payerReserve: Word, a: Address)
    requires !MovesCoin(tx) && (IsSponsored(tx) ==> tx.feePayer != tx.sender) && Paid(Get(s, tx.sender), tx, SenderFee(tx), reserve).Ok?
    requires var acc := WithAsset(Paid(Get(s, tx.sender), tx, SenderFee(tx), reserve).value, id, delta);
             ChargeSponsor(Set(s, tx.sender, acc), tx, payerReserve).Ok?
    ensures var acc := WithAsset(Paid(Get(s, tx.sender), tx, SenderFee(tx), reserve).value, id, delta);
            var was, now := Get(s, a), Get(ChargeSponsor(Set(s, tx.sender, acc), tx, payerReserve).value, a);
            && SettlesCoin(tx, a, was, now)
            && forall k :: Held(now, k) == if a == tx.sender && k == id then (Held(was, k) + delta) % U64_LIMIT else Held(was, k)
  {
    var acc := WithAsset(Paid(Get(s, tx.sender), tx, SenderFee(tx), reserve).value, id, delta);
    GetSet(s, tx.sender, acc, a);
    SponsorGet(Set(s, tx.sender, acc), tx, payerReserve, a);
  }

  lemma IssueMoves(r: Rules, s: State, tx: Tx, reserve: Word, payerReserve: Word, a: Address)
    requires tx.name.None? && tx.issue.Some? && (IsSponsored(tx) ==> tx.feePayer != tx.sender)
    requires ApplyIssue(r, s, tx, reserve, payerReserve).Ok?
    ensures Settles(r, tx, a, Get(s, a), Get(ApplyIssue(r, s, tx, reserve, payerReserve).value, a))
  {
    var was, now := Get(s, a), Get(ApplyIssue(r, s, tx, reserve, payerReserve).value, a);
    OwnHolding(s, tx, reserve, IssuedId(r, tx), tx.issue.value.supply, payerReserve, a);
    forall id ensures SettlesUnits(r, tx, a, was, now, id) {
      assert Moves(r, tx, a, id) == if a == tx.sender && id == IssuedId(r, tx) then tx.issue.value.supply else 0;
    }
  }

  lemma AssetOpMoves(r: Rules, s: State, tx: Tx, reserve: Word, payerReserve: Word, a: Address)
    requires tx.name.None? && tx.issue.None? && tx.assetOp.Some? && (IsSponsored(tx) ==> tx.feePayer != tx.sender)
    requires ApplyAssetOp(r, s, tx, reserve, payerReserve).Ok?
    ensures Settles(r, tx, a, Get(s, a), Get(ApplyAssetOp(r, s, tx, reserve, payerReserve).value, a))
  {
    var was, now := Get(s, a), Get(ApplyAssetOp(r, s, tx, reserve, payerReserve).value, a);
    var delta := AssetOpDelta(tx.assetOp.value, Held(Get(s, tx.sender), tx.assetId)).value;
    OwnHolding(s, tx, reserve, tx.assetId, delta, payerReserve, a);
    forall id ensures SettlesUnits(r, tx, a, was, now, id) {
      assert Moves(r, tx, a, id) == if a == tx.sender && id == tx.assetId then delta else 0;
    }
  }

  lemma AssetTransferMoves(r: Rules, s: State, tx: Tx, reserve: Word, payerReserve: Word, a: Address)
    requires tx.name.None? && tx.issue.None? && tx.assetOp.None? && tx.assetId != [] && (IsSponsored(tx) ==> tx.feePayer != tx.sender)
    requires ApplyAssetTransfer(s, tx, reserve, payerReserve).Ok?
    ensures Settles(r, tx, a, Get(s, a), Get(ApplyAssetTransfer(s, tx, reserve, payerReserve).value, a))
  {
    var acc := WithAsset(Paid(Get(s, tx.sender), tx, SenderFee(tx), reserve).value, tx.assetId, 0 - tx.amount as int);
    var s2 := ChargeSponsor(Set(s, tx.sender, acc), tx, payerReserve).value;
    OwnHolding(s, tx, reserve, tx.assetId, 0 - tx.amount as int, payerReserve, a);
    var was, mid, now := Get(s, a), Get(s2, a), Get(ApplyAssetTransfer(s, tx, reserve, payerReserve).value, a);
    GetSet(s2, tx.recipient, WithAsset(Get(s2, tx.recipient), tx.assetId, tx.amount), a);
    forall id ensures SettlesUnits(r, tx, a, was, now, id) {
      Arrives(r, tx, a, was, mid, now, id);
    }
  }

  lemma Arrives(r: Rules, tx: Tx, a: Address, was: Account, mid: Account, now: Account, id: Bytes)
    requires tx.name.None? && tx.issue.None? && tx.assetOp.None? && tx.assetId != []
    requires Held(mid, id) == if a == tx.sender && id == tx.assetId then (Held(was, id) - tx.amount) % U64_LIMIT else Held(was, id)
    requires now == if a == tx.recipient then WithAsset(mid, tx.assetId, tx.amount) else mid
    ensures SettlesUnits(r, tx, a, was, now, id)
  {
    ThereAndBack(Held(was, id), tx.amount);
  }

  lemma NameCoin(r: Rules, s: State, tx: Tx, height: Word, reserve: Word, payerReserve: Word, a: Address)
    requires tx.name.Some? && !IsNameKey(a) && (IsSponsored(tx) ==> tx.feePayer != tx.sender)
    requires ApplyName(r, s, tx, height, reserve, payerReserve).Ok?
    ensures var was, now := Get(s, a), Get(ApplyName(r, s, tx, height, reserve, payerReserve).value, a);
            SettlesCoin(tx, a, was, now) && now.assets == was.assets
  {
    var key := NameKey(tx.name.value.name);
    var acc := Paid(Get(s, tx.sender), tx, SenderFee(tx), reserve).value;
    var rec := NameRecord(NameAfter(tx.name.value, tx.sender, Get(s, key), height).value);
    GetSet(s, tx.sender, acc, a);
    GetSet(Set(s, tx.sender, acc), key, rec, a);
    SponsorGet(Set(Set(s, tx.sender, acc), key, rec), tx, payerReserve, a);
  }

  lemma NameMoves(r: Rules, s: State, tx: Tx, height: Word, reserve: Word, payerReserve: Word, a: Address)
    requires tx.name.Some? && !IsNameKey(a) && (IsSponsored(tx) ==> tx.feePayer != tx.sender)
    requires ApplyName(r, s, tx, height, reserve, payerReserve).Ok?
    ensures Settles(r, tx, a, Get(s, a), Get(ApplyName(r, s, tx, height, reserve, payerReserve).value, a))
  {
    NameCoin(r, s, tx, height, reserve, payerReserve, a);
    UnitsStay(r, tx, a, Get(s, a), Get(ApplyName(r, s, tx, height, reserve, payerReserve).value, a));
  }

  /** Every applied transaction settles every ordinary account so: what it gives and gets in coin, its
      holdings, the sender's nonce moved on by one and nobody else's. */
  lemma TxMoves(r: Rules, s: State, tx: Tx, height: Word, reserve: Word, payerReserve: Word, a: Address)
    requires Sane(r, tx) && ApplyTx(r, s, tx, height, reserve, payerReserve).Ok? && !IsNameKey(a)
    ensures Settles(r, tx, a, Get(s, a), Get(ApplyTx(r, s, tx, height, reserve, payerReserve).value, a))
  {
    if tx.name.Some? {
      NameMoves(r, s, tx, height, reserve, payerReserve, a);
    } else if tx.issue.Some? {
      IssueMoves(r, s, tx, reserve, payerReserve, a);
    } else if tx.assetOp.Some? {
      AssetOpMoves(r, s, tx, reserve, payerReserve, a);
    } else if tx.assetId != [] {
      AssetTransferMoves(r, s, tx, reserve, payerReserve, a);
    } else {
      TransferMoves(r, s, tx, reserve, payerReserve, a);
    }
  }

  /** What its kind asks besides: a name nobody holds to register and the holder for anything else;
      metadata for one unit only; an asset of the sender's own issue to mint, within the cap, or to burn;
      holdings to burn or to send. */
  ghost predicate Allows(r: Rules, s: State, tx: Tx, height: Word) {
    var acc := Get(s, tx.sender);
    if tx.name.Some? then
      var rec := Get(s, NameKey(tx.name.value.name));
      var held := rec.owner != [] && rec.expires > height;
      if tx.name.value.op == REGISTER then !held else held && rec.owner == tx.sender
    else if tx.issue.Some? then
      tx.issue.value.metadata != [] ==> r.validMetadata(tx.issue.value.metadata) && tx.issue.value.supply == 1
    else if tx.assetOp.Some? then
      var o := tx.assetOp.value;
      && 0 < o.amount <= MAX_ASSET_SUPPLY && r.validTicker(o.ticker) && tx.assetId == r.assetId(tx.sender, o.ticker, o.issueNonce)
      && (if o.op == MINT then Held(acc, tx.assetId) + o.amount <= MAX_ASSET_SUPPLY else o.op == BURN && o.amount <= Held(acc, tx.assetId))
    else tx.assetId != [] ==> tx.amount <= Held(acc, tx.assetId)
  }

  /** Signed, next in line, paid for above what may not be spent yet, and nobody's balance overflows. */
  ghost predicate Due(r: Rules, s: State, tx: Tx, height: Word, reserve: Word, payerReserve: Word) {
    && r.verified(tx) && tx.nonce == Get(s, tx.sender).nonce
    && Gives(tx, tx.sender) + reserve <= Get(s, tx.sender).balance
    && (tx.feePayer != [] ==> tx.fee + payerReserve <= Get(s, tx.feePayer).balance)
    && Allows(r, s, tx, height)
    && forall a :: Get(s, a).balance - Gives(tx, a) + Gets(tx, a) < U64_LIMIT
  }

  lemma SenderPays(s: State, tx: Tx, reserve: Word)
    requires IsSponsored(tx) ==> tx.feePayer != tx.sender
    requires Sent(tx) + SenderFee(tx) < U64_LIMIT
    ensures Paid(Get(s, tx.sender), tx, Sent(tx) + SenderFee(tx), reserve).Ok? <==>
      tx.nonce == Get(s, tx.sender).nonce && Gives(tx, tx.sender) + reserve <= Get(s, tx.sender).balance
  {
  }

  lemma PayerPays(s: State, tx: Tx, acc: Account, payerReserve: Word)
    requires IsSponsored(tx) ==> tx.feePayer != tx.sender
    ensures ChargeSponsor(Set(s, tx.sender, acc), tx, payerReserve).Ok? <==>
      (tx.feePayer != [] ==> tx.fee + payerReserve <= Get(s, tx.feePayer).balance)
  {
    GetSet(s, tx.sender, acc, tx.feePayer);
  }

  /** Where nobody gets coin nobody's balance overflows. */
  lemma NobodyGets(s: State, tx: Tx)
    requires !MovesCoin(tx)
    ensures forall a :: Get(s, a).balance - Gives(tx, a) + Gets(tx, a) < U64_LIMIT
  {
  }

  lemma NameTaken(r: Rules, s: State, tx: Tx, height: Word, reserve: Word, payerReserve: Word)
    requires Sane(r, tx) && tx.name.Some?
    ensures ApplyTx(r, s, tx, height, reserve, payerReserve).Ok? <==> Due(r, s, tx, height, reserve, payerReserve)
  {
    SenderPays(s, tx, reserve);
    PayerPays(s, tx, Get(s, tx.sender), payerReserve);
    assert ChargeSponsor(s, tx, payerReserve).Ok? <==> (tx.feePayer != [] ==> tx.fee + payerReserve <= Get(s, tx.feePayer).balance);
    NobodyGets(s, tx);
    NameOpTaken(r, s, tx, height, reserve, payerReserve);
  }

  lemma AssetsTaken(r: Rules, s: State, tx: Tx, height: Word, reserve: Word, payerReserve: Word)
    requires Sane(r, tx) && tx.name.None? && !MovesCoin(tx)
    ensures ApplyTx(r, s, tx, height, reserve, payerReserve).Ok? <==> Due(r, s, tx, height, reserve, payerReserve)
  {
    var sender := Get(s, tx.sender);
    var paid := Paid(sender, tx, SenderFee(tx), reserve);
    SenderPays(s, tx, reserve);
    NobodyGets(s, tx);
    if paid.Ok? && Allows(r, s, tx, height) {
      if tx.issue.Some? {
        PayerPays(s, tx, WithAsset(paid.value, IssuedId(r, tx), tx.issue.value.supply), payerReserve);
      } else if tx.assetOp.Some? {
        var delta := AssetOpDelta(tx.assetOp.value, Held(sender, tx.assetId)).value;
        PayerPays(s, tx, WithAsset(paid.value, tx.assetId, delta), payerReserve);
      } else {
        PayerPays(s, tx, WithAsset(paid.value, tx.assetId, 0 - tx.amount as int), payerReserve);
      }
    }
  }

  /** After sender and sponsor have paid, the outputs fit exactly when no balance overflows. */
  lemma OutputsFit(s: State, tx: Tx, acc: Account, reserve: Word, payerReserve: Word)
    requires MovesCoin(tx) && (IsSponsored(tx) ==> tx.feePayer != tx.sender) && Sent(tx) + SenderFee(tx) < U64_LIMIT
    requires Paid(Get(s, tx.sender), tx, Sent(tx) + SenderFee(tx), reserve) == Ok(acc)
    requires ChargeSponsor(Set(s, tx.sender, acc), tx, payerReserve).Ok?
    ensures CreditAll(ChargeSponsor(Set(s, tx.sender, acc), tx, payerReserve).value, Outputs(tx)).Ok? <==>
      forall a :: Get(s, a).balance - Gives(tx, a) + Gets(tx, a) < U64_LIMIT
  {
    var mid := ChargeSponsor(Set(s, tx.sender, acc), tx, payerReserve).value;
    forall a ensures Get(mid, a).balance == Get(s, a).balance - Gives(tx, a) {
      GetSet(s, tx.sender, acc, a);
      SponsorGet(Set(s, tx.sender, acc), tx, payerReserve, a);
    }
    if CreditAll(mid, Outputs(tx)).Ok? {
      forall a ensures Get(s, a).balance - Gives(tx, a) + Gets(tx, a) < U64_LIMIT {
        CreditsGet(mid, Outputs(tx), a);
      }
    } else {
      CreditsFit(mid, Outputs(tx));
    }
  }

  lemma TransferTaken(r: Rules, s: State, tx: Tx, height: Word, reserve: Word, payerReserve: Word)
    requires Sane(r, tx) && MovesCoin(tx)
    ensures ApplyTx(r, s, tx, height, reserve, payerReserve).Ok? <==> Due(r, s, tx, height, reserve, payerReserve)
  {
    TransferShape(r, tx);
    SenderPays(s, tx, reserve);
    var paid := Paid(Get(s, tx.sender), tx, Sent(tx) + SenderFee(tx), reserve);
    if paid.Ok? {
      PayerPays(s, tx, paid.value, payerReserve);
      if ChargeSponsor(Set(s, tx.sender, paid.value), tx, payerReserve).Ok? {
        OutputsFit(s, tx, paid.value, reserve, payerReserve);
      }
    }
  }

  /** Exactly these are applied: in particular none whose nonce is not its sender's next. */
  lemma TxTaken(r: Rules, s: State, tx: Tx, height: Word, reserve: Word, payerReserve: Word)
    requires Sane(r, tx)
    ensures ApplyTx(r, s, tx, height, reserve, payerReserve).Ok? <==> Due(r, s, tx, height, reserve, payerReserve)
  {
    if tx.name.Some? {
      NameTaken(r, s, tx, height, reserve, payerReserve);
    } else if MovesCoin(tx) {
      TransferTaken(r, s, tx, height, reserve, payerReserve);
    } else {
      AssetsTaken(r, s, tx, height, reserve, payerReserve);
    }
  }

  /** Only the issuer's own transaction mints or burns: the asset's id is derived from its sender. */
  lemma OnlyIssuerManages(r: Rules, s: State, tx: Tx, height: Word, reserve: Word, payerReserve: Word, a: Address, id: Bytes)
    requires Sane(r, tx) && tx.name.None? && tx.issue.None? && tx.assetOp.Some? && ApplyTx(r, s, tx, height, reserve, payerReserve).Ok?
    requires !IsNameKey(a) && Held(Get(ApplyTx(r, s, tx, height, reserve, payerReserve).value, a), id) != Held(Get(s, a), id)
    ensures a == tx.sender && id == r.assetId(a, tx.assetOp.value.ticker, tx.assetOp.value.issueNonce)
  {
    TxMoves(r, s, tx, height, reserve, payerReserve, a);
    assert SettlesUnits(r, tx, a, Get(s, a), Get(ApplyTx(r, s, tx, height, reserve, payerReserve).value, a), id);
  }
}
