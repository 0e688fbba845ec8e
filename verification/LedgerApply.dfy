/** Applying transactions and blocks to the ledger in place.  On any error the ledger is left
    exactly as it was; on success it is what the rules say, with a log that leads back. */
module LedgerApply {
  import opened Bytes
  import opened Transactions
  import opened Ledger
  import opened LedgerStore

  /** A step that succeeded left the ledger the rules say; one that failed has no outcome. */
  predicate Outcome(ok: bool, want: Result<State>, s: State) {
    if ok then want == Ok(s) else want.Err?
  }

  /** A 64-bit sum, or none when it wraps: a wrapped sum is below its first term. */
  function WordSum(a: Word, b: Word): (r: Option<Word>)
    ensures r == if a + b < U64_LIMIT then Some(a + b) else None
  {
    var n := (a + b) % U64_LIMIT;
    if n < a then None else Some(n)
  }

  /** Checks the nonce and the spendable balance, and debits. */
  method Debit(acc: Account, tx: Tx, cost: Word, reserve: Word) returns (r: Result<Account>)
    ensures r == Paid(acc, tx, cost, reserve)
  {
    if tx.nonce != acc.nonce {
      return Err;
    }
    var need := WordSum(cost, reserve);
    if need.None? || acc.balance < need.value {
      return Err;
    }
    return Ok(acc.(balance := acc.balance - cost, nonce := (acc.nonce + 1) % U64_LIMIT));
  }

  /** Everyone a transaction can write to. */
  function TouchedBy(tx: Tx): (who: set<Address>) {
    {tx.sender, tx.recipient} + (if IsSponsored(tx) then {tx.feePayer} else {})
    + (if tx.name.Some? then {NameKey(tx.name.value.name)} else {}) + PaidIn(Outputs(tx))
  }

  function PaidIn(outs: seq<Output>): (who: set<Address>) {
    set i | 0 <= i < |outs| :: outs[i].recipient
  }

  /** The log grew by entries for these accounts only. */
  ghost predicate LogsOnly(was: seq<UndoEntry>, now: seq<UndoEntry>, who: set<Address>) {
    Named(now) <= Named(was) + who
  }

  method Charge(st: Accounts, tx: Tx, reserve: Word) returns (ok: bool)
    requires st.Valid()
    modifies st`state, st`undo
    ensures st.Valid() && Outcome(ok, ChargeSponsor(old(st.state), tx, reserve), st.state)
    ensures LogsOnly(old(st.undo), st.undo, if IsSponsored(tx) then {tx.feePayer} else {})
  {
    if !IsSponsored(tx) {
      return true;
    }
    var payer := Get(st.state, tx.feePayer);
    var need := WordSum(tx.fee, reserve);
    if need.None? || payer.balance < need.value {
      return false;
    }
    st.Write(tx.feePayer, payer.(balance := payer.balance - tx.fee));
    return true;
  }

  /** Credits each recipient in turn, reading the ledger back every time. */
  method CreditOutputs(st: Accounts, outs: seq<Output>) returns (ok: bool)
    requires st.Valid()
    modifies st`state, st`undo
    ensures st.Valid() && Outcome(ok, CreditAll(old(st.state), outs), st.state)
    ensures LogsOnly(old(st.undo), st.undo, PaidIn(outs))
  {
    ghost var start := st.state;
    for i := 0 to |outs|
      invariant st.Valid() && CreditAll(start, outs[..i]) == Ok(st.state) && LogsOnly(old(st.undo), st.undo, PaidIn(outs))
    {
      assert outs[..i + 1][..i] == outs[..i];
      var acc := Get(st.state, outs[i].recipient);
      var sum := WordSum(acc.balance, outs[i].amount);
      if sum.None? {
        CreditFails(start, outs, i + 1);
        return false;
      }
      st.Write(outs[i].recipient, acc.(balance := sum.value));
    }
    assert outs[..|outs|] == outs;
    return true;
  }

  lemma {:induction false} CreditFails(s: State, outs: seq<Output>, n: nat)
    requires n <= |outs| && CreditAll(s, outs[..n]).Err?
    ensures CreditAll(s, outs).Err?
    decreases |outs|
  {
    if n == |outs| {
      assert outs[..n] == outs;
    } else {
      assert outs[..|outs| - 1][..n] == outs[..n];
      CreditFails(s, outs[..|outs| - 1], n);
    }
  }

  method DoTransfer(st: Accounts, tx: Tx, reserve: Word, payerReserve: Word) returns (ok: bool)
    requires st.Valid()
    modifies st`state, st`undo
    ensures st.Valid() && Outcome(ok, ApplyTransfer(old(st.state), tx, reserve, payerReserve), st.state)
    ensures LogsOnly(old(st.undo), st.undo, TouchedBy(tx))
  {
    var out := TotalOut(tx);
    if out.None? || (out.value == 0 && tx.fee == 0) {
      return false;
    }
    var total := WordSum(out.value, SenderFee(tx));
    if total.None? {
      return false;
    }
    var paid := Debit(Get(st.state, tx.sender), tx, total.value, reserve);
    if paid.Err? {
      return false;
    }
    st.Write(tx.sender, paid.value);
    ok := Charge(st, tx, payerReserve);
    if ok {
      ok := CreditOutputs(st, Outputs(tx));
    }
  }

  method DoIssue(r: Rules, st: Accounts, tx: Tx, reserve: Word, payerReserve: Word) returns (ok: bool)
    requires st.Valid() && tx.issue.Some?
    modifies st`state, st`undo
    ensures st.Valid() && Outcome(ok, ApplyIssue(r, old(st.state), tx, reserve, payerReserve), st.state)
    ensures LogsOnly(old(st.undo), st.undo, TouchedBy(tx))
  {
    var issue := tx.issue.value;
    if !r.validTicker(issue.ticker) || issue.supply == 0 || issue.supply > MAX_ASSET_SUPPLY {
      return false;
    }
    if issue.metadata != [] && (!r.validMetadata(issue.metadata) || issue.supply != 1) {
      return false;
    }
    var paid := Debit(Get(st.state, tx.sender), tx, SenderFee(tx), reserve);
    if paid.Err? {
      return false;
    }
    st.Write(tx.sender, WithAsset(paid.value, IssuedId(r, tx), issue.supply));
    ok := Charge(st, tx, payerReserve);
  }

  method DoAssetOp(r: Rules, st: Accounts, tx: Tx, reserve: Word, payerReserve: Word) returns (ok: bool)
    requires st.Valid() && tx.assetOp.Some?
    modifies st`state, st`undo
    ensures st.Valid() && Outcome(ok, ApplyAssetOp(r, old(st.state), tx, reserve, payerReserve), st.state)
    ensures LogsOnly(old(st.undo), st.undo, TouchedBy(tx))
  {
    var op := tx.assetOp.value;
    if !AssetOpShape(r, op) || !AuthorizedBy(r, op, tx.sender, tx.assetId) {
      return false;
    }
    var sender := Get(st.state, tx.sender);
    var paid := Debit(sender, tx, SenderFee(tx), reserve);
    if paid.Err? {
      return false;
    }
    var held := Held(sender, tx.assetId);
    var delta: int;
    if op.op == MINT {
      var sum := WordSum(held, op.amount);
      if sum.None? || sum.value > MAX_ASSET_SUPPLY {
        return false;
      }
      delta := op.amount;
    } else {
      if held < op.amount {
        return false;
      }
      delta := 0 - op.amount as int;
    }
    st.Write(tx.sender, WithAsset(paid.value, tx.assetId, delta));
    ok := Charge(st, tx, payerReserve);
  }

  method DoAssetTransfer(st: Accounts, tx: Tx, reserve: Word, payerReserve: Word) returns (ok: bool)
    requires st.Valid()
    modifies st`state, st`undo
    ensures st.Valid() && Outcome(ok, ApplyAssetTransfer(old(st.state), tx, reserve, payerReserve), st.state)
    ensures LogsOnly(old(st.undo), st.undo, TouchedBy(tx))
  {
    if tx.amount == 0 {
      return false;
    }
    var sender := Get(st.state, tx.sender);
    var paid := Debit(sender, tx, SenderFee(tx), reserve);
    if paid.Err? || Held(sender, tx.assetId) < tx.amount {
      return false;
    }
    st.Write(tx.sender, WithAsset(paid.value, tx.assetId, 0 - tx.amount as int));
    ok := Charge(st, tx, payerReserve);
    if ok {
      st.Write(tx.recipient, WithAsset(Get(st.state, tx.recipient), tx.assetId, tx.amount));
    }
  }

  /** What a name operation makes of the name's record; a released name leaves an empty one. */
  method NextRecord(op: NameOp, sender: Address, rec: Account, height: Word) returns (next: Option<Account>)
    ensures var want := NameAfter(op, sender, rec, height);
            next == if want.None? then None else Some(NameRecord(want.value))
  {
    var owner, expires := rec.owner, rec.expires;
    var held := HeldAt(rec, height);
    if op.op == REGISTER {
      if held {
        return None;
      }
      owner := if op.target == [] then sender else op.target;
      expires := (height + Lease(op)) % U64_LIMIT;
    } else {
      if !held || rec.owner != sender {
        return None;
      }
      if op.op == RENEW {
        expires := (rec.expires + Lease(op)) % U64_LIMIT;
      } else if op.op == TRANSFER {
        owner := op.target;
      } else {
        owner := [];
      }
    }
    if owner == [] {
      return Some(ZERO);
    }
    return Some(ZERO.(owner := owner, expires := expires));
  }

  method DoName(r: Rules, st: Accounts, tx: Tx, height: Word, reserve: Word, payerReserve: Word) returns (ok: bool)
    requires st.Valid() && tx.name.Some?
    modifies st`state, st`undo
    ensures st.Valid() && Outcome(ok, ApplyName(r, old(st.state), tx, height, reserve, payerReserve), st.state)
    ensures LogsOnly(old(st.undo), st.undo, TouchedBy(tx))
  {
    var op := tx.name.value;
    if !NameOpShape(r, op) {
      return false;
    }
    var paid := Debit(Get(st.state, tx.sender), tx, SenderFee(tx), reserve);
    if paid.Err? {
      return false;
    }
    var key := NameKey(op.name);
    var rec := NextRecord(op, tx.sender, Get(st.state, key), height);
    if rec.None? {
      return false;
    }
    st.Write(tx.sender, paid.value);
    st.Write(key, rec.value);
    ok := Charge(st, tx, payerReserve);
  }

  /** Validates one signed transaction against the ledger and applies it. */
  method ApplyTxTo(r: Rules, st: Accounts, tx: Tx, height: Word, reserve: Word, payerReserve: Word) returns (ok: bool)
    requires st.Valid()
    modifies st`state, st`undo
    ensures st.Valid() && Outcome(ok, ApplyTx(r, old(st.state), tx, height, reserve, payerReserve), st.state)
    ensures LogsOnly(old(st.undo), st.undo, TouchedBy(tx))
  {
    if !r.verified(tx) {
      return false;
    }
    if tx.name.Some? {
      ok := DoName(r, st, tx, height, reserve, payerReserve);
    } else if tx.issue.Some? {
      ok := DoIssue(r, st, tx, reserve, payerReserve);
    } else if tx.assetOp.Some? {
      ok := DoAssetOp(r, st, tx, reserve, payerReserve);
    } else if IsAssetTransfer(tx) {
      ok := DoAssetTransfer(st, tx, reserve, payerReserve);
    } else {
      ok := DoTransfer(st, tx, reserve, payerReserve);
    }
  }
}
