/** What one transaction does to the account ledger, rule by rule, in 64-bit arithmetic. */
module Ledger {
  import opened Bytes
  import opened Transactions

  const MAX_ASSET_SUPPLY := 0x4000_0000_0000_0000
  const MAX_ADDRESS_BYTES := 90
  const MAX_MEMO_BYTES := 256
  const NAME_LEASE_PERIOD := 100_000
  const MAX_NAME_LEASES := 10

  /** The ASCII bytes of NUL and `name:`. */
  const NAME_KEY_PREFIX: Bytes := [0, 110, 97, 109, 101, 58]
  const MINT: Bytes := [109, 105, 110, 116]
  const BURN: Bytes := [98, 117, 114, 110]
  const REGISTER: Bytes := [114, 101, 103, 105, 115, 116, 101, 114]
  const RENEW: Bytes := [114, 101, 110, 101, 119]
  const TRANSFER: Bytes := [116, 114, 97, 110, 115, 102, 101, 114]
  const RELEASE: Bytes := [114, 101, 108, 101, 97, 115, 101]

  /** An account, or a name record kept under a reserved key. */
  datatype Account = Account(balance: Word, nonce: Word, assets: map<Bytes, Word>, owner: Address, expires: Word)

  const ZERO := Account(0, 0, map[], [], 0)

  type State = map<Address, Account>

  /** A missing account reads as the zero account. */
  function Get(s: State, a: Address): (acc: Account) {
    if a in s then s[a] else ZERO
  }

  predicate IsNameKey(a: Address) {
    NAME_KEY_PREFIX <= a
  }

  function NameKey(name: Bytes): (key: Address)
    ensures IsNameKey(key)
  {
    NAME_KEY_PREFIX + name
  }

  predicate IsEmpty(acc: Account) {
    acc.balance == 0 && acc.nonce == 0 && acc.assets == map[] && acc.owner == [] && acc.expires == 0
  }

  /** Writes an account; an emptied name record is removed instead. */
  function Set(s: State, a: Address, acc: Account): (r: State) {
    if IsNameKey(a) && IsEmpty(acc) then s - {a} else s[a := acc]
  }

  /** What the ledger takes as given: the checks on signatures, authorization shape and height,
      the derivations of asset ids, the size and the id of a transaction. */
  datatype Rules = Rules(
    verified: Tx -> bool,
    authShape: Tx -> bool,
    ready: (Tx, Word) -> bool,
    validTicker: Bytes -> bool,
    validMetadata: Bytes -> bool,
    validName: Bytes -> bool,
    assetId: (Address, Bytes, Word) -> Bytes,
    uniqueId: (Address, Bytes, Word, Bytes) -> Bytes,
    size: Tx -> nat,
    txid: Tx -> Digest)

  function SenderFee(tx: Tx): (fee: Word) {
    if IsSponsored(tx) then 0 else tx.fee
  }

  function IssuedId(r: Rules, tx: Tx): (id: Bytes)
    requires tx.issue.Some?
  {
    var i := tx.issue.value;
    if i.metadata != [] then r.uniqueId(tx.sender, i.ticker, tx.nonce, i.metadata)
    else r.assetId(tx.sender, i.ticker, tx.nonce)
  }

  predicate AssetOpShape(r: Rules, o: AssetOp) {
    (o.op == MINT || o.op == BURN) && 0 < o.amount <= MAX_ASSET_SUPPLY && r.validTicker(o.ticker)
  }

  predicate AuthorizedBy(r: Rules, o: AssetOp, issuer: Address, id: Bytes) {
    r.assetId(issuer, o.ticker, o.issueNonce) == id
  }

  predicate NameOpShape(r: Rules, n: NameOp) {
    && r.validName(n.name)
    && (if n.op == REGISTER || n.op == RENEW then n.periods <= MAX_NAME_LEASES
        else if n.op == TRANSFER then n.target != []
        else n.op == RELEASE && n.target == [] && n.periods == 0)
    && !IsNameKey(n.target)
  }

  predicate IssueShape(r: Rules, i: AssetIssue) {
    r.validTicker(i.ticker) && 0 < i.supply <= MAX_ASSET_SUPPLY
  }

  predicate OutputsShape(tx: Tx) {
    && |tx.outputs| <= MAX_TX_OUTPUTS && tx.recipient == [] && tx.amount == 0 && tx.assetId == [] && tx.issue.None?
    && (forall i :: 0 <= i < |tx.outputs| ==>
          tx.outputs[i].recipient != [] && |tx.outputs[i].recipient| <= MAX_ADDRESS_BYTES && tx.outputs[i].amount > 0)
    && SumOutputs(tx.outputs) + tx.fee < U64_LIMIT
  }

  /** The rules about a transaction that depend on nothing but the transaction itself. */
  predicate Sane(r: Rules, tx: Tx) {
    && !IsCoinbase(tx)
    && |tx.sender| <= MAX_ADDRESS_BYTES && |tx.recipient| <= MAX_ADDRESS_BYTES && |tx.memo| <= MAX_MEMO_BYTES
    && !(tx.expiry != 0 && tx.lockUntil > tx.expiry)
    && |tx.feePayer| <= MAX_ADDRESS_BYTES
    && !IsNameKey(tx.sender) && !IsNameKey(tx.recipient) && !IsNameKey(tx.feePayer)
    && (forall i :: 0 <= i < |tx.outputs| ==> !IsNameKey(tx.outputs[i].recipient))
    && (tx.name.Some? ==>
          NameOpShape(r, tx.name.value) && tx.amount == 0 && tx.assetId == [] && tx.issue.None? && tx.assetOp.None?
          && tx.outputs == [])
    && r.authShape(tx) && (IsSponsored(tx) ==> tx.feePayer != tx.sender)
    && (if IsMultiOutput(tx) then OutputsShape(tx)
        else if tx.issue.Some? then tx.assetId == [] && IssueShape(r, tx.issue.value)
        else if tx.assetOp.Some? then
          && tx.assetId != [] && tx.recipient == [] && tx.amount == 0
          && AssetOpShape(r, tx.assetOp.value) && AuthorizedBy(r, tx.assetOp.value, tx.sender, tx.assetId)
        else if tx.name.Some? then true
        else if IsAssetTransfer(tx) then tx.recipient != [] && tx.amount != 0
        else tx.recipient != [] && !(tx.amount == 0 && tx.fee == 0) && tx.amount + tx.fee < U64_LIMIT)
  }

  function Held(acc: Account, id: Bytes): (n: Word) {
    if id in acc.assets then acc.assets[id] else 0
  }

  /** An account with an asset holding changed; a holding of zero is dropped.  The arithmetic is
      that of 64-bit words. */
  function WithAsset(acc: Account, id: Bytes, delta: int): (r: Account)
    ensures r.balance == acc.balance && r.nonce == acc.nonce
    ensures Held(r, id) == (Held(acc, id) + delta) % U64_LIMIT
    ensures forall other :: other != id ==> Held(r, other) == Held(acc, other)
  {
    var n := (Held(acc, id) + delta) % U64_LIMIT;
    acc.(assets := if n == 0 then acc.assets - {id} else acc.assets[id := n])
  }

  /** The sender's account once it has paid: the nonce is next, and the reserve stays untouched. */
  function Paid(acc: Account, tx: Tx, cost: Word, reserve: Word): (r: Result<Account>) {
    if tx.nonce != acc.nonce || cost + reserve >= U64_LIMIT || acc.balance < cost + reserve then Err
    else Ok(acc.(balance := acc.balance - cost, nonce := (acc.nonce + 1) % U64_LIMIT))
  }

  /** A sponsor pays the fee out of its own spendable coin; its nonce is untouched. */
  function ChargeSponsor(s: State, tx: Tx, reserve: Word): (r: Result<State>) {
    if !IsSponsored(tx) then Ok(s)
    else
      var payer := Get(s, tx.feePayer);
      if tx.fee + reserve >= U64_LIMIT || payer.balance < tx.fee + reserve then Err
      else Ok(Set(s, tx.feePayer, payer.(balance := payer.balance - tx.fee)))
  }

  function Credit(s: State, o: Output): (r: Result<State>) {
    var acc := Get(s, o.recipient);
    if acc.balance + o.amount >= U64_LIMIT then Err
    else Ok(Set(s, o.recipient, acc.(balance := acc.balance + o.amount)))
  }

  /** Recipients credited in turn, so that a repeated one accumulates. */
  function CreditAll(s: State, outs: seq<Output>): (r: Result<State>) {
    if outs == [] then Ok(s)
    else
      var done := CreditAll(s, outs[..|outs| - 1]);
      if done.Err? then Err else Credit(done.value, outs[|outs| - 1])
  }

  function ApplyTransfer(s: State, tx: Tx, reserve: Word, payerReserve: Word): (r: Result<State>) {
    var out := SumOutputs(Outputs(tx));
    if out >= U64_LIMIT || (out == 0 && tx.fee == 0) || out + SenderFee(tx) >= U64_LIMIT then Err
    else
      var paid := Paid(Get(s, tx.sender), tx, out + SenderFee(tx), reserve);
      if paid.Err? then Err
      else
        var charged := ChargeSponsor(Set(s, tx.sender, paid.value), tx, payerReserve);
        if charged.Err? then Err else CreditAll(charged.value, Outputs(tx))
  }

  function ApplyIssue(r: Rules, s: State, tx: Tx, reserve: Word, payerReserve: Word): (res: Result<State>)
    requires tx.issue.Some?
  {
    var i := tx.issue.value;
    var paid := Paid(Get(s, tx.sender), tx, SenderFee(tx), reserve);
    if !IssueShape(r, i) || (i.metadata != [] && (!r.validMetadata(i.metadata) || i.supply != 1)) || paid.Err? then Err
    else ChargeSponsor(Set(s, tx.sender, WithAsset(paid.value, IssuedId(r, tx), i.supply)), tx, payerReserve)
  }

  /** How a management operation changes the issuer's own holding; none when it may not. */
  function AssetOpDelta(o: AssetOp, held: Word): (d: Option<int>) {
    if o.op == MINT then (if held + o.amount > MAX_ASSET_SUPPLY then None else Some(o.amount))
    else if o.op == BURN then (if held < o.amount then None else Some(0 - o.amount as int))
    else None
  }

  function ApplyAssetOp(r: Rules, s: State, tx: Tx, reserve: Word, payerReserve: Word): (res: Result<State>)
    requires tx.assetOp.Some?
  {
    var o := tx.assetOp.value;
    var acc := Get(s, tx.sender);
    var paid, delta := Paid(acc, tx, SenderFee(tx), reserve), AssetOpDelta(o, Held(acc, tx.assetId));
    if !AssetOpShape(r, o) || !AuthorizedBy(r, o, tx.sender, tx.assetId) || paid.Err? || delta.None? then Err
    else ChargeSponsor(Set(s, tx.sender, WithAsset(paid.value, tx.assetId, delta.value)), tx, payerReserve)
  }

  function ApplyAssetTransfer(s: State, tx: Tx, reserve: Word, payerReserve: Word): (res: Result<State>) {
    var acc := Get(s, tx.sender);
    var paid := Paid(acc, tx, SenderFee(tx), reserve);
    if tx.amount == 0 || paid.Err? || Held(acc, tx.assetId) < tx.amount then Err
    else
      var charged := ChargeSponsor(Set(s, tx.sender, WithAsset(paid.value, tx.assetId, 0 - tx.amount as int)), tx, payerReserve);
      if charged.Err? then Err
      else Ok(Set(charged.value, tx.recipient, WithAsset(Get(charged.value, tx.recipient), tx.assetId, tx.amount)))
  }

  predicate HeldAt(rec: Account, height: Word) {
    rec.owner != [] && rec.expires > height
  }

  function Lease(n: NameOp): (blocks: nat) {
    (if n.periods == 0 then 1 else n.periods) * NAME_LEASE_PERIOD
  }

  /** The record a name operation leaves; none when it is not allowed. */
  function NameAfter(n: NameOp, sender: Address, rec: Account, height: Word): (r: Option<Account>) {
    var held := HeldAt(rec, height);
    if n.op == REGISTER then
      if held then None
      else Some(ZERO.(owner := if n.target == [] then sender else n.target, expires := (height + Lease(n)) % U64_LIMIT))
    else if !held || rec.owner != sender then None
    else if n.op == RENEW then Some(ZERO.(owner := rec.owner, expires := (rec.expires + Lease(n)) % U64_LIMIT))
    else if n.op == TRANSFER then Some(ZERO.(owner := n.target, expires := rec.expires))
    else Some(ZERO)
  }

  /** A record without an owner is removed. */
  function NameRecord(rec: Account): (r: Account) {
    if rec.owner == [] then ZERO else rec
  }

  function ApplyName(r: Rules, s: State, tx: Tx, height: Word, reserve: Word, payerReserve: Word): (res: Result<State>)
    requires tx.name.Some?
  {
    var n := tx.name.value;
    var paid := Paid(Get(s, tx.sender), tx, SenderFee(tx), reserve);
    var rec := NameAfter(n, tx.sender, Get(s, NameKey(n.name)), height);
    if !NameOpShape(r, n) || paid.Err? || rec.None? then Err
    else ChargeSponsor(Set(Set(s, tx.sender, paid.value), NameKey(n.name), NameRecord(rec.value)), tx, payerReserve)
  }

  /** One transaction: the kind decides what moves besides the fee. */
  function ApplyTx(r: Rules, s: State, tx: Tx, height: Word, reserve: Word, payerReserve: Word): (res: Result<State>) {
    if !r.verified(tx) then Err
    else if tx.name.Some? then ApplyName(r, s, tx, height, reserve, payerReserve)
    else if tx.issue.Some? then ApplyIssue(r, s, tx, reserve, payerReserve)
    else if tx.assetOp.Some? then ApplyAssetOp(r, s, tx, reserve, payerReserve)
    else if IsAssetTransfer(tx) then ApplyAssetTransfer(s, tx, reserve, payerReserve)
    else ApplyTransfer(s, tx, reserve, payerReserve)
  }
}
