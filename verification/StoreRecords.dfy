/** The store's record format: fields one after the other, hex strings as raw bytes.  What a record
    gives back, and exactly when that is the block that was written. */
module StoreRecords {
  import opened Bytes
  import opened Seqs
  import opened Transactions
  import Codec
  import BlockLog

  const MAX_OUTPUTS_READ := 2 * MAX_TX_OUTPUTS
  const MAX_STRINGS_READ := 64_000
  const MAX_TXS_READ := 1001
  const RECORD_TAG: Byte := 5

  datatype Multisig = Multisig(threshold: nat, keys: seq<Bytes>)
  datatype Htlc = Htlc(hash: Bytes, recipient: Bytes, sender: Bytes, timeout: Word)
  datatype Vault = Vault(hot: Bytes, cold: Bytes, unlock: Word)
  datatype ScriptAuth = ScriptAuth(code: Bytes, inputs: seq<Bytes>)

  /** Everything that authorizes a transaction, field by field. */
  datatype Auth = Auth(
    pubKey: Bytes, signature: Bytes, multisig: Option<Multisig>, signatures: seq<Bytes>,
    htlc: Option<Htlc>, preimage: Bytes, vault: Option<Vault>, script: Option<ScriptAuth>,
    sponsorKey: Bytes, sponsorSig: Bytes)

  /** A transaction with its authorization spelled out; `tx.auth` is not used. */
  datatype StoredTx = StoredTx(tx: Tx, auth: Auth)

  /** A header and its transactions; `header.txs` is not used. */
  datatype StoredBlock = StoredBlock(header: Block, txs: seq<StoredTx>)

  const BLANK_TX := Tx([], [], 0, 0, 0, 0, 0, [], [], [], None, None, None, [], [])
  const BLANK_AUTH := Auth([], [], None, [], None, [], None, None, [], [])

  // hex strings

  function HexDigit(n: nat): (c: Byte)
    requires n < 16
  {
    if n < 10 then 48 + n else 87 + n
  }

  function HexValue(c: Byte): (n: int) {
    if 48 <= c <= 57 then c - 48 else if 97 <= c <= 102 then c - 87 else -1
  }

  predicate AllHex(v: Bytes) {
    forall i :: 0 <= i < |v| ==> HexValue(v[i]) >= 0
  }

  /** An even run of lower-case hex digits, and not empty. */
  predicate IsHex(v: Bytes) {
    v != [] && |v| % 2 == 0 && AllHex(v)
  }

  function FromHex(v: Bytes): (raw: Bytes)
    requires |v| % 2 == 0 && AllHex(v)
    ensures 2 * |raw| == |v|
  {
    if v == [] then [] else [16 * HexValue(v[0]) + HexValue(v[1])] + FromHex(v[2..])
  }

  function ToHex(raw: Bytes): (v: Bytes) {
    if raw == [] then [] else [HexDigit(raw[0] / 16), HexDigit(raw[0] % 16)] + ToHex(raw[1..])
  }

  lemma {:induction false} HexBack(v: Bytes)
    requires |v| % 2 == 0 && AllHex(v)
    ensures ToHex(FromHex(v)) == v
    decreases |v|
  {
    if v != [] {
      HexBack(v[2..]);
      assert FromHex(v)[1..] == FromHex(v[2..]);
      assert v == [v[0], v[1]] + v[2..];
    }
  }

  // fields: written in front of what follows, read off the front

  function ByteOn(x: Byte, rest: Bytes): (b: Bytes) { [x] + rest }

  function U32On(n: nat, rest: Bytes): (b: Bytes) { Codec.U32(n) + rest }

  function U64On(n: Word, rest: Bytes): (b: Bytes) { U64(n) + rest }

  function StrOn(v: Bytes, rest: Bytes): (b: Bytes) {
    if IsHex(v) then ByteOn(1, U32On(|v| / 2, FromHex(v) + rest)) else ByteOn(0, U32On(|v|, v + rest))
  }

  function FlagOn(present: bool, rest: Bytes): (b: Bytes) { ByteOn(if present then 1 else 0, rest) }

  function Take(b: Bytes, n: nat): (r: Option<(Bytes, Bytes)>) {
    if n > |b| then None else Some((b[..n], b[n..]))
  }

  function ReadByte(b: Bytes): (r: Option<(Byte, Bytes)>) {
    if b == [] then None else Some((b[0], b[1..]))
  }

  function ReadU32(b: Bytes): (r: Option<(Word, Bytes)>) {
    var (x, rest) :- Take(b, 4);
    Some((Value(x) % U32_LIMIT, rest))
  }

  function ReadU64(b: Bytes): (r: Option<(Word, Bytes)>) {
    var (x, rest) :- Take(b, 8);
    Some((Value(x) % U64_LIMIT, rest))
  }

  function ReadStr(b: Bytes): (r: Option<(Bytes, Bytes)>) {
    var (kind, b1) :- ReadByte(b);
    var (n, b2) :- ReadU32(b1);
    if n > BlockLog.MAX_RECORD then None
    else
      var (raw, rest) :- Take(b2, n);
      if kind == 1 then Some((ToHex(raw), rest)) else if kind == 0 then Some((raw, rest)) else None
  }

  function ReadFlag(b: Bytes): (r: Option<(bool, Bytes)>) {
    var (x, rest) :- ReadByte(b);
    Some((x == 1, rest))
  }

  lemma TakeBack(v: Bytes, rest: Bytes)
    ensures Take(v + rest, |v|) == Some((v, rest))
  {
    DropHead(v, rest);
  }

  lemma ByteBack(x: Byte, rest: Bytes)
    ensures ReadByte(ByteOn(x, rest)) == Some((x, rest))
  {
  }

  lemma U32Back(n: nat, rest: Bytes)
    requires n < U32_LIMIT
    ensures ReadU32(U32On(n, rest)) == Some((n, rest))
  {
    assert Pow256(2) == 0x1_0000 && Pow256(3) == 256 * Pow256(2) && Pow256(4) == 256 * Pow256(3);
    ValueOfBigEndian(n, 4);
    TakeBack(Codec.U32(n), rest);
  }

  lemma U64Back(n: Word, rest: Bytes)
    ensures ReadU64(U64On(n, rest)) == Some((n, rest))
  {
    PowEight();
    ValueOfBigEndian(n, 8);
    TakeBack(U64(n), rest);
  }

  lemma PowEight()
    ensures Pow256(8) == U64_LIMIT
  {
    assert Pow256(1) == 256 && Pow256(2) == 0x1_0000 && Pow256(4) == U32_LIMIT;
    assert Pow256(5) == 256 * Pow256(4) && Pow256(6) == 256 * Pow256(5);
    assert Pow256(7) == 256 * Pow256(6) && Pow256(8) == 256 * Pow256(7);
  }

  /** Any string a record may hold reads back as itself, compacted or not. */
  lemma StrBack(v: Bytes, rest: Bytes)
    requires |v| <= BlockLog.MAX_RECORD
    ensures ReadStr(StrOn(v, rest)) == Some((v, rest))
  {
    if IsHex(v) {
      HexBack(v);
      ByteBack(1, U32On(|v| / 2, FromHex(v) + rest));
      U32Back(|v| / 2, FromHex(v) + rest);
      TakeBack(FromHex(v), rest);
    } else {
      ByteBack(0, U32On(|v|, v + rest));
      U32Back(|v|, v + rest);
      TakeBack(v, rest);
    }
  }

  lemma FlagBack(present: bool, rest: Bytes)
    ensures ReadFlag(FlagOn(present, rest)) == Some((present, rest))
  {
  }

  // lists

  function EachOn(vs: seq<Bytes>, rest: Bytes): (b: Bytes) {
    if vs == [] then rest else StrOn(vs[0], EachOn(vs[1..], rest))
  }

  function StrsOn(vs: seq<Bytes>, rest: Bytes): (b: Bytes) { U32On(|vs|, EachOn(vs, rest)) }

  function ReadEach(b: Bytes, n: nat): (r: Option<(seq<Bytes>, Bytes)>) {
    if n == 0 then Some(([], b))
    else
      var (v, b1) :- ReadStr(b);
      var (vs, rest) :- ReadEach(b1, n - 1);
      Some(([v] + vs, rest))
  }

  function ReadStrs(b: Bytes): (r: Option<(seq<Bytes>, Bytes)>) {
    var (n, b1) :- ReadU32(b);
    if n > MAX_STRINGS_READ then None else ReadEach(b1, n)
  }

  predicate Fits(v: Bytes) { |v| <= BlockLog.MAX_RECORD }

  predicate AllFit(vs: seq<Bytes>) { forall i :: 0 <= i < |vs| ==> Fits(vs[i]) }

  lemma {:induction false} EachBack(vs: seq<Bytes>, rest: Bytes)
    requires AllFit(vs)
    ensures ReadEach(EachOn(vs, rest), |vs|) == Some((vs, rest))
  {
    if vs != [] {
      StrBack(vs[0], EachOn(vs[1..], rest));
      EachBack(vs[1..], rest);
      assert vs == [vs[0]] + vs[1..];
    }
  }

  lemma StrsBack(vs: seq<Bytes>, rest: Bytes)
    requires AllFit(vs) && |vs| <= MAX_STRINGS_READ
    ensures ReadStrs(StrsOn(vs, rest)) == Some((vs, rest))
  {
    U32Back(|vs|, EachOn(vs, rest));
    EachBack(vs, rest);
  }

  function OutputsOn(os: seq<Output>, rest: Bytes): (b: Bytes) {
    if os == [] then rest else StrOn(os[0].recipient, U64On(os[0].amount, OutputsOn(os[1..], rest)))
  }

  function ReadOutputs(b: Bytes, n: nat): (r: Option<(seq<Output>, Bytes)>) {
    if n == 0 then Some(([], b))
    else
      var (to, b1) :- ReadStr(b);
      var (amount, b2) :- ReadU64(b1);
      var (os, rest) :- ReadOutputs(b2, n - 1);
      Some(([Output(to, amount)] + os, rest))
  }

  predicate OutputsFit(os: seq<Output>) { forall i :: 0 <= i < |os| ==> Fits(os[i].recipient) }

  lemma {:induction false} OutputsBack(os: seq<Output>, rest: Bytes)
    requires OutputsFit(os)
    ensures ReadOutputs(OutputsOn(os, rest), |os|) == Some((os, rest))
  {
    if os != [] {
      var more := OutputsOn(os[1..], rest);
      StrBack(os[0].recipient, U64On(os[0].amount, more));
      U64Back(os[0].amount, more);
      OutputsBack(os[1..], rest);
      assert os == [os[0]] + os[1..];
    }
  }

  // a transaction, part by part

  function MoneyOn(t: Tx, rest: Bytes): (b: Bytes) {
    StrOn(t.sender, StrOn(t.recipient, U64On(t.amount, U64On(t.fee, U64On(t.nonce,
      U64On(t.expiry, U64On(t.lockUntil, StrOn(t.memo, rest))))))))
  }

  function ReadMoney(b: Bytes): (r: Option<(Tx, Bytes)>) {
    var (sender, b1) :- ReadStr(b);
    var (recipient, b2) :- ReadStr(b1);
    var (amount, b3) :- ReadU64(b2);
    var (fee, b4) :- ReadU64(b3);
    var (nonce, b5) :- ReadU64(b4);
    var (expiry, b6) :- ReadU64(b5);
    var (lockUntil, b7) :- ReadU64(b6);
    var (memo, rest) :- ReadStr(b7);
    Some((BLANK_TX.(sender := sender, recipient := recipient, amount := amount, fee := fee, nonce := nonce,
                    expiry := expiry, lockUntil := lockUntil, memo := memo), rest))
  }

  function MoneyOf(t: Tx): (r: Tx) {
    BLANK_TX.(sender := t.sender, recipient := t.recipient, amount := t.amount, fee := t.fee, nonce := t.nonce,
              expiry := t.expiry, lockUntil := t.lockUntil, memo := t.memo)
  }

  lemma MoneyBack(t: Tx, rest: Bytes)
    requires Fits(t.sender) && Fits(t.recipient) && Fits(t.memo)
    ensures ReadMoney(MoneyOn(t, rest)) == Some((MoneyOf(t), rest))
  {
    var b7 := StrOn(t.memo, rest);
    var b6 := U64On(t.lockUntil, b7);
    var b5 := U64On(t.expiry, b6);
    var b4 := U64On(t.nonce, b5);
    var b3 := U64On(t.fee, b4);
    var b2 := U64On(t.amount, b3);
    StrBack(t.sender, StrOn(t.recipient, b2));
    StrBack(t.recipient, b2);
    U64Back(t.amount, b3);
    U64Back(t.fee, b4);
    U64Back(t.nonce, b5);
    U64Back(t.expiry, b6);
    U64Back(t.lockUntil, b7);
    StrBack(t.memo, rest);
  }

  function PayeesOn(t: Tx, rest: Bytes): (b: Bytes) { U32On(|t.outputs|, OutputsOn(t.outputs, rest)) }

  function ReadPayees(b: Bytes): (r: Option<(seq<Output>, Bytes)>) {
    var (n, b1) :- ReadU32(b);
    if n > MAX_OUTPUTS_READ then None else ReadOutputs(b1, n)
  }

  lemma PayeesBack(t: Tx, rest: Bytes)
    requires OutputsFit(t.outputs) && |t.outputs| <= MAX_OUTPUTS_READ
    ensures ReadPayees(PayeesOn(t, rest)) == Some((t.outputs, rest))
  {
    U32Back(|t.outputs|, OutputsOn(t.outputs, rest));
    OutputsBack(t.outputs, rest);
  }

  function IssueOn(i: Option<AssetIssue>, rest: Bytes): (b: Bytes) {
    FlagOn(i.Some?, if i.Some? then StrOn(i.value.ticker, U64On(i.value.supply, rest)) else rest)
  }

  function ReadIssue(b: Bytes): (r: Option<(Option<AssetIssue>, Bytes)>) {
    var (there, b1) :- ReadFlag(b);
    if !there then Some((None, b1))
    else
      var (ticker, b2) :- ReadStr(b1);
      var (supply, rest) :- ReadU64(b2);
      Some((Some(AssetIssue(ticker, supply, [])), rest))
  }

  function BareIssue(i: Option<AssetIssue>): (r: Option<AssetIssue>) {
    if i.None? then None else Some(AssetIssue(i.value.ticker, i.value.supply, []))
  }

  lemma IssueBack(i: Option<AssetIssue>, rest: Bytes)
    requires i.Some? ==> Fits(i.value.ticker)
    ensures ReadIssue(IssueOn(i, rest)) == Some((BareIssue(i), rest))
  {
    if i.Some? {
      var b2 := U64On(i.value.supply, rest);
      FlagBack(true, StrOn(i.value.ticker, b2));
      StrBack(i.value.ticker, b2);
      U64Back(i.value.supply, rest);
    } else {
      FlagBack(false, rest);
    }
  }

  function OpOn(o: Option<AssetOp>, rest: Bytes): (b: Bytes) {
    FlagOn(o.Some?, if o.None? then rest
                    else StrOn(o.value.op, U64On(o.value.amount, StrOn(o.value.ticker, U64On(o.value.issueNonce, rest)))))
  }

  function ReadOp(b: Bytes): (r: Option<(Option<AssetOp>, Bytes)>) {
    var (there, b1) :- ReadFlag(b);
    if !there then Some((None, b1))
    else
      var (op, b2) :- ReadStr(b1);
      var (amount, b3) :- ReadU64(b2);
      var (ticker, b4) :- ReadStr(b3);
      var (issueNonce, rest) :- ReadU64(b4);
      Some((Some(AssetOp(op, amount, ticker, issueNonce)), rest))
  }

  lemma OpBack(o: Option<AssetOp>, rest: Bytes)
    requires o.Some? ==> Fits(o.value.op) && Fits(o.value.ticker)
    ensures ReadOp(OpOn(o, rest)) == Some((o, rest))
  {
    if o.Some? {
      var b4 := U64On(o.value.issueNonce, rest);
      var b3 := StrOn(o.value.ticker, b4);
      var b2 := U64On(o.value.amount, b3);
      FlagBack(true, StrOn(o.value.op, b2));
      StrBack(o.value.op, b2);
      U64Back(o.value.amount, b3);
      StrBack(o.value.ticker, b4);
      U64Back(o.value.issueNonce, rest);
    } else {
      FlagBack(false, rest);
    }
  }

  // its authorization

  function MultisigOn(m: Option<Multisig>, rest: Bytes): (b: Bytes) {
    FlagOn(m.Some?, if m.None? then rest else U32On(m.value.threshold, StrsOn(m.value.keys, rest)))
  }

  function ReadMultisig(b: Bytes): (r: Option<(Option<Multisig>, Bytes)>) {
    var (there, b1) :- ReadFlag(b);
    if !there then Some((None, b1))
    else
      var (threshold, b2) :- ReadU32(b1);
      var (keys, rest) :- ReadStrs(b2);
      Some((Some(Multisig(threshold, keys)), rest))
  }

  lemma MultisigBack(m: Option<Multisig>, rest: Bytes)
    requires m.Some? ==> m.value.threshold < U32_LIMIT && AllFit(m.value.keys) && |m.value.keys| <= MAX_STRINGS_READ
    ensures ReadMultisig(MultisigOn(m, rest)) == Some((m, rest))
  {
    if m.Some? {
      var b2 := StrsOn(m.value.keys, rest);
      FlagBack(true, U32On(m.value.threshold, b2));
      U32Back(m.value.threshold, b2);
      StrsBack(m.value.keys, rest);
    } else {
      FlagBack(false, rest);
    }
  }

  function HtlcOn(o: Option<Htlc>, rest: Bytes): (b: Bytes) {
    FlagOn(o.Some?, if o.None? then rest
                    else StrOn(o.value.hash, StrOn(o.value.recipient, StrOn(o.value.sender, U64On(o.value.timeout, rest)))))
  }

  function ReadHtlc(b: Bytes): (r: Option<(Option<Htlc>, Bytes)>) {
    var (there, b1) :- ReadFlag(b);
    if !there then Some((None, b1))
    else
      var (hash, b2) :- ReadStr(b1);
      var (recipient, b3) :- ReadStr(b2);
      var (sender, b4) :- ReadStr(b3);
      var (timeout, rest) :- ReadU64(b4);
      Some((Some(Htlc(hash, recipient, sender, timeout)), rest))
  }

  lemma HtlcBack(o: Option<Htlc>, rest: Bytes)
    requires o.Some? ==> Fits(o.value.hash) && Fits(o.value.recipient) && Fits(o.value.sender)
    ensures ReadHtlc(HtlcOn(o, rest)) == Some((o, rest))
  {
    if o.Some? {
      var b4 := U64On(o.value.timeout, rest);
      var b3 := StrOn(o.value.sender, b4);
      var b2 := StrOn(o.value.recipient, b3);
      FlagBack(true, StrOn(o.value.hash, b2));
      StrBack(o.value.hash, b2);
      StrBack(o.value.recipient, b3);
      StrBack(o.value.sender, b4);
      U64Back(o.value.timeout, rest);
    } else {
      FlagBack(false, rest);
    }
  }

  function VaultOn(o: Option<Vault>, rest: Bytes): (b: Bytes) {
    FlagOn(o.Some?, if o.None? then rest else StrOn(o.value.hot, StrOn(o.value.cold, U64On(o.value.unlock, rest))))
  }

  function ReadVault(b: Bytes): (r: Option<(Option<Vault>, Bytes)>) {
    var (there, b1) :- ReadFlag(b);
    if !there then Some((None, b1))
    else
      var (hot, b2) :- ReadStr(b1);
      var (cold, b3) :- ReadStr(b2);
      var (unlock, rest) :- ReadU64(b3);
      Some((Some(Vault(hot, cold, unlock)), rest))
  }

  lemma VaultBack(o: Option<Vault>, rest: Bytes)
    requires o.Some? ==> Fits(o.value.hot) && Fits(o.value.cold)
    ensures ReadVault(VaultOn(o, rest)) == Some((o, rest))
  {
    if o.Some? {
      var b3 := U64On(o.value.unlock, rest);
      var b2 := StrOn(o.value.cold, b3);
      FlagBack(true, StrOn(o.value.hot, b2));
      StrBack(o.value.hot, b2);
      StrBack(o.value.cold, b3);
      U64Back(o.value.unlock, rest);
    } else {
      FlagBack(false, rest);
    }
  }

  function KeysOn(a: Auth, rest: Bytes): (b: Bytes) {
    StrOn(a.pubKey, StrOn(a.signature, MultisigOn(a.multisig, StrsOn(a.signatures, rest))))
  }

  function ReadKeys(b: Bytes): (r: Option<(Auth, Bytes)>) {
    var (pubKey, b1) :- ReadStr(b);
    var (signature, b2) :- ReadStr(b1);
    var (multisig, b3) :- ReadMultisig(b2);
    var (signatures, rest) :- ReadStrs(b3);
    Some((BLANK_AUTH.(pubKey := pubKey, signature := signature, multisig := multisig, signatures := signatures), rest))
  }

  function KeysOf(a: Auth): (r: Auth) {
    BLANK_AUTH.(pubKey := a.pubKey, signature := a.signature, multisig := a.multisig, signatures := a.signatures)
  }

  predicate KeysFit(a: Auth) {
    && Fits(a.pubKey) && Fits(a.signature) && AllFit(a.signatures) && |a.signatures| <= MAX_STRINGS_READ
    && (a.multisig.Some? ==>
          && a.multisig.value.threshold < U32_LIMIT && AllFit(a.multisig.value.keys)
          && |a.multisig.value.keys| <= MAX_STRINGS_READ)
  }

  lemma KeysBack(a: Auth, rest: Bytes)
    requires KeysFit(a)
    ensures ReadKeys(KeysOn(a, rest)) == Some((KeysOf(a), rest))
  {
    var b3 := StrsOn(a.signatures, rest);
    var b2 := MultisigOn(a.multisig, b3);
    StrBack(a.pubKey, StrOn(a.signature, b2));
    StrBack(a.signature, b2);
    MultisigBack(a.multisig, b3);
    StrsBack(a.signatures, rest);
  }

  function LocksOn(a: Auth, rest: Bytes): (b: Bytes) {
    HtlcOn(a.htlc, StrOn(a.preimage, VaultOn(a.vault, rest)))
  }

  function ReadLocks(a: Auth, b: Bytes): (r: Option<(Auth, Bytes)>) {
    var (htlc, b1) :- ReadHtlc(b);
    var (preimage, b2) :- ReadStr(b1);
    var (vault, rest) :- ReadVault(b2);
    Some((a.(htlc := htlc, preimage := preimage, vault := vault), rest))
  }

  predicate LocksFit(a: Auth) {
    && Fits(a.preimage)
    && (a.htlc.Some? ==> Fits(a.htlc.value.hash) && Fits(a.htlc.value.recipient) && Fits(a.htlc.value.sender))
    && (a.vault.Some? ==> Fits(a.vault.value.hot) && Fits(a.vault.value.cold))
  }

  lemma LocksBack(into: Auth, a: Auth, rest: Bytes)
    requires LocksFit(a)
    ensures ReadLocks(into, LocksOn(a, rest)) == Some((into.(htlc := a.htlc, preimage := a.preimage, vault := a.vault), rest))
  {
    var b2 := VaultOn(a.vault, rest);
    HtlcBack(a.htlc, StrOn(a.preimage, b2));
    StrBack(a.preimage, b2);
    VaultBack(a.vault, rest);
  }
}
