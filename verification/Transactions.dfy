/** Transactions and blocks as the ledger, the codec and the filters read them. */
module Transactions {
  import opened Bytes

  const MAX_TX_OUTPUTS := 64

  /** An unsigned 64-bit field. */
  type Word = x: int | 0 <= x < U64_LIMIT

  type Address = Bytes

  datatype Output = Output(recipient: Address, amount: Word)

  datatype AssetIssue = AssetIssue(ticker: Bytes, supply: Word, metadata: Bytes)

  datatype AssetOp = AssetOp(op: Bytes, amount: Word, ticker: Bytes, issueNonce: Word)

  datatype NameOp = NameOp(op: Bytes, name: Bytes, target: Address, periods: Word)

  /** A transaction.  `auth` stands for every authorization field: keys, signatures, scripts and
      witnesses, none of which a sender signs. */
  datatype Tx = Tx(
    sender: Address,
    recipient: Address,
    amount: Word,
    fee: Word,
    nonce: Word,
    expiry: Word,
    lockUntil: Word,
    memo: Bytes,
    outputs: seq<Output>,
    assetId: Bytes,
    issue: Option<AssetIssue>,
    assetOp: Option<AssetOp>,
    name: Option<NameOp>,
    feePayer: Address,
    auth: Bytes)

  datatype Block = Block(
    version: Word,
    index: Word,
    timestamp: int,
    txs: seq<Tx>,
    prevHash: Bytes,
    merkleRoot: Bytes,
    stateRoot: Bytes,
    baseFee: Word,
    bits: Word,
    nonce: Word,
    hash: Bytes,
    filterRoot: Bytes,
    historyRoot: Bytes)

  /** The ASCII bytes of `COINBASE`. */
  const COINBASE: Address := [67, 79, 73, 78, 66, 65, 83, 69]

  predicate IsCoinbase(tx: Tx) { tx.sender == COINBASE }

  predicate IsMultiOutput(tx: Tx) { tx.outputs != [] }

  predicate IsSponsored(tx: Tx) { tx.feePayer != [] }

  predicate IsAssetTransfer(tx: Tx) { tx.assetId != [] && tx.issue.None? && tx.assetOp.None? }

  /** Any coin transfer as a list of recipients. */
  function Outputs(tx: Tx): (outs: seq<Output>)
    ensures outs != []
  {
    if IsMultiOutput(tx) then tx.outputs else [Output(tx.recipient, tx.amount)]
  }

  function SumOutputs(outs: seq<Output>): (n: nat) {
    if outs == [] then 0 else SumOutputs(outs[..|outs| - 1]) + outs[|outs| - 1].amount
  }

  /** The coin outputs pay one address. */
  function PaidBy(outs: seq<Output>, a: Address): (n: nat) {
    if outs == [] then 0
    else PaidBy(outs[..|outs| - 1], a) + if outs[|outs| - 1].recipient == a then outs[|outs| - 1].amount else 0
  }

  /** The coin a transaction moves to recipients; none when the sum leaves 64 bits. */
  method TotalOut(tx: Tx) returns (total: Option<Word>)
    ensures total == if SumOutputs(Outputs(tx)) < U64_LIMIT then Some(SumOutputs(Outputs(tx))) else None
  {
    if !IsMultiOutput(tx) {
      assert SumOutputs(Outputs(tx)[..0]) == 0;
      return Some(tx.amount);
    }
    var sum: Word := 0;
    for i := 0 to |tx.outputs|
      invariant sum == SumOutputs(tx.outputs[..i])
    {
      assert tx.outputs[..i + 1][..i] == tx.outputs[..i];
      var next := (sum + tx.outputs[i].amount) % U64_LIMIT;
      if next < sum {
        SumGrows(tx.outputs, i + 1);
        return None;
      }
      sum := next;
    }
    assert tx.outputs[..|tx.outputs|] == tx.outputs;
    return Some(sum);
  }

  lemma {:induction false} SumGrows(outs: seq<Output>, n: nat)
    requires n <= |outs|
    ensures SumOutputs(outs[..n]) <= SumOutputs(outs)
    decreases |outs|
  {
    if n == |outs| {
      assert outs[..n] == outs;
    } else {
      SumGrows(outs[..|outs| - 1], n);
      assert outs[..|outs| - 1][..n] == outs[..n];
    }
  }
}
