/** The canonical signing encoding: length-prefixed fields and optional trailing blocks, and why
    no two transactions a network accepts share their signing bytes. */
module Codec {
  import opened Bytes
  import opened Seqs
  import opened Transactions

  const CODEC_VERSION: Byte := 1
  const NET_ID_TAG: Byte := 1
  const FEE_PAYER_TAG: Byte := 2
  const ASSET_OP_TAG: Byte := 5
  const NFT_TAG: Byte := 6
  const NAME_TAG: Byte := 7

  function U32(n: nat): (b: Bytes)
    ensures |b| == 4
  {
    BigEndian(n % U32_LIMIT, 4)
  }

  function Str(s: Bytes): (b: Bytes) {
    U32(|s|) + s
  }

  lemma U32Unique(a: nat, b: nat)
    requires a < U32_LIMIT && b < U32_LIMIT && U32(a) == U32(b)
    ensures a == b
  {
    assert Pow256(2) == 0x1_0000 && Pow256(4) == U32_LIMIT;
    BigEndianUnique(a, b, 4);
  }

  lemma StrPrefix(a: Bytes, x: Bytes, b: Bytes, y: Bytes)
    requires |a| < U32_LIMIT && |b| < U32_LIMIT && Str(a) + x == Str(b) + y
    ensures a == b && x == y
  {
    Regroup(U32(|a|), a, x);
    Regroup(U32(|b|), b, y);
    SplitUnique(U32(|a|), a + x, U32(|b|), b + y);
    U32Unique(|a|, |b|);
    SplitUnique(a, x, b, y);
  }

  lemma U64Prefix(a: Word, x: Bytes, b: Word, y: Bytes)
    requires U64(a) + x == U64(b) + y
    ensures a == b && x == y
  {
    SplitUnique(U64(a), x, U64(b), y);
    U64Unique(a, b);
  }

  lemma BytePrefix(a: Byte, x: Bytes, b: Byte, y: Bytes)
    requires [a] + x == [b] + y
    ensures a == b && x == y
  {
    SplitUnique([a], x, [b], y);
    assert [a][0] == [b][0];
  }

  /** The strings a transaction signs are shorter than 2^32 bytes. */
  predicate Short(tx: Tx) {
    && |tx.sender| < U32_LIMIT && |tx.recipient| < U32_LIMIT && |tx.assetId| < U32_LIMIT && |tx.memo| < U32_LIMIT
    && |tx.feePayer| < U32_LIMIT
    && (forall i :: 0 <= i < |tx.outputs| ==> |tx.outputs[i].recipient| < U32_LIMIT)
    && (tx.issue.Some? ==> |tx.issue.value.ticker| < U32_LIMIT && |tx.issue.value.metadata| < U32_LIMIT)
    && (tx.assetOp.Some? ==> |tx.assetOp.value.op| < U32_LIMIT && |tx.assetOp.value.ticker| < U32_LIMIT)
    && (tx.name.Some? ==> |tx.name.value.op| < U32_LIMIT && |tx.name.value.name| < U32_LIMIT
                          && |tx.name.value.target| < U32_LIMIT)
  }

  // The encoding, from its last block to its first.

  function NameBlock(tx: Tx): (b: Bytes) {
    if tx.name.None? then []
    else
      var n := tx.name.value;
      [NAME_TAG] + (Str(n.op) + (Str(n.name) + (Str(n.target) + U64(n.periods))))
  }

  predicate NonFungible(tx: Tx) {
    tx.issue.Some? && tx.issue.value.metadata != []
  }

  function NftOn(tx: Tx): (b: Bytes) {
    if NonFungible(tx) then [NFT_TAG] + (Str(tx.issue.value.metadata) + NameBlock(tx)) else NameBlock(tx)
  }

  function AssetOpOn(tx: Tx): (b: Bytes) {
    if tx.assetOp.None? then NftOn(tx)
    else
      var o := tx.assetOp.value;
      [ASSET_OP_TAG] + (Str(o.op) + (U64(o.amount) + (Str(o.ticker) + (U64(o.issueNonce) + NftOn(tx)))))
  }

  function FeePayerOn(tx: Tx): (b: Bytes) {
    if tx.feePayer == [] then AssetOpOn(tx) else [FEE_PAYER_TAG] + (Str(tx.feePayer) + AssetOpOn(tx))
  }

  function OutputsFrom(outs: seq<Output>, i: nat, rest: Bytes): (b: Bytes)
    requires i <= |outs|
    decreases |outs| - i
  {
    if i == |outs| then rest else Str(outs[i].recipient) + (U64(outs[i].amount) + OutputsFrom(outs, i + 1, rest))
  }

  /** The multi-output block has no tag: it begins with its count. */
  function OutputsOn(tx: Tx): (b: Bytes) {
    if tx.outputs == [] then FeePayerOn(tx) else U32(|tx.outputs|) + OutputsFrom(tx.outputs, 0, FeePayerOn(tx))
  }

  function NetIdOn(net: Bytes, tx: Tx): (b: Bytes) {
    if net == [] then OutputsOn(tx) else [NET_ID_TAG] + (Str(net) + OutputsOn(tx))
  }

  function MemoOn(net: Bytes, tx: Tx): (b: Bytes) {
    Str(tx.memo) + NetIdOn(net, tx)
  }

  function IssueOn(net: Bytes, tx: Tx): (b: Bytes) {
    if tx.issue.None? then [0] + MemoOn(net, tx)
    else [1] + (Str(tx.issue.value.ticker) + (U64(tx.issue.value.supply) + MemoOn(net, tx)))
  }

  function AssetIdOn(net: Bytes, tx: Tx): (b: Bytes) {
    Str(tx.assetId) + IssueOn(net, tx)
  }

  function NumbersOn(net: Bytes, tx: Tx): (b: Bytes) {
    U64(tx.amount) + (U64(tx.fee) + (U64(tx.nonce) + (U64(tx.expiry) + (U64(tx.lockUntil) + AssetIdOn(net, tx)))))
  }

  function SignedFields(net: Bytes, tx: Tx): (b: Bytes) {
    Str(tx.sender) + (Str(tx.recipient) + NumbersOn(net, tx))
  }

  function SigningBytes(net: Bytes, tx: Tx): (b: Bytes) {
    [CODEC_VERSION] + SignedFields(net, tx)
  }

  // Reading it back, block by block.  Each optional block is recognized by its first byte.

  predicate StartsIn(b: Bytes, tags: set<Byte>) {
    b == [] || b[0] in tags
  }

  lemma BlockStarts(tx: Tx)
    ensures StartsIn(NameBlock(tx), {NAME_TAG})
    ensures StartsIn(NftOn(tx), {NFT_TAG, NAME_TAG})
    ensures StartsIn(AssetOpOn(tx), {ASSET_OP_TAG, NFT_TAG, NAME_TAG})
    ensures StartsIn(FeePayerOn(tx), {FEE_PAYER_TAG, ASSET_OP_TAG, NFT_TAG, NAME_TAG})
  {
  }

  /** A count of at most 64 begins with a zero byte, which is no block's tag. */
  lemma CountStarts(n: nat)
    requires n <= MAX_TX_OUTPUTS
    ensures U32(n)[0] == 0
  {
    var b3, b2, b1 := BigEndian(n / 256, 3), BigEndian(n / 256 / 256, 2), BigEndian(n / 256 / 256 / 256, 1);
    assert n / 256 == 0 && n % U32_LIMIT == n;
    assert b1 == [] + [0];
    assert b2 == b1 + [0] && b3 == b2 + [0];
    assert U32(n) == b3 + [n % 256];
  }

  lemma OutputsStart(tx: Tx)
    requires |tx.outputs| <= MAX_TX_OUTPUTS
    ensures StartsIn(OutputsOn(tx), {0, FEE_PAYER_TAG, ASSET_OP_TAG, NFT_TAG, NAME_TAG})
    ensures tx.outputs != [] ==> OutputsOn(tx) != [] && OutputsOn(tx)[0] == 0
  {
    BlockStarts(tx);
    CountStarts(|tx.outputs|);
  }

  lemma NameRead(a: Tx, b: Tx)
    requires Short(a) && Short(b) && NameBlock(a) == NameBlock(b)
    ensures a.name == b.name
  {
    if a.name.Some? && b.name.Some? {
      var m, n := a.name.value, b.name.value;
      BytePrefix(NAME_TAG, Str(m.op) + (Str(m.name) + (Str(m.target) + U64(m.periods))),
                 NAME_TAG, Str(n.op) + (Str(n.name) + (Str(n.target) + U64(n.periods))));
      StrPrefix(m.op, Str(m.name) + (Str(m.target) + U64(m.periods)), n.op, Str(n.name) + (Str(n.target) + U64(n.periods)));
      StrPrefix(m.name, Str(m.target) + U64(m.periods), n.name, Str(n.target) + U64(n.periods));
      StrPrefix(m.target, U64(m.periods), n.target, U64(n.periods));
      U64Unique(m.periods, n.periods);
    }
  }

  ghost function Metadata(tx: Tx): (m: Bytes) {
    if tx.issue.Some? then tx.issue.value.metadata else []
  }

  lemma NftRead(a: Tx, b: Tx)
    requires Short(a) && Short(b) && NftOn(a) == NftOn(b)
    ensures Metadata(a) == Metadata(b) && a.name == b.name
  {
    BlockStarts(a);
    BlockStarts(b);
    if NonFungible(a) && NonFungible(b) {
      BytePrefix(NFT_TAG, Str(Metadata(a)) + NameBlock(a), NFT_TAG, Str(Metadata(b)) + NameBlock(b));
      StrPrefix(Metadata(a), NameBlock(a), Metadata(b), NameBlock(b));
    }
    NameRead(a, b);
  }

  lemma AssetOpRead(a: Tx, b: Tx)
    requires Short(a) && Short(b) && AssetOpOn(a) == AssetOpOn(b)
    ensures a.assetOp == b.assetOp && Metadata(a) == Metadata(b) && a.name == b.name
  {
    BlockStarts(a);
    BlockStarts(b);
    if a.assetOp.Some? && b.assetOp.Some? {
      var p, q := a.assetOp.value, b.assetOp.value;
      var p3, q3 := U64(p.issueNonce) + NftOn(a), U64(q.issueNonce) + NftOn(b);
      var p2, q2 := Str(p.ticker) + p3, Str(q.ticker) + q3;
      var p1, q1 := U64(p.amount) + p2, U64(q.amount) + q2;
      BytePrefix(ASSET_OP_TAG, Str(p.op) + p1, ASSET_OP_TAG, Str(q.op) + q1);
      StrPrefix(p.op, p1, q.op, q1);
      U64Prefix(p.amount, p2, q.amount, q2);
      StrPrefix(p.ticker, p3, q.ticker, q3);
      U64Prefix(p.issueNonce, NftOn(a), q.issueNonce, NftOn(b));
    }
    NftRead(a, b);
  }

  lemma FeePayerRead(a: Tx, b: Tx)
    requires Short(a) && Short(b) && FeePayerOn(a) == FeePayerOn(b)
    ensures a.feePayer == b.feePayer && a.assetOp == b.assetOp && Metadata(a) == Metadata(b) && a.name == b.name
  {
    BlockStarts(a);
    BlockStarts(b);
    if a.feePayer != [] && b.feePayer != [] {
      BytePrefix(FEE_PAYER_TAG, Str(a.feePayer) + AssetOpOn(a), FEE_PAYER_TAG, Str(b.feePayer) + AssetOpOn(b));
      StrPrefix(a.feePayer, AssetOpOn(a), b.feePayer, AssetOpOn(b));
    }
    AssetOpRead(a, b);
  }

  lemma {:induction false} OutputListRead(a: seq<Output>, x: Bytes, b: seq<Output>, y: Bytes, i: nat)
    requires |a| == |b| && i <= |a| && OutputsFrom(a, i, x) == OutputsFrom(b, i, y)
    requires forall j :: 0 <= j < |a| ==> |a[j].recipient| < U32_LIMIT && |b[j].recipient| < U32_LIMIT
    ensures a[i..] == b[i..] && x == y
    decreases |a| - i
  {
    if i < |a| {
      var restA, restB := OutputsFrom(a, i + 1, x), OutputsFrom(b, i + 1, y);
      StrPrefix(a[i].recipient, U64(a[i].amount) + restA, b[i].recipient, U64(b[i].amount) + restB);
      U64Prefix(a[i].amount, restA, b[i].amount, restB);
      OutputListRead(a, x, b, y, i + 1);
      assert a[i..] == [a[i]] + a[i + 1..] && b[i..] == [b[i]] + b[i + 1..];
    }
  }

  lemma OutputsRead(a: Tx, b: Tx)
    requires Short(a) && Short(b) && |a.outputs| <= MAX_TX_OUTPUTS && |b.outputs| <= MAX_TX_OUTPUTS
    requires OutputsOn(a) == OutputsOn(b)
    ensures a.outputs == b.outputs && FeePayerOn(a) == FeePayerOn(b)
  {
    OutputsStart(a);
    OutputsStart(b);
    BlockStarts(a);
    BlockStarts(b);
    if a.outputs != [] && b.outputs != [] {
      SplitUnique(U32(|a.outputs|), OutputsFrom(a.outputs, 0, FeePayerOn(a)),
                  U32(|b.outputs|), OutputsFrom(b.outputs, 0, FeePayerOn(b)));
      U32Unique(|a.outputs|, |b.outputs|);
      OutputListRead(a.outputs, FeePayerOn(a), b.outputs, FeePayerOn(b), 0);
      assert a.outputs[0..] == a.outputs && b.outputs[0..] == b.outputs;
    }
  }

  lemma NetIdRead(m: Bytes, a: Tx, n: Bytes, b: Tx)
    requires |m| < U32_LIMIT && |n| < U32_LIMIT && |a.outputs| <= MAX_TX_OUTPUTS && |b.outputs| <= MAX_TX_OUTPUTS
    requires NetIdOn(m, a) == NetIdOn(n, b)
    ensures m == n && OutputsOn(a) == OutputsOn(b)
  {
    OutputsStart(a);
    OutputsStart(b);
    if m != [] && n != [] {
      BytePrefix(NET_ID_TAG, Str(m) + OutputsOn(a), NET_ID_TAG, Str(n) + OutputsOn(b));
      StrPrefix(m, OutputsOn(a), n, OutputsOn(b));
    }
  }

  /** Ticker and supply; the metadata travels in its own block. */
  lemma IssueRead(m: Bytes, a: Tx, n: Bytes, b: Tx)
    requires Short(a) && Short(b) && IssueOn(m, a) == IssueOn(n, b)
    ensures a.issue.Some? <==> b.issue.Some?
    ensures a.issue.Some? ==> a.issue.value.ticker == b.issue.value.ticker && a.issue.value.supply == b.issue.value.supply
    ensures a.memo == b.memo && NetIdOn(m, a) == NetIdOn(n, b)
  {
    assert IssueOn(m, a)[0] == IssueOn(n, b)[0];
    if a.issue.Some? {
      var i, j := a.issue.value, b.issue.value;
      BytePrefix(1, Str(i.ticker) + (U64(i.supply) + MemoOn(m, a)), 1, Str(j.ticker) + (U64(j.supply) + MemoOn(n, b)));
      StrPrefix(i.ticker, U64(i.supply) + MemoOn(m, a), j.ticker, U64(j.supply) + MemoOn(n, b));
      U64Prefix(i.supply, MemoOn(m, a), j.supply, MemoOn(n, b));
    } else {
      BytePrefix(0, MemoOn(m, a), 0, MemoOn(n, b));
    }
    StrPrefix(a.memo, NetIdOn(m, a), b.memo, NetIdOn(n, b));
  }

  lemma NumbersRead(m: Bytes, a: Tx, n: Bytes, b: Tx)
    requires NumbersOn(m, a) == NumbersOn(n, b)
    ensures a.amount == b.amount && a.fee == b.fee && a.nonce == b.nonce && a.expiry == b.expiry
    ensures a.lockUntil == b.lockUntil && AssetIdOn(m, a) == AssetIdOn(n, b)
  {
    var a4, b4 := U64(a.lockUntil) + AssetIdOn(m, a), U64(b.lockUntil) + AssetIdOn(n, b);
    var a3, b3 := U64(a.expiry) + a4, U64(b.expiry) + b4;
    var a2, b2 := U64(a.nonce) + a3, U64(b.nonce) + b3;
    var a1, b1 := U64(a.fee) + a2, U64(b.fee) + b2;
    U64Prefix(a.amount, a1, b.amount, b1);
    U64Prefix(a.fee, a2, b.fee, b2);
    U64Prefix(a.nonce, a3, b.nonce, b3);
    U64Prefix(a.expiry, a4, b.expiry, b4);
    U64Prefix(a.lockUntil, AssetIdOn(m, a), b.lockUntil, AssetIdOn(n, b));
  }

  /** Every field a sender signs; only the authorization may differ. */
  ghost predicate SameSigned(a: Tx, b: Tx) {
    a == b.(auth := a.auth)
  }

  /** Signing bytes are uniquely decodable: equal bytes come from one network and one set of
      signed fields, optional blocks included.  The output count must fit the sanity rule, or a
      count could be mistaken for a tag. */
  lemma SigningBytesUnique(m: Bytes, a: Tx, n: Bytes, b: Tx)
    requires |m| < U32_LIMIT && |n| < U32_LIMIT && Short(a) && Short(b)
    requires |a.outputs| <= MAX_TX_OUTPUTS && |b.outputs| <= MAX_TX_OUTPUTS
    requires SigningBytes(m, a) == SigningBytes(n, b)
    ensures m == n && SameSigned(a, b)
  {
    BytePrefix(CODEC_VERSION, SignedFields(m, a), CODEC_VERSION, SignedFields(n, b));
    StrPrefix(a.sender, Str(a.recipient) + NumbersOn(m, a), b.sender, Str(b.recipient) + NumbersOn(n, b));
    StrPrefix(a.recipient, NumbersOn(m, a), b.recipient, NumbersOn(n, b));
    NumbersRead(m, a, n, b);
    StrPrefix(a.assetId, IssueOn(m, a), b.assetId, IssueOn(n, b));
    IssueRead(m, a, n, b);
    NetIdRead(m, a, n, b);
    OutputsRead(a, b);
    FeePayerRead(a, b);
  }
}
