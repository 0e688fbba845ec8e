/** The append-only buffer that writes the signing encoding field by field. */
module CodecBuffer {
  import opened Bytes
  import opened Seqs
  import opened Transactions
  import opened Codec

  class Buffer {
    var b: Bytes

    constructor ()
      ensures b == []
    {
      b := [];
    }

    // Each write moves one field from what is left to what is written.

    method PutByte(v: Byte, ghost rest: Bytes)
      modifies this
      ensures b == old(b) + [v] && b + rest == old(b) + ([v] + rest)
    {
      b := b + [v];
      Regroup(old(b), [v], rest);
    }

    method PutU64(v: Word, ghost rest: Bytes)
      modifies this
      ensures b == old(b) + U64(v) && b + rest == old(b) + (U64(v) + rest)
    {
      b := b + U64(v);
      Regroup(old(b), U64(v), rest);
    }

    method PutU32(v: nat, ghost rest: Bytes)
      modifies this
      ensures b == old(b) + U32(v) && b + rest == old(b) + (U32(v) + rest)
    {
      b := b + U32(v);
      Regroup(old(b), U32(v), rest);
    }

    method PutStr(s: Bytes, ghost rest: Bytes)
      modifies this
      ensures b == old(b) + Str(s) && b + rest == old(b) + (Str(s) + rest)
    {
      Regroup(b, U32(|s|), s);
      b := b + U32(|s|);
      b := b + s;
      Regroup(old(b), Str(s), rest);
    }

    method PutOutputs(outs: seq<Output>, ghost rest: Bytes)
      modifies this
      ensures b + rest == old(b) + OutputsFrom(outs, 0, rest)
    {
      for i := 0 to |outs|
        invariant b + OutputsFrom(outs, i, rest) == old(b) + OutputsFrom(outs, 0, rest)
      {
        PutStr(outs[i].recipient, U64(outs[i].amount) + OutputsFrom(outs, i + 1, rest));
        PutU64(outs[i].amount, OutputsFrom(outs, i + 1, rest));
      }
    }

    method PutIssue(tx: Tx, ghost rest: Bytes)
      modifies this
      ensures b + rest == old(b) + if tx.issue.None? then [0] + rest
              else [1] + (Str(tx.issue.value.ticker) + (U64(tx.issue.value.supply) + rest))
    {
      if tx.issue.Some? {
        var issue := tx.issue.value;
        PutByte(1, Str(issue.ticker) + (U64(issue.supply) + rest));
        PutStr(issue.ticker, U64(issue.supply) + rest);
        PutU64(issue.supply, rest);
      } else {
        PutByte(0, rest);
      }
    }

    method PutAssetOp(tx: Tx)
      modifies this
      ensures b + NftOn(tx) == old(b) + AssetOpOn(tx)
    {
      if tx.assetOp.Some? {
        var o := tx.assetOp.value;
        PutByte(ASSET_OP_TAG, Str(o.op) + (U64(o.amount) + (Str(o.ticker) + (U64(o.issueNonce) + NftOn(tx)))));
        PutStr(o.op, U64(o.amount) + (Str(o.ticker) + (U64(o.issueNonce) + NftOn(tx))));
        PutU64(o.amount, Str(o.ticker) + (U64(o.issueNonce) + NftOn(tx)));
        PutStr(o.ticker, U64(o.issueNonce) + NftOn(tx));
        PutU64(o.issueNonce, NftOn(tx));
      }
    }

    method PutName(tx: Tx)
      modifies this
      ensures b == old(b) + NameBlock(tx)
    {
      if tx.name.Some? {
        var n := tx.name.value;
        PutByte(NAME_TAG, Str(n.op) + (Str(n.name) + (Str(n.target) + U64(n.periods))));
        PutStr(n.op, Str(n.name) + (Str(n.target) + U64(n.periods)));
        PutStr(n.name, Str(n.target) + U64(n.periods));
        PutStr(n.target, U64(n.periods));
        PutU64(n.periods, []);
      }
    }

    /** The optional blocks, each written only when present. */
    method PutOptional(net: Bytes, tx: Tx)
      modifies this
      ensures b == old(b) + NetIdOn(net, tx)
    {
      if net != [] {
        PutByte(NET_ID_TAG, Str(net) + OutputsOn(tx));
        PutStr(net, OutputsOn(tx));
      }
      if |tx.outputs| > 0 {
        PutU32(|tx.outputs|, OutputsFrom(tx.outputs, 0, FeePayerOn(tx)));
        PutOutputs(tx.outputs, FeePayerOn(tx));
      }
      if tx.feePayer != [] {
        PutByte(FEE_PAYER_TAG, Str(tx.feePayer) + AssetOpOn(tx));
        PutStr(tx.feePayer, AssetOpOn(tx));
      }
      PutAssetOp(tx);
      if NonFungible(tx) {
        PutByte(NFT_TAG, Str(tx.issue.value.metadata) + NameBlock(tx));
        PutStr(tx.issue.value.metadata, NameBlock(tx));
      }
      PutName(tx);
    }

    method PutNumbers(tx: Tx, ghost rest: Bytes)
      modifies this
      ensures b + rest == old(b) +
        (U64(tx.amount) + (U64(tx.fee) + (U64(tx.nonce) + (U64(tx.expiry) + (U64(tx.lockUntil) + rest)))))
    {
      PutU64(tx.amount, U64(tx.fee) + (U64(tx.nonce) + (U64(tx.expiry) + (U64(tx.lockUntil) + rest))));
      PutU64(tx.fee, U64(tx.nonce) + (U64(tx.expiry) + (U64(tx.lockUntil) + rest)));
      PutU64(tx.nonce, U64(tx.expiry) + (U64(tx.lockUntil) + rest));
      PutU64(tx.expiry, U64(tx.lockUntil) + rest);
      PutU64(tx.lockUntil, rest);
    }

    /** Everything a sender authorizes. */
    method PutSignedFields(net: Bytes, tx: Tx)
      modifies this
      ensures b == old(b) + SignedFields(net, tx)
    {
      PutStr(tx.sender, Str(tx.recipient) + NumbersOn(net, tx));
      PutStr(tx.recipient, NumbersOn(net, tx));
      PutNumbers(tx, AssetIdOn(net, tx));
      PutStr(tx.assetId, IssueOn(net, tx));
      PutIssue(tx, MemoOn(net, tx));
      PutStr(tx.memo, NetIdOn(net, tx));
      PutOptional(net, tx);
    }
  }

  /** The message a sender signs on the network with id `net`. */
  method CanonicalSigningBytes(net: Bytes, tx: Tx) returns (bytes: Bytes)
    ensures bytes == SigningBytes(net, tx)
  {
    var c := new Buffer();
    c.PutByte(CODEC_VERSION, []);
    c.PutSignedFields(net, tx);
    bytes := c.b;
  }
}
