/** A block read back from the store against the merkle root in its own header. */
module StoreRoots {
  import opened Bytes
  import opened StoreRecords
  import opened StoreBlocks
  import Merkle

  /** The consensus encoding of a transaction, whose digest is its id. */
  type Encoding = StoredTx -> Bytes

  function Ids(h: HashFn, enc: Encoding, ts: seq<StoredTx>): (ids: seq<Digest>)
    ensures |ids| == |ts| && forall i :: 0 <= i < |ts| ==> ids[i] == h(enc(ts[i]))
  {
    if ts == [] then [] else [h(enc(ts[0]))] + Ids(h, enc, ts[1..])
  }

  ghost predicate RootHolds(h: HashFn, enc: Encoding, b: StoredBlock) {
    b.header.merkleRoot == Merkle.Root(h, Ids(h, enc, b.txs))
  }

  /** Everything hashed to check a block's root. */
  ghost function Hashed(h: HashFn, enc: Encoding, ts: seq<StoredTx>): (u: iset<Bytes>) {
    Encodings(enc, ts) + Merkle.Preimages(h, Ids(h, enc, ts))
  }

  ghost function Encodings(enc: Encoding, ts: seq<StoredTx>): (u: iset<Bytes>) {
    iset i | 0 <= i < |ts| :: enc(ts[i])
  }

  /** Lists of one length with one root have the same encodings, or a collision is exhibited. */
  lemma SameRootSameTxs(h: HashFn, enc: Encoding, a: seq<StoredTx>, b: seq<StoredTx>)
    requires |a| == |b| && Merkle.Root(h, Ids(h, enc, a)) == Merkle.Root(h, Ids(h, enc, b))
    ensures (forall i :: 0 <= i < |a| ==> enc(a[i]) == enc(b[i])) || CollisionAcross(h, Hashed(h, enc, a), Hashed(h, enc, b))
  {
    var ids, jds := Ids(h, enc, a), Ids(h, enc, b);
    Merkle.RootBinds(h, ids, jds);
    if ids != jds {
      CollisionWidens(h, Merkle.Preimages(h, ids), Merkle.Preimages(h, jds), Hashed(h, enc, a), Hashed(h, enc, b));
    } else if !CollisionAcross(h, Hashed(h, enc, a), Hashed(h, enc, b)) {
      forall i | 0 <= i < |a| ensures enc(a[i]) == enc(b[i]) {
        assert ids[i] == jds[i];
        assert enc(a[i]) in Encodings(enc, a) && enc(b[i]) in Encodings(enc, b);
        CollisionOrEqual(h, enc(a[i]), enc(b[i]), Hashed(h, enc, a), Hashed(h, enc, b));
      }
    }
  }

  /** The encoding covers what the store leaves out. */
  ghost predicate Covers(enc: Encoding, ts: seq<StoredTx>) {
    forall i :: 0 <= i < |ts| && enc(Stripped(ts[i])) == enc(ts[i]) ==> Keepable(ts[i])
  }

  lemma StrippedKept(ts: seq<StoredTx>)
    requires forall i :: 0 <= i < |ts| ==> ts[i].tx.auth == [] && Keepable(ts[i])
    ensures StrippedAll(ts) == ts
  {
    SameWhenKept(ts);
  }

  /** Its transactions stripped, a list has the same root exactly when nothing was stripped off. */
  lemma RootStripped(h: HashFn, enc: Encoding, ts: seq<StoredTx>)
    requires Covers(enc, ts) && forall i :: 0 <= i < |ts| ==> ts[i].tx.auth == []
    ensures (Merkle.Root(h, Ids(h, enc, StrippedAll(ts))) == Merkle.Root(h, Ids(h, enc, ts)) <==>
              forall i :: 0 <= i < |ts| ==> Keepable(ts[i]))
         || CollisionAcross(h, Hashed(h, enc, ts), Hashed(h, enc, StrippedAll(ts)))
  {
    var kept := StrippedAll(ts);
    if Merkle.Root(h, Ids(h, enc, kept)) == Merkle.Root(h, Ids(h, enc, ts)) {
      SameRootSameTxs(h, enc, ts, kept);
    }
    if forall i :: 0 <= i < |ts| ==> Keepable(ts[i]) {
      StrippedKept(ts);
    }
  }

  /** A block that matched its merkle root when it was stored matches it when it is read back exactly
      when none of its transactions carried a name operation, a script authorization or the metadata of
      an issuance, or a collision is exhibited. */
  lemma RootAfterStore(h: HashFn, enc: Encoding, b: StoredBlock)
    requires BlockFits(b) && forall i :: 0 <= i < |b.txs| ==> b.txs[i].tx.auth == []
    requires RootHolds(h, enc, b) && Covers(enc, b.txs)
    ensures var back := Decode(Encode(b));
            && back.Some?
            && ((RootHolds(h, enc, back.value) <==> forall i :: 0 <= i < |b.txs| ==> Keepable(b.txs[i]))
                || CollisionAcross(h, Hashed(h, enc, b.txs), Hashed(h, enc, back.value.txs)))
  {
    DecodesStripped(b);
    RootStripped(h, enc, b.txs);
  }
}
