/** Whole blocks as store records: what is lost on the way, and nothing else. */
module StoreBlocks {
  import opened Bytes
  import opened Seqs
  import opened Transactions
  import opened StoreRecords
  import BlockLog

  function SponsorOn(t: StoredTx, rest: Bytes): (b: Bytes) {
    StrOn(t.tx.feePayer, StrOn(t.auth.sponsorKey, StrOn(t.auth.sponsorSig, rest)))
  }

  function AuthOn(t: StoredTx, rest: Bytes): (b: Bytes) { KeysOn(t.auth, LocksOn(t.auth, SponsorOn(t, rest))) }

  function AssetsOn(t: Tx, rest: Bytes): (b: Bytes) { StrOn(t.assetId, IssueOn(t.issue, OpOn(t.assetOp, rest))) }

  function TxOn(t: StoredTx, rest: Bytes): (b: Bytes) { MoneyOn(t.tx, PayeesOn(t.tx, AssetsOn(t.tx, AuthOn(t, rest)))) }

  function ReadSponsor(tx: Tx, auth: Auth, b: Bytes): (r: Option<(StoredTx, Bytes)>) {
    var (feePayer, b1) :- ReadStr(b);
    var (key, b2) :- ReadStr(b1);
    var (sig, rest) :- ReadStr(b2);
    Some((StoredTx(tx.(feePayer := feePayer), auth.(sponsorKey := key, sponsorSig := sig)), rest))
  }

  function ReadAuth(tx: Tx, b: Bytes): (r: Option<(StoredTx, Bytes)>) {
    var (keys, b1) :- ReadKeys(b);
    var (locks, b2) :- ReadLocks(keys, b1);
    ReadSponsor(tx, locks, b2)
  }

  function ReadAssets(tx: Tx, b: Bytes): (r: Option<(Tx, Bytes)>) {
    var (assetId, b1) :- ReadStr(b);
    var (issue, b2) :- ReadIssue(b1);
    var (op, rest) :- ReadOp(b2);
    Some((tx.(assetId := assetId, issue := issue, assetOp := op), rest))
  }

  function ReadTx(b: Bytes): (r: Option<(StoredTx, Bytes)>) {
    var (money, b1) :- ReadMoney(b);
    var (outputs, b2) :- ReadPayees(b1);
    var (tx, b3) :- ReadAssets(money.(outputs := outputs), b2);
    ReadAuth(tx, b3)
  }

  /** What a record of a transaction keeps: no name operation, no script authorization, no metadata of
      an issuance. */
  function Stripped(t: StoredTx): (r: StoredTx) {
    StoredTx(t.tx.(name := None, issue := BareIssue(t.tx.issue), auth := []), t.auth.(script := None))
  }

  predicate TxFits(t: StoredTx) {
    && Fits(t.tx.sender) && Fits(t.tx.recipient) && Fits(t.tx.memo) && Fits(t.tx.assetId) && Fits(t.tx.feePayer)
    && OutputsFit(t.tx.outputs) && |t.tx.outputs| <= MAX_OUTPUTS_READ
    && (t.tx.issue.Some? ==> Fits(t.tx.issue.value.ticker))
    && (t.tx.assetOp.Some? ==> Fits(t.tx.assetOp.value.op) && Fits(t.tx.assetOp.value.ticker))
    && KeysFit(t.auth) && LocksFit(t.auth) && Fits(t.auth.sponsorKey) && Fits(t.auth.sponsorSig)
  }

  lemma SponsorBack(tx: Tx, auth: Auth, t: StoredTx, rest: Bytes)
    requires Fits(t.tx.feePayer) && Fits(t.auth.sponsorKey) && Fits(t.auth.sponsorSig)
    ensures ReadSponsor(tx, auth, SponsorOn(t, rest))
         == Some((StoredTx(tx.(feePayer := t.tx.feePayer), auth.(sponsorKey := t.auth.sponsorKey, sponsorSig := t.auth.sponsorSig)), rest))
  {
    var b2 := StrOn(t.auth.sponsorSig, rest);
    StrBack(t.tx.feePayer, StrOn(t.auth.sponsorKey, b2));
    StrBack(t.auth.sponsorKey, b2);
    StrBack(t.auth.sponsorSig, rest);
  }

  lemma AuthBack(tx: Tx, t: StoredTx, rest: Bytes)
    requires TxFits(t)
    ensures ReadAuth(tx, AuthOn(t, rest)) == Some((StoredTx(tx.(feePayer := t.tx.feePayer), t.auth.(script := None)), rest))
  {
    KeysBack(t.auth, LocksOn(t.auth, SponsorOn(t, rest)));
    LocksBack(KeysOf(t.auth), t.auth, SponsorOn(t, rest));
    var locks := KeysOf(t.auth).(htlc := t.auth.htlc, preimage := t.auth.preimage, vault := t.auth.vault);
    SponsorBack(tx, locks, t, rest);
  }

  lemma AssetsBack(into: Tx, t: Tx, rest: Bytes)
    requires Fits(t.assetId) && (t.issue.Some? ==> Fits(t.issue.value.ticker))
    requires t.assetOp.Some? ==> Fits(t.assetOp.value.op) && Fits(t.assetOp.value.ticker)
    ensures ReadAssets(into, AssetsOn(t, rest))
         == Some((into.(assetId := t.assetId, issue := BareIssue(t.issue), assetOp := t.assetOp), rest))
  {
    StrBack(t.assetId, IssueOn(t.issue, OpOn(t.assetOp, rest)));
    IssueBack(t.issue, OpOn(t.assetOp, rest));
    OpBack(t.assetOp, rest);
  }

  /** A transaction's record reads back as the transaction stripped. */
  lemma TxBack(t: StoredTx, rest: Bytes)
    requires TxFits(t)
    ensures ReadTx(TxOn(t, rest)) == Some((Stripped(t), rest))
  {
    var b3 := AuthOn(t, rest);
    var b2 := AssetsOn(t.tx, b3);
    MoneyBack(t.tx, PayeesOn(t.tx, b2));
    PayeesBack(t.tx, b2);
    var paid := MoneyOf(t.tx).(outputs := t.tx.outputs);
    AssetsBack(paid, t.tx, b3);
    AuthBack(paid.(assetId := t.tx.assetId, issue := BareIssue(t.tx.issue), assetOp := t.tx.assetOp), t, rest);
  }

  /** Items one after the other, by how each is written and read. */
  function ManyOn<T>(put: (T, Bytes) -> Bytes, ts: seq<T>, rest: Bytes): (b: Bytes) {
    if ts == [] then rest else put(ts[0], ManyOn(put, ts[1..], rest))
  }

  function ReadMany<T>(read: Bytes -> Option<(T, Bytes)>, b: Bytes, n: nat): (r: Option<(seq<T>, Bytes)>)
    decreases n
  {
    if n == 0 then Some(([], b))
    else
      var (t, b1) :- read(b);
      var (ts, rest) :- ReadMany(read, b1, n - 1);
      Some(([t] + ts, rest))
  }

  function Each<T>(f: T -> T, ts: seq<T>): (r: seq<T>)
    ensures |r| == |ts| && forall i :: 0 <= i < |ts| ==> r[i] == f(ts[i])
  {
    if ts == [] then [] else [f(ts[0])] + Each(f, ts[1..])
  }

  lemma {:induction false} ManyBack<T(!new)>(put: (T, Bytes) -> Bytes, read: Bytes -> Option<(T, Bytes)>, keep: T -> T, ts: seq<T>, rest: Bytes)
    requires forall i, r {:trigger put(ts[i], r)} :: 0 <= i < |ts| ==> read(put(ts[i], r)) == Some((keep(ts[i]), r))
    ensures ReadMany(read, ManyOn(put, ts, rest), |ts|) == Some((Each(keep, ts), rest))
  {
    if ts != [] {
      var more := ManyOn(put, ts[1..], rest);
      assert read(put(ts[0], more)) == Some((keep(ts[0]), more));
      ManyBack(put, read, keep, ts[1..], rest);
    }
  }

  function Puts(): (f: (StoredTx, Bytes) -> Bytes) { (t: StoredTx, rest: Bytes) => TxOn(t, rest) }

  function Reads(): (f: Bytes -> Option<(StoredTx, Bytes)>) { (b: Bytes) => ReadTx(b) }

  function Strips(): (f: StoredTx -> StoredTx) { (t: StoredTx) => Stripped(t) }

  function TxsOn(ts: seq<StoredTx>, rest: Bytes): (b: Bytes) { ManyOn(Puts(), ts, rest) }

  function ReadTxs(b: Bytes, n: nat): (r: Option<(seq<StoredTx>, Bytes)>) { ReadMany(Reads(), b, n) }

  function StrippedAll(ts: seq<StoredTx>): (r: seq<StoredTx>)
    ensures |r| == |ts| && forall i :: 0 <= i < |ts| ==> r[i] == Stripped(ts[i])
  {
    Each(Strips(), ts)
  }

  lemma TxsBack(ts: seq<StoredTx>, rest: Bytes)
    requires forall i :: 0 <= i < |ts| ==> TxFits(ts[i])
    ensures ReadTxs(TxsOn(ts, rest), |ts|) == Some((StrippedAll(ts), rest))
  {
    forall i, r | 0 <= i < |ts| ensures Reads()(Puts()(ts[i], r)) == Some((Strips()(ts[i]), r)) {
      TxBack(ts[i], r);
    }
    ManyBack(Puts(), Reads(), Strips(), ts, rest);
  }

  /** A signed 64-bit number as a word, and back. */
  function AsWord(x: int): (w: Word) { x % U64_LIMIT }

  function AsSigned(w: Word): (x: int) { if w < 0x8000_0000_0000_0000 then w else w - U64_LIMIT }

  lemma SignedBack(x: int)
    requires -0x8000_0000_0000_0000 <= x < 0x8000_0000_0000_0000
    ensures AsSigned(AsWord(x)) == x
  {
  }

  function PlaceOn(h: Block, rest: Bytes): (b: Bytes) {
    U64On(h.index, U64On(AsWord(h.timestamp), StrOn(h.prevHash, StrOn(h.merkleRoot, StrOn(h.stateRoot, rest)))))
  }

  function SealOn(h: Block, rest: Bytes): (b: Bytes) {
    U64On(h.baseFee, U32On(h.bits, U64On(h.nonce, StrOn(h.hash, StrOn(h.filterRoot, StrOn(h.historyRoot, rest))))))
  }

  const BLANK_HEADER := Block(0, 0, 0, [], [], [], [], 0, 0, 0, [], [], [])

  function ReadPlace(b: Bytes): (r: Option<(Block, Bytes)>) {
    var (index, b1) :- ReadU64(b);
    var (timestamp, b2) :- ReadU64(b1);
    var (prevHash, b3) :- ReadStr(b2);
    var (merkleRoot, b4) :- ReadStr(b3);
    var (stateRoot, rest) :- ReadStr(b4);
    Some((BLANK_HEADER.(index := index, timestamp := AsSigned(timestamp), prevHash := prevHash, merkleRoot := merkleRoot,
                        stateRoot := stateRoot), rest))
  }

  function ReadSeal(h: Block, b: Bytes): (r: Option<(Block, Bytes)>) {
    var (baseFee, b1) :- ReadU64(b);
    var (bits, b2) :- ReadU32(b1);
    var (nonce, b3) :- ReadU64(b2);
    var (hash, b4) :- ReadStr(b3);
    var (filterRoot, b5) :- ReadStr(b4);
    var (historyRoot, rest) :- ReadStr(b5);
    Some((h.(baseFee := baseFee, bits := bits, nonce := nonce, hash := hash, filterRoot := filterRoot,
             historyRoot := historyRoot), rest))
  }

  predicate HeaderFits(h: Block) {
    && h.version < U32_LIMIT && h.bits < U32_LIMIT && -0x8000_0000_0000_0000 <= h.timestamp < 0x8000_0000_0000_0000
    && Fits(h.prevHash) && Fits(h.merkleRoot) && Fits(h.stateRoot) && Fits(h.hash) && Fits(h.filterRoot) && Fits(h.historyRoot)
  }

  lemma PlaceBack(h: Block, rest: Bytes)
    requires HeaderFits(h)
    ensures ReadPlace(PlaceOn(h, rest))
         == Some((BLANK_HEADER.(index := h.index, timestamp := h.timestamp, prevHash := h.prevHash, merkleRoot := h.merkleRoot,
                                stateRoot := h.stateRoot), rest))
  {
    var b4 := StrOn(h.stateRoot, rest);
    var b3 := StrOn(h.merkleRoot, b4);
    var b2 := StrOn(h.prevHash, b3);
    var ts := AsWord(h.timestamp);
    U64Back(h.index, U64On(ts, b2));
    U64Back(ts, b2);
    SignedBack(h.timestamp);
    StrBack(h.prevHash, b3);
    StrBack(h.merkleRoot, b4);
    StrBack(h.stateRoot, rest);
  }

  lemma SealBack(into: Block, h: Block, rest: Bytes)
    requires HeaderFits(h)
    ensures ReadSeal(into, SealOn(h, rest))
         == Some((into.(baseFee := h.baseFee, bits := h.bits, nonce := h.nonce, hash := h.hash, filterRoot := h.filterRoot,
                        historyRoot := h.historyRoot), rest))
  {
    var b5 := StrOn(h.historyRoot, rest);
    var b4 := StrOn(h.filterRoot, b5);
    var b3 := StrOn(h.hash, b4);
    var b2 := U64On(h.nonce, b3);
    U64Back(h.baseFee, U32On(h.bits, b2));
    U32Back(h.bits, b2);
    U64Back(h.nonce, b3);
    StrBack(h.hash, b4);
    StrBack(h.filterRoot, b5);
    StrBack(h.historyRoot, rest);
  }

  function HeaderOn(h: Block, rest: Bytes): (b: Bytes) { U32On(h.version, PlaceOn(h, SealOn(h, rest))) }

  function ReadHeader(b: Bytes): (r: Option<(Block, Bytes)>) {
    var (version, b1) :- ReadU32(b);
    var (place, b2) :- ReadPlace(b1);
    var (header, rest) :- ReadSeal(place, b2);
    Some((header.(version := version), rest))
  }

  lemma HeaderBack(h: Block, rest: Bytes)
    requires HeaderFits(h)
    ensures ReadHeader(HeaderOn(h, rest)) == Some((h.(txs := []), rest))
  {
    var b2 := SealOn(h, rest);
    U32Back(h.version, PlaceOn(h, b2));
    PlaceBack(h, b2);
    var place := BLANK_HEADER.(index := h.index, timestamp := h.timestamp, prevHash := h.prevHash, merkleRoot := h.merkleRoot,
                               stateRoot := h.stateRoot);
    SealBack(place, h, rest);
  }

  function BodyOn(ts: seq<StoredTx>): (b: Bytes) { U32On(|ts|, TxsOn(ts, [])) }

  function ReadBody(b: Bytes): (r: Option<seq<StoredTx>>) {
    var (n, b1) :- ReadU32(b);
    if n > MAX_TXS_READ then None
    else
      var (txs, rest) :- ReadTxs(b1, n);
      if rest != [] then None else Some(txs)
  }

  lemma BodyBack(ts: seq<StoredTx>)
    requires |ts| <= MAX_TXS_READ && forall i :: 0 <= i < |ts| ==> TxFits(ts[i])
    ensures ReadBody(BodyOn(ts)) == Some(StrippedAll(ts))
  {
    U32Back(|ts|, TxsOn(ts, []));
    TxsBack(ts, []);
  }

  function Encode(b: StoredBlock): (record: Bytes) { ByteOn(RECORD_TAG, HeaderOn(b.header, BodyOn(b.txs))) }

  function Decode(record: Bytes): (r: Option<StoredBlock>) {
    var (tag, b1) :- ReadByte(record);
    if tag != RECORD_TAG then None
    else
      var (header, b2) :- ReadHeader(b1);
      var txs :- ReadBody(b2);
      Some(StoredBlock(header, txs))
  }

  /** Every field is within what the format and its reader allow. */
  predicate BlockFits(b: StoredBlock) {
    HeaderFits(b.header) && |b.txs| <= MAX_TXS_READ && forall i :: 0 <= i < |b.txs| ==> TxFits(b.txs[i])
  }

  /** A record reads back as its block, each transaction stripped. */
  lemma DecodesStripped(b: StoredBlock)
    requires BlockFits(b)
    ensures Decode(Encode(b)) == Some(StoredBlock(b.header.(txs := []), StrippedAll(b.txs)))
  {
    ByteBack(RECORD_TAG, HeaderOn(b.header, BodyOn(b.txs)));
    HeaderBack(b.header, BodyOn(b.txs));
    BodyBack(b.txs);
  }

  /** Nothing a record would drop. */
  predicate Keepable(t: StoredTx) {
    && t.tx.name.None? && t.auth.script.None?
    && (t.tx.issue.Some? ==> t.tx.issue.value.metadata == [])
  }

  /** So a block survives the store if and only if none of its transactions carries a name operation, a
      script authorization or the metadata of an issuance. */
  lemma SurvivesExactly(b: StoredBlock)
    requires BlockFits(b) && b.header.txs == [] && forall i :: 0 <= i < |b.txs| ==> b.txs[i].tx.auth == []
    ensures Decode(Encode(b)) == Some(b) <==> forall i :: 0 <= i < |b.txs| ==> Keepable(b.txs[i])
  {
    DecodesStripped(b);
    SameWhenKept(b.txs);
  }

  lemma SameWhenKept(ts: seq<StoredTx>)
    requires forall i :: 0 <= i < |ts| ==> ts[i].tx.auth == []
    ensures StrippedAll(ts) == ts <==> forall i :: 0 <= i < |ts| ==> Keepable(ts[i])
  {
    var r := StrippedAll(ts);
    forall i | 0 <= i < |ts| ensures r[i] == ts[i] <==> Keepable(ts[i]) {
      KeptWhole(ts[i]);
    }
    if r == ts {
      forall i | 0 <= i < |ts| ensures Keepable(ts[i]) {
        assert r[i] == ts[i];
      }
    }
  }

  lemma KeptWhole(t: StoredTx)
    requires t.tx.auth == []
    ensures Stripped(t) == t <==> Keepable(t)
  {
  }

  /** The format as the block log uses it. */
  function Format(): (c: BlockLog.Records<StoredBlock>) {
    BlockLog.Records((b: StoredBlock) => Encode(b), (r: Bytes) => Decode(r))
  }

  /** After an append the log reads as before, then as the block stripped. */
  lemma LogKeepsStripped(frames: seq<Bytes>, b: StoredBlock, rest: Bytes)
    requires BlockLog.AllRecords(Format(), frames) && BlockFits(b) && |Encode(b)| <= BlockLog.MAX_RECORD
    ensures BlockLog.Blocks(Format(), BlockLog.Cat(frames) + (BlockLog.Frame(Format(), b) + rest))
         == BlockLog.Decoded(Format(), frames)
            + ([StoredBlock(b.header.(txs := []), StrippedAll(b.txs))] + BlockLog.Blocks(Format(), rest))
  {
    DecodesStripped(b);
    BlockLog.AppendReads(Format(), frames, b, rest);
  }
}
