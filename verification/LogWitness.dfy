/** A log that revives a block nobody appended: a failed write leaves bytes behind, and a shorter append
    uncovers them.  The block whose write fails differs from the one appended after it in nothing but its
    coinbase's memo, and the memo holds the frame of the block that comes to life. */
module LogWitness {
  import opened Bytes
  import opened Seqs
  import opened Transactions
  import opened StoreRecords
  import opened StoreBlocks
  import BlockLog
  import Codec
  import Ledger

  // fields are written in front of what follows, whatever that is

  lemma StrAppends(v: Bytes, rest: Bytes)
    ensures StrOn(v, rest) == StrOn(v, []) + rest
  {
    var raw, n: nat, kind: Byte := if IsHex(v) then FromHex(v) else v, if IsHex(v) then |v| / 2 else |v|, if IsHex(v) then 1 else 0;
    assert raw + [] == raw;
    Regroup(Codec.U32(n), raw, rest);
    Regroup([kind], Codec.U32(n) + raw, rest);
  }

  lemma U64Appends(n: Word, tail: Bytes, rest: Bytes)
    ensures U64On(n, tail + rest) == U64On(n, tail) + rest
  {
    Regroup(U64(n), tail, rest);
  }

  lemma U32Appends(n: nat, tail: Bytes, rest: Bytes)
    ensures U32On(n, tail + rest) == U32On(n, tail) + rest
  {
    Regroup(Codec.U32(n), tail, rest);
  }

  lemma StrsAppend(v: Bytes, tail: Bytes, rest: Bytes)
    ensures StrOn(v, tail + rest) == StrOn(v, tail) + rest
  {
    StrAppends(v, tail + rest);
    StrAppends(v, tail);
    Regroup(StrOn(v, []), tail, rest);
  }

  /** The fields before the memo. */
  function MoneyBefore(t: Tx, rest: Bytes): (b: Bytes) {
    StrOn(t.sender, StrOn(t.recipient, NumbersOn(t, rest)))
  }

  function NumbersOn(t: Tx, rest: Bytes): (b: Bytes) {
    U64On(t.amount, U64On(t.fee, U64On(t.nonce, U64On(t.expiry, U64On(t.lockUntil, rest)))))
  }

  lemma NumbersAppend(t: Tx, rest: Bytes)
    ensures NumbersOn(t, rest) == NumbersOn(t, []) + rest
  {
    var b5 := U64On(t.lockUntil, []);
    var b4 := U64On(t.expiry, b5);
    var b3 := U64On(t.nonce, b4);
    var b2 := U64On(t.fee, b3);
    assert [] + rest == rest;
    U64Appends(t.lockUntil, [], rest);
    U64Appends(t.expiry, b5, rest);
    U64Appends(t.nonce, b4, rest);
    U64Appends(t.fee, b3, rest);
    U64Appends(t.amount, b2, rest);
  }

  lemma MoneyAppends(t: Tx, rest: Bytes)
    ensures MoneyBefore(t, rest) == MoneyBefore(t, []) + rest
  {
    NumbersAppend(t, rest);
    StrsAppend(t.recipient, NumbersOn(t, []), rest);
    StrsAppend(t.sender, StrOn(t.recipient, NumbersOn(t, [])), rest);
  }

  lemma PlaceAppends(h: Block, tail: Bytes, rest: Bytes)
    ensures PlaceOn(h, tail + rest) == PlaceOn(h, tail) + rest
  {
    var b3 := StrOn(h.stateRoot, tail);
    var b2 := StrOn(h.merkleRoot, b3);
    var b1 := StrOn(h.prevHash, b2);
    StrsAppend(h.stateRoot, tail, rest);
    StrsAppend(h.merkleRoot, b3, rest);
    StrsAppend(h.prevHash, b2, rest);
    U64Appends(AsWord(h.timestamp), b1, rest);
    U64Appends(h.index, U64On(AsWord(h.timestamp), b1), rest);
  }

  lemma SealAppends(h: Block, tail: Bytes, rest: Bytes)
    ensures SealOn(h, tail + rest) == SealOn(h, tail) + rest
  {
    var b5 := StrOn(h.historyRoot, tail);
    var b4 := StrOn(h.filterRoot, b5);
    var b3 := StrOn(h.hash, b4);
    var b2 := U64On(h.nonce, b3);
    StrsAppend(h.historyRoot, tail, rest);
    StrsAppend(h.filterRoot, b5, rest);
    StrsAppend(h.hash, b4, rest);
    U64Appends(h.nonce, b3, rest);
    U32Appends(h.bits, b2, rest);
    U64Appends(h.baseFee, U32On(h.bits, b2), rest);
  }

  lemma HeaderAppends(h: Block, tail: Bytes, rest: Bytes)
    ensures HeaderOn(h, tail + rest) == HeaderOn(h, tail) + rest
  {
    SealAppends(h, tail, rest);
    PlaceAppends(h, SealOn(h, tail), rest);
    U32Appends(h.version, PlaceOn(h, SealOn(h, tail)), rest);
  }

  function WithMemo(b: StoredBlock, memo: Bytes): (r: StoredBlock)
    requires |b.txs| == 1
  {
    StoredBlock(b.header, [StoredTx(b.txs[0].tx.(memo := memo), b.txs[0].auth)])
  }

  function BeforeMemo(b: StoredBlock): (p: Bytes)
    requires |b.txs| == 1
  {
    ByteOn(RECORD_TAG, HeaderOn(b.header, U32On(1, MoneyBefore(b.txs[0].tx, []))))
  }

  function AfterMemo(t: StoredTx): (r: Bytes) {
    PayeesOn(t.tx, AssetsOn(t.tx, AuthOn(t, [])))
  }

  lemma LoneTx(t: StoredTx, rest: Bytes)
    ensures TxsOn([t], rest) == TxOn(t, rest)
  {
    assert [t][1..] == [];
    assert ManyOn(Puts(), [t][1..], rest) == rest;
  }

  /** The record of a block with one transaction, around its memo. */
  lemma Around(b: StoredBlock, memo: Bytes)
    requires |b.txs| == 1
    ensures Encode(WithMemo(b, memo)) == BeforeMemo(b) + StrOn(memo, AfterMemo(b.txs[0]))
  {
    var t, after := b.txs[0].tx, StrOn(memo, AfterMemo(b.txs[0]));
    var u := StoredTx(t.(memo := memo), b.txs[0].auth);
    LoneTx(u, []);
    assert TxOn(u, []) == MoneyBefore(t, after);
    MoneyAppends(t, after);
    U32Appends(1, MoneyBefore(t, []), after);
    HeaderAppends(b.header, U32On(1, MoneyBefore(t, [])), after);
    Regroup([RECORD_TAG], HeaderOn(b.header, U32On(1, MoneyBefore(t, []))), after);
  }

  // lengths

  lemma StrLength(v: Bytes, rest: Bytes)
    ensures |StrOn(v, rest)| == 5 + (if IsHex(v) then |v| / 2 else |v|) + |rest|
  {
  }

  /** A coinbase and nothing besides. */
  predicate Bare(t: StoredTx) {
    && IsCoinbase(t.tx) && t.auth == BLANK_AUTH
    && t.tx == BLANK_TX.(sender := COINBASE, recipient := t.tx.recipient, amount := t.tx.amount, nonce := t.tx.nonce)
  }

  lemma AuthLength(t: StoredTx)
    requires Bare(t)
    ensures |AuthOn(t, [])| == 37
  {
    var sponsor := SponsorOn(t, []);
    StrLength([], []);
    StrLength([], StrOn([], []));
    StrLength([], StrOn([], StrOn([], [])));
    assert |sponsor| == 15;
    var vault := VaultOn(None, sponsor);
    StrLength([], vault);
    var locks := LocksOn(t.auth, sponsor);
    assert |locks| == 22;
    var sigs := StrsOn([], locks);
    assert |sigs| == 4 + |locks|;
    var multi := MultisigOn(None, sigs);
    StrLength([], multi);
    StrLength([], StrOn([], multi));
  }

  lemma AfterLength(t: StoredTx)
    requires Bare(t)
    ensures |AfterMemo(t)| == 48
  {
    AuthLength(t);
    var ops := OpOn(None, AuthOn(t, []));
    StrLength([], IssueOn(None, ops));
  }

  /** A header like that of the first block: four digests, and no transactions. */
  predicate HeaderOnly(g: StoredBlock) {
    && g.txs == [] && g.header.txs == [] && g.header.filterRoot == [] && g.header.historyRoot == [] && HeaderFits(g.header)
    && IsDigest(g.header.prevHash) && IsDigest(g.header.merkleRoot) && IsDigest(g.header.stateRoot) && IsDigest(g.header.hash)
  }

  predicate IsDigest(v: Bytes) {
    |v| == DIGEST_LEN && IsHex(v)
  }

  lemma SealLength(h: Block, rest: Bytes)
    requires IsDigest(h.hash) && h.filterRoot == [] && h.historyRoot == []
    ensures |SealOn(h, rest)| == 67 + |rest|
  {
    StrLength([], rest);
    StrLength([], StrOn([], rest));
    StrLength(h.hash, StrOn([], StrOn([], rest)));
  }

  lemma PlaceLength(h: Block, rest: Bytes)
    requires IsDigest(h.prevHash) && IsDigest(h.merkleRoot) && IsDigest(h.stateRoot)
    ensures |PlaceOn(h, rest)| == 127 + |rest|
  {
    var b2 := StrOn(h.stateRoot, rest);
    var b1 := StrOn(h.merkleRoot, b2);
    StrLength(h.stateRoot, rest);
    StrLength(h.merkleRoot, b2);
    StrLength(h.prevHash, b1);
  }

  lemma GhostLength(g: StoredBlock)
    requires HeaderOnly(g)
    ensures |Encode(g)| == 203
  {
    var body := BodyOn([]);
    assert TxsOn([], []) == [] && |body| == 4;
    SealLength(g.header, body);
    PlaceLength(g.header, SealOn(g.header, body));
  }

  lemma SmallNumber(n: nat)
    requires n < 256
    ensures BigEndian(n, 4)[0] == 0
  {
    assert n / 256 == 0;
    assert BigEndian(0, 1) == [] + [0] && BigEndian(0, 2) == [0] + [0] && BigEndian(0, 3) == [0, 0] + [0];
  }

  /** The memo: bytes to skip, then the frame of the ghost. */
  function Haunted(pad: Bytes, g: StoredBlock): (memo: Bytes) {
    pad + BlockLog.Frame(Format(), g)
  }

  lemma HauntedFits(pad: Bytes, g: StoredBlock)
    requires |pad| == 48 && HeaderOnly(g)
    ensures |Haunted(pad, g)| <= Ledger.MAX_MEMO_BYTES && !IsHex(Haunted(pad, g))
  {
    GhostLength(g);
    SmallNumber(203);
    assert Haunted(pad, g)[48] == 0;
    assert HexValue(Haunted(pad, g)[48]) == -1;
  }

  /** Where the ghost's frame is in the bytes of a record. */
  lemma Middle(size: Bytes, before: Bytes, tag: Bytes, count: Bytes, pad: Bytes, ghostly: Bytes, after: Bytes, n: nat)
    requires n == |size| + |before| + |tag| + |count| + |pad|
    ensures var frame := size + (before + (tag + (count + ((pad + ghostly) + after))));
            |frame| == n + |ghostly| + |after| && frame[n..n + |ghostly|] == ghostly
  {
    var frame := size + (before + (tag + (count + ((pad + ghostly) + after))));
    assert frame == (size + before + tag + count + pad) + (ghostly + after);
    DropHead(size + before + tag + count + pad, ghostly + after);
    DropHead(ghostly, after);
    assert frame[n..n + |ghostly|] == frame[n..][..|ghostly|];
  }

  lemma LongFrame(b: StoredBlock, memo: Bytes)
    requires |b.txs| == 1 && !IsHex(memo)
    ensures BlockLog.Frame(Format(), WithMemo(b, memo)) ==
      BigEndian(|Encode(WithMemo(b, memo))|, 4) + (BeforeMemo(b) + ([0] + (Codec.U32(|memo|) + (memo + AfterMemo(b.txs[0])))))
  {
    Around(b, memo);
  }

  lemma ShortLength(b: StoredBlock)
    requires |b.txs| == 1 && Bare(b.txs[0])
    ensures |BlockLog.Frame(Format(), b)| == 4 + |BeforeMemo(b)| + 5 + 48
  {
    assert b == WithMemo(b, []);
    Around(b, []);
    AfterLength(b.txs[0]);
    StrLength([], AfterMemo(b.txs[0]));
  }

  /** What a failed write of the block with the memo leaves behind the block without it. */
  lemma Leftover(b: StoredBlock, pad: Bytes, ghostly: Bytes, n: nat)
    requires |b.txs| == 1 && Bare(b.txs[0]) && |pad| == 48 && !IsHex(pad + ghostly) && n == |BlockLog.Frame(Format(), b)|
    ensures var long := BlockLog.Frame(Format(), WithMemo(b, pad + ghostly));
            |long| > n + |ghostly| && long[n..n + |ghostly|] == ghostly
  {
    var memo := pad + ghostly;
    var size := BigEndian(|Encode(WithMemo(b, memo))|, 4);
    ShortLength(b);
    LongFrame(b, memo);
    AfterLength(b.txs[0]);
    Middle(size, BeforeMemo(b), [0], Codec.U32(|memo|), pad, ghostly, AfterMemo(b.txs[0]), n);
  }

  /** One write over the other, at the start of an empty file. */
  lemma WrittenOver(long: Bytes, short: Bytes, cut: nat)
    requires |short| <= cut <= |long|
    ensures BlockLog.WriteAt(BlockLog.WriteAt([], 0, long[..cut]), 0, short) == short + long[|short|..cut]
  {
    var first := BlockLog.WriteAt([], 0, long[..cut]);
    assert first == [] + long[..cut] == long[..cut];
    assert long[..cut][|short|..] == long[|short|..cut];
    assert [] + short == short && first[..0] == [];
  }

  /** The block appended, and after it the ghost. */
  lemma TwoBlocks(b: StoredBlock, g: StoredBlock)
    requires |b.txs| == 1 && Bare(b.txs[0]) && BlockFits(b) && b.header.txs == [] && HeaderOnly(g)
    requires |Encode(b)| <= BlockLog.MAX_RECORD
    ensures BlockLog.Blocks(Format(), BlockLog.Frame(Format(), b) + BlockLog.Frame(Format(), g)) == [b, g]
  {
    BareSurvives(b);
    GhostSurvives(g);
    TwoFrames(Format(), b, g);
  }

  lemma BareSurvives(b: StoredBlock)
    requires |b.txs| == 1 && Bare(b.txs[0]) && BlockFits(b) && b.header.txs == []
    ensures Format().decode(Format().encode(b)) == Some(b) && |Format().encode(b)| > 0
  {
    SurvivesExactly(b);
  }

  lemma GhostSurvives(g: StoredBlock)
    requires HeaderOnly(g)
    ensures Format().decode(Format().encode(g)) == Some(g) && |Format().encode(g)| == 203
  {
    SurvivesExactly(g);
    GhostLength(g);
  }

  lemma OneFrame<B>(c: BlockLog.Records<B>, b: B, rest: Bytes)
    requires c.decode(c.encode(b)) == Some(b) && 0 < |c.encode(b)| <= BlockLog.MAX_RECORD
    ensures BlockLog.Blocks(c, BlockLog.Frame(c, b) + rest) == [b] + BlockLog.Blocks(c, rest)
  {
    BlockLog.FrameReads(c, b);
    BlockLog.RecordFirst(c, BlockLog.Frame(c, b), rest);
  }

  lemma TwoFrames<B>(c: BlockLog.Records<B>, b: B, g: B)
    requires c.decode(c.encode(b)) == Some(b) && 0 < |c.encode(b)| <= BlockLog.MAX_RECORD
    requires c.decode(c.encode(g)) == Some(g) && 0 < |c.encode(g)| <= BlockLog.MAX_RECORD
    ensures BlockLog.Blocks(c, BlockLog.Frame(c, b) + BlockLog.Frame(c, g)) == [b, g]
  {
    OneFrame(c, b, BlockLog.Frame(c, g));
    OneFrame(c, g, []);
    assert BlockLog.Frame(c, g) + [] == BlockLog.Frame(c, g) && BlockLog.Blocks(c, []) == [];
  }

  /** For every block with a bare coinbase and every block of the first block's form: the write of the
      first with a certain memo, one the rules allow, fails at a certain byte; then the block without the
      memo is appended, and recovery reads the other one after it, which nobody ever appended. */
  method StaleBytesRevived(b: StoredBlock, g: StoredBlock, pad: Bytes) returns (store: BlockLog.Store, long: StoredBlock)
    requires |b.txs| == 1 && Bare(b.txs[0]) && BlockFits(b) && b.header.txs == [] && HeaderOnly(g) && |pad| == 48
    requires |Encode(b)| <= BlockLog.MAX_RECORD
    ensures fresh(store) && store.Valid() && store.frames == [BlockLog.Frame(Format(), b)]
    ensures BlockLog.Blocks(Format(), store.file) == [b, g]
    ensures long.header == b.header && |long.txs| == 1 && long.txs[0].auth == b.txs[0].auth
    ensures long.txs[0].tx == b.txs[0].tx.(memo := long.txs[0].tx.memo) && |long.txs[0].tx.memo| <= Ledger.MAX_MEMO_BYTES
  {
    var c, memo := Format(), Haunted(pad, g);
    long := WithMemo(b, memo);
    var fb, fg := BlockLog.Frame(c, b), BlockLog.Frame(c, g);
    HauntedFits(pad, g);
    Leftover(b, pad, fg, |fb|);
    WrittenOver(BlockLog.Frame(c, long), fb, |fb| + |fg|);
    store := new BlockLog.Store([], [], []);
    var failed := store.Append(c, long, |fb| + |fg|);
    WholeSlice(fb);
    var ok := store.Append(c, b, |fb|);
    TwoBlocks(b, g);
  }
}
