/** What a node keeps beside its blocks, each equal to what a walk of the chain would give:
    cumulative work, burn total, transaction and address indexes, and filter headers. */
module ChainDerived {
  import opened Bytes
  import opened Seqs
  import opened Transactions
  import opened Indexes
  import opened IndexStore

  /** How the derived data is read off a block. */
  datatype Kit = Kit(
    id: Tx -> Digest,
    touch: Touch,
    work: Word -> nat,
    burnedIn: Block -> Word,
    fold: (Bytes, Block) -> Digest)

  /** The work behind a chain. */
  function WorkOf(work: Word -> nat, blocks: seq<Block>): (n: nat) {
    if blocks == [] then 0 else WorkOf(work, blocks[..|blocks| - 1]) + work(blocks[|blocks| - 1].bits)
  }

  /** The base fees burned by a chain, accumulated in 64 bits. */
  function BurnedOf(burnedIn: Block -> Word, blocks: seq<Block>): (n: Word) {
    if blocks == [] then 0 else (BurnedOf(burnedIn, blocks[..|blocks| - 1]) + burnedIn(blocks[|blocks| - 1])) % U64_LIMIT
  }

  function LastOf(headers: seq<Digest>): (h: Bytes) {
    if headers == [] then [] else headers[|headers| - 1]
  }

  /** The filter-header chain, folded from genesis. */
  function HeadersOf(fold: (Bytes, Block) -> Digest, blocks: seq<Block>): (headers: seq<Digest>)
    ensures |headers| == |blocks|
  {
    if blocks == [] then []
    else
      var below := HeadersOf(fold, blocks[..|blocks| - 1]);
      below + [fold(LastOf(below), blocks[|blocks| - 1])]
  }

  /** Cutting the headers at a fork is folding the chain up to it. */
  lemma {:induction false} HeadersPrefix(fold: (Bytes, Block) -> Digest, blocks: seq<Block>, n: nat)
    requires n <= |blocks|
    ensures HeadersOf(fold, blocks)[..n] == HeadersOf(fold, blocks[..n])
    decreases |blocks|
  {
    if n == |blocks| {
      assert blocks[..n] == blocks;
    } else {
      var k := |blocks| - 1;
      HeadersPrefix(fold, blocks[..k], n);
      assert blocks[..k][..n] == blocks[..n];
    }
  }

  lemma SnocSuffix<T>(base: seq<T>, suffix: seq<T>, i: nat)
    requires i < |suffix|
    ensures base + suffix[..i + 1] == (base + suffix[..i]) + [suffix[i]]
  {
  }

  lemma WholeSuffix<T>(base: seq<T>, suffix: seq<T>)
    ensures base + suffix[..0] == base && base + suffix[..|suffix|] == base + suffix
  {
    assert suffix[..|suffix|] == suffix;
  }

  lemma WorkStep(work: Word -> nat, blocks: seq<Block>, b: Block)
    ensures WorkOf(work, blocks + [b]) == WorkOf(work, blocks) + work(b.bits)
  {
    assert (blocks + [b])[..|blocks|] == blocks;
  }

  method ChainWork(work: Word -> nat, blocks: seq<Block>) returns (n: nat)
    ensures n == WorkOf(work, blocks)
  {
    n := 0;
    for i := 0 to |blocks|
      invariant n == WorkOf(work, blocks[..i])
    {
      assert blocks[..i + 1][..i] == blocks[..i];
      n := n + work(blocks[i].bits);
    }
    assert blocks[..|blocks|] == blocks;
  }

  lemma WordBack(x: Word, y: Word)
    ensures ((x + y) % U64_LIMIT - y) % U64_LIMIT == x
  {
  }

  lemma NothingIndexed(kit: Kit, genesis: Block)
    requires genesis.txs == []
    ensures TxIndexOf(kit.id, [genesis]) == map[]
    ensures BurnedOf(kit.burnedIn, [genesis]) == kit.burnedIn(genesis)
  {
    assert [genesis][..0] == [];
  }

  /** The indexes and the burn total of a chain; the address index is kept only once enabled. */
  datatype Derived = Derived(txIndex: TxIndex, addrIndex: Option<AddrIndex>, burned: Word)

  /** The data is what a walk of the blocks gives. */
  ghost predicate Describes(kit: Kit, d: Derived, blocks: seq<Block>) {
    && d.txIndex == TxIndexOf(kit.id, blocks)
    && (d.addrIndex.Some? ==> IndexesAddresses(kit.touch, d.addrIndex.value, blocks))
    && d.burned == BurnedOf(kit.burnedIn, blocks)
  }

  /** One chain has one description, with the address index or without. */
  lemma DerivedUnique(kit: Kit, d: Derived, e: Derived, blocks: seq<Block>)
    requires Describes(kit, d, blocks) && Describes(kit, e, blocks) && (d.addrIndex.Some? <==> e.addrIndex.Some?)
    ensures d == e
  {
    if d.addrIndex.Some? {
      AddressIndexUnique(kit.touch, d.addrIndex.value, e.addrIndex.value, blocks);
    }
  }

  /** Genesis carries no transactions. */
  function AtGenesis(): (d: Derived) {
    Derived(map[], None, 0)
  }

  /** A block joins the tip. */
  method Connect(kit: Kit, d: Derived, b: Block, ghost blocks: seq<Block>) returns (d': Derived)
    requires Describes(kit, d, blocks)
    ensures Describes(kit, d', blocks + [b]) && (d'.addrIndex.Some? <==> d.addrIndex.Some?)
  {
    assert (blocks + [b])[..|blocks|] == blocks;
    var txIndex := IndexTxs(kit.id, d.txIndex, b);
    d' := Derived(txIndex, None, (d.burned + kit.burnedIn(b)) % U64_LIMIT);
    if d.addrIndex.Some? {
      var addrIndex := IndexAddresses(kit.touch, d.addrIndex.value, b, blocks);
      d' := d'.(addrIndex := Some(addrIndex));
    }
  }

  /** The tip block leaves. */
  method Disconnect(kit: Kit, d: Derived, b: Block, ghost rest: seq<Block>) returns (d': Derived)
    requires Describes(kit, d, rest + [b])
    requires forall i :: 0 <= i < |rest| ==> rest[i].index != b.index
    ensures Describes(kit, d', rest) && (d'.addrIndex.Some? <==> d.addrIndex.Some?)
  {
    assert (rest + [b])[..|rest|] == rest;
    IndexedHeights(kit.id, rest, b.index);
    UnindexUndoes(kit.id, TxIndexOf(kit.id, rest), b);
    WordBack(BurnedOf(kit.burnedIn, rest), kit.burnedIn(b));
    var txIndex := UnindexTxs(kit.id, d.txIndex, b);
    d' := Derived(txIndex, None, (d.burned - kit.burnedIn(b)) % U64_LIMIT);
    if d.addrIndex.Some? {
      var addrIndex := UnindexAddresses(kit.touch, d.addrIndex.value, b, rest);
      d' := d'.(addrIndex := Some(addrIndex));
    }
  }

  /** Builds the address index from the chain as it stands. */
  method BuildAddressIndex(kit: Kit, blocks: seq<Block>) returns (idx: AddrIndex)
    ensures IndexesAddresses(kit.touch, idx, blocks)
  {
    idx := map[];
    NothingListed(kit.touch);
    for i := 0 to |blocks|
      invariant IndexesAddresses(kit.touch, idx, blocks[..i])
    {
      SnocSlice(blocks, i);
      idx := IndexAddresses(kit.touch, idx, blocks[i], blocks[..i]);
    }
    WholeSlice(blocks);
  }

  lemma NothingListed(touch: Touch)
    ensures IndexesAddresses(touch, map[], [])
  {
    forall a ensures IndexesAddress(touch, map[], [], a) {
      assert HistoryOfAddress(touch, [], a) == [];
    }
  }

  /** Every height is its block's own. */
  ghost predicate HeightsApart(blocks: seq<Block>) {
    forall i, j :: 0 <= i < j < |blocks| ==> blocks[i].index != blocks[j].index
  }

  /** Unindexes blocks from the tip down to the fork, then indexes the suffix upwards. */
  method Switch(kit: Kit, d: Derived, blocks: seq<Block>, keep: nat, suffix: seq<Block>) returns (d': Derived)
    requires Describes(kit, d, blocks) && keep <= |blocks| && HeightsApart(blocks)
    ensures Describes(kit, d', blocks[..keep] + suffix) && (d'.addrIndex.Some? <==> d.addrIndex.Some?)
  {
    d' := d;
    var i := |blocks|;
    assert blocks[..i] == blocks;
    while i > keep
      invariant keep <= i <= |blocks| && Describes(kit, d', blocks[..i]) && (d'.addrIndex.Some? <==> d.addrIndex.Some?)
    {
      i := i - 1;
      assert blocks[..i + 1] == blocks[..i] + [blocks[i]];
      d' := Disconnect(kit, d', blocks[i], blocks[..i]);
    }
    ghost var cur := blocks[..keep];
    WholeSuffix(cur, suffix);
    for k := 0 to |suffix|
      invariant cur == blocks[..keep] + suffix[..k] && Describes(kit, d', cur) && (d'.addrIndex.Some? <==> d.addrIndex.Some?)
    {
      d' := Connect(kit, d', suffix[k], cur);
      SnocSuffix(blocks[..keep], suffix, k);
      cur := cur + [suffix[k]];
    }
  }

  /** Cuts the filter headers at the fork and folds the suffix on. */
  method SwitchHeaders(fold: (Bytes, Block) -> Digest, headers: seq<Digest>, blocks: seq<Block>, keep: nat, suffix: seq<Block>)
    returns (out: seq<Digest>)
    requires headers == HeadersOf(fold, blocks) && keep <= |blocks|
    ensures out == HeadersOf(fold, blocks[..keep] + suffix)
  {
    HeadersPrefix(fold, blocks, keep);
    out := headers[..keep];
    ghost var cur := blocks[..keep];
    WholeSuffix(cur, suffix);
    for k := 0 to |suffix|
      invariant cur == blocks[..keep] + suffix[..k] && out == HeadersOf(fold, cur)
    {
      assert (cur + [suffix[k]])[..|cur|] == cur;
      SnocSuffix(blocks[..keep], suffix, k);
      out := out + [fold(LastOf(out), suffix[k])];
      cur := cur + [suffix[k]];
    }
  }

  /** Cumulative work of a prefix and a suffix. */
  method CandidateWork(work: Word -> nat, blocks: seq<Block>, keep: nat, suffix: seq<Block>) returns (n: nat)
    requires keep <= |blocks|
    ensures n == WorkOf(work, blocks[..keep] + suffix)
  {
    n := ChainWork(work, blocks[..keep]);
    ghost var cur := blocks[..keep];
    WholeSuffix(cur, suffix);
    for k := 0 to |suffix|
      invariant cur == blocks[..keep] + suffix[..k] && n == WorkOf(work, cur)
    {
      WorkStep(work, cur, suffix[k]);
      SnocSuffix(blocks[..keep], suffix, k);
      n := n + work(suffix[k].bits);
      cur := cur + [suffix[k]];
    }
  }
}
