/** What one block does to the ledger: its transactions in order, then its coinbase, then the
    conservation rule over the block as a whole. */
module BlockLedger {
  import opened Bytes
  import opened Transactions
  import opened Ledger
  import opened LedgerSums
  import opened LedgerLaws
  import opened AssetLaws
  import Supply

  const COINBASE_MATURITY := 3

  /** The rules a block is checked by, as functions of what they look at. */
  datatype Consensus = Consensus(
    admits: (Tx, Word) -> bool,
    apply: (State, Tx, Word, Word, Word) -> Result<State>,
    minted: (Tx, Bytes) -> int,
    baseFee: (Tx, Word) -> Word,
    txid: Tx -> Digest,
    reward: Word -> Word)

  function BaseFeeFor(r: Rules, tx: Tx, baseFee: Word): (fee: Word) {
    (baseFee * r.size(tx)) % U64_LIMIT
  }

  /** The ledger's own rules. */
  ghost function ConsensusOf(r: Rules): (c: Consensus) {
    Consensus(
      (tx: Tx, height: Word) => Sane(r, tx) && r.ready(tx, height),
      (s: State, tx: Tx, height: Word, reserve: Word, payerReserve: Word) => ApplyTx(r, s, tx, height, reserve, payerReserve),
      (tx: Tx, id: Bytes) => AssetLaws.Minted(r, tx, id),
      (tx: Tx, baseFee: Word) => BaseFeeFor(r, tx, baseFee),
      r.txid,
      (height: Word) => Supply.BlockReward(height))
  }

  /** An admitted transaction destroys its fee and what it overwrites, and keeps every floor. */
  ghost predicate CoinLaw(c: Consensus, s: State, tx: Tx, height: Word, reserve: Word, payerReserve: Word, f: Floor) {
    c.admits(tx, height) && c.apply(s, tx, height, reserve, payerReserve).Ok? ==>
      var t := c.apply(s, tx, height, reserve, payerReserve).value;
      && Coins(t) + tx.fee + Overwritten(s, tx) == Coins(s)
      && (Above(s, f) && Reserves(tx, reserve, payerReserve, f) && Overwritten(s, tx) == 0 ==> Above(t, f))
  }

  /** It moves each asset's total by what it mints, and leaves name records bare. */
  ghost predicate AssetLaw(c: Consensus, s: State, tx: Tx, height: Word, reserve: Word, payerReserve: Word, id: Bytes, coin: bool) {
    c.admits(tx, height) && c.apply(s, tx, height, reserve, payerReserve).Ok? && NamesBare(s, coin) ==>
      var t := c.apply(s, tx, height, reserve, payerReserve).value;
      Congruent(Units(t, id), Units(s, id) + c.minted(tx, id)) && NamesBare(t, coin)
  }

  ghost predicate Lawful(c: Consensus) {
    && (forall s, tx, height, reserve, payerReserve, f :: CoinLaw(c, s, tx, height, reserve, payerReserve, f))
    && (forall s, tx, height, reserve, payerReserve, id, coin :: AssetLaw(c, s, tx, height, reserve, payerReserve, id, coin))
    && (forall height :: c.reward(height) <= Supply.INITIAL_REWARD)
  }

  /** The ledger's rules obey both laws. */
  lemma RulesLawful(r: Rules)
    ensures Lawful(ConsensusOf(r))
  {
    var c := ConsensusOf(r);
    forall s, tx, height, reserve, payerReserve, f ensures CoinLaw(c, s, tx, height, reserve, payerReserve, f) {
      if c.admits(tx, height) && c.apply(s, tx, height, reserve, payerReserve).Ok? {
        TxKeeps(r, s, tx, height, reserve, payerReserve, f);
      }
    }
    forall s, tx, height, reserve, payerReserve, id, coin
      ensures AssetLaw(c, s, tx, height, reserve, payerReserve, id, coin)
    {
      if c.admits(tx, height) && c.apply(s, tx, height, reserve, payerReserve).Ok? && NamesBare(s, coin) {
        BareWeakens(s, coin);
        TxUnits(r, s, tx, height, reserve, payerReserve, id);
        TxKeepsBare(r, s, tx, height, reserve, payerReserve, coin);
      }
    }
  }

  lemma BareWeakens(s: State, coin: bool)
    requires NamesBare(s, coin)
    ensures NamesBare(s, false)
  {
    forall a | IsNameKey(a) ensures Bare(Get(s, a), false) {
      assert Bare(Get(s, a), coin);
    }
  }

  /** What a block's coinbase paid an address. */
  function CoinbaseTo(b: Block, a: Address): (n: Word) {
    if b.txs != [] && IsCoinbase(b.txs[0]) && b.txs[0].recipient == a then b.txs[0].amount else 0
  }

  /** The first height whose reward may not be spent yet in a block at `height`. */
  function MaturingFrom(height: nat): (h: nat) {
    if height > COINBASE_MATURITY then height - COINBASE_MATURITY + 1 else 1
  }

  /** Rewards paid to `a` in blocks `lo` up to `hi`. */
  function CoinbasesTo(blocks: seq<Block>, lo: nat, hi: nat, a: Address): (n: nat)
    requires hi <= |blocks|
  {
    if hi <= lo then 0 else CoinbasesTo(blocks, lo, hi - 1, a) + CoinbaseTo(blocks[hi - 1], a)
  }

  function Upto(blocks: seq<Block>, height: nat): (hi: nat)
    ensures hi <= |blocks|
  {
    if height < |blocks| then height else |blocks|
  }

  /** The reward `a` may not spend yet in a block at `height`. */
  function Immature(blocks: seq<Block>, height: nat, a: Address): (n: nat) {
    CoinbasesTo(blocks, MaturingFrom(height), Upto(blocks, height), a)
  }

  /** The same, accumulated in 64 bits. */
  method ImmatureCoinbase(blocks: seq<Block>, height: Word, a: Address) returns (sum: Word)
    ensures sum == Immature(blocks, height, a) % U64_LIMIT
  {
    var start := MaturingFrom(height);
    sum := 0;
    var i := start;
    while i < height && i < |blocks|
      invariant start <= i && (i <= Upto(blocks, height) || i == start)
      invariant sum == (if i <= |blocks| then CoinbasesTo(blocks, start, i, a) % U64_LIMIT else 0)
    {
      sum := (sum + CoinbaseTo(blocks[i], a)) % U64_LIMIT;
      i := i + 1;
    }
  }

  function Reserve(blocks: seq<Block>, height: nat, a: Address): (n: Word) {
    Immature(blocks, height, a) % U64_LIMIT
  }

  ghost function FloorAt(blocks: seq<Block>, height: nat): (f: Floor) {
    (a: Address) => Immature(blocks, height, a)
  }

  datatype Progress = Progress(state: State, tips: Word, burned: Word, seen: set<Digest>)

  /** A transaction's turn in a block. */
  function NextTx(c: Consensus, blocks: seq<Block>, b: Block, p: Progress, tx: Tx): (res: Result<Progress>) {
    var minFee, id := c.baseFee(tx, b.baseFee), c.txid(tx);
    var reserve, payerReserve := Reserve(blocks, b.index, tx.sender),
                                 if IsSponsored(tx) then Reserve(blocks, b.index, tx.feePayer) else 0;
    var after := c.apply(p.state, tx, b.index, reserve, payerReserve);
    if !c.admits(tx, b.index) || tx.fee < minFee || id in p.seen || after.Err? then Err
    else Ok(Progress(after.value, (p.tips + (tx.fee - minFee)) % U64_LIMIT, (p.burned + minFee) % U64_LIMIT, p.seen + {id}))
  }

  /** The block's transactions up to position `n`, the coinbase left out. */
  function ApplyTxs(c: Consensus, blocks: seq<Block>, b: Block, s: State, n: nat): (res: Result<Progress>)
    requires 1 <= n <= |b.txs|
  {
    if n == 1 then Ok(Progress(s, 0, 0, {}))
    else
      var p := ApplyTxs(c, blocks, b, s, n - 1);
      if p.Err? then Err else NextTx(c, blocks, b, p.value, b.txs[n - 1])
  }

  /** What the coinbase must pay. */
  function Due(reward: Word, tips: Word): (n: Word) {
    (reward + tips) % U64_LIMIT
  }

  /** Transactions and coinbase, before the conservation rule. */
  function ApplyBody(c: Consensus, blocks: seq<Block>, b: Block, s: State): (res: Result<Progress>)
    requires b.txs != []
  {
    var p, cb := ApplyTxs(c, blocks, b, s, |b.txs|), b.txs[0];
    if p.Err? || cb.amount != Due(c.reward(b.index), p.value.tips) then Err
    else
      var paid := Credit(p.value.state, Output(cb.recipient, cb.amount));
      if paid.Err? then Err else Ok(p.value.(state := paid.value))
  }

  /** The block's net effect on coin, compared as signed 64-bit words. */
  ghost predicate CoinConserved(s: State, t: State, reward: nat, burned: nat) {
    Congruent(Coins(t) - Coins(s), reward - burned)
  }

  ghost function MintedBy(c: Consensus, txs: seq<Tx>, n: nat, id: Bytes): (d: int)
    requires 1 <= n <= |txs|
  {
    if n == 1 then 0 else MintedBy(c, txs, n - 1, id) + c.minted(txs[n - 1], id)
  }

  ghost predicate AssetConserved(c: Consensus, s: State, t: State, txs: seq<Tx>, id: Bytes)
    requires txs != []
  {
    Congruent(Units(t, id) - Units(s, id), MintedBy(c, txs, |txs|, id))
  }

  ghost predicate AssetsConserved(c: Consensus, s: State, t: State, txs: seq<Tx>)
    requires txs != []
  {
    forall id :: AssetConserved(c, s, t, txs, id)
  }

  /** The ledger after a block that passes every rule, or an error. */
  ghost function ApplyBlock(c: Consensus, blocks: seq<Block>, b: Block, s: State): (res: Result<Progress>)
    requires b.txs != []
  {
    var body := ApplyBody(c, blocks, b, s);
    if body.Err? then Err
    else if CoinConserved(s, body.value.state, c.reward(b.index), body.value.burned)
            && AssetsConserved(c, s, body.value.state, b.txs) then body
    else Err
  }

  /** The coin that name operations of the block overwrite. */
  ghost function OverwrittenBy(c: Consensus, blocks: seq<Block>, b: Block, s: State, n: nat): (lost: nat)
    requires 1 <= n <= |b.txs|
  {
    if n == 1 then 0
    else
      OverwrittenBy(c, blocks, b, s, n - 1) +
      var p := ApplyTxs(c, blocks, b, s, n - 1);
      if p.Ok? then Overwritten(p.value.state, b.txs[n - 1]) else 0
  }

  lemma ReserveExact(blocks: seq<Block>, height: nat, s: State, a: Address)
    requires Above(s, FloorAt(blocks, height))
    ensures Reserve(blocks, height, a) == FloorAt(blocks, height)(a)
  {
    var f := FloorAt(blocks, height);
    assert f(a) == Immature(blocks, height, a) && f(a) <= Get(s, a).balance;
  }

  /** Fees split into tips and burned base fees, and leave the ledger; floors hold as long as no
      name operation overwrites coin. */
  lemma {:induction false} TxsKeep(c: Consensus, blocks: seq<Block>, b: Block, s: State, n: nat)
    requires Lawful(c)
    requires 1 <= n <= |b.txs| && ApplyTxs(c, blocks, b, s, n).Ok? && Coins(s) < U64_LIMIT
    ensures var p := ApplyTxs(c, blocks, b, s, n).value;
            && Coins(p.state) + p.tips + p.burned + OverwrittenBy(c, blocks, b, s, n) == Coins(s)
            && (Above(s, FloorAt(blocks, b.index)) && OverwrittenBy(c, blocks, b, s, n) == 0 ==>
                  Above(p.state, FloorAt(blocks, b.index)))
    decreases n
  {
    if n > 1 {
      TxsKeep(c, blocks, b, s, n - 1);
      NextKeeps(c, blocks, b, ApplyTxs(c, blocks, b, s, n - 1).value, b.txs[n - 1]);
    }
  }

  lemma FeeSplits(coins: nat, after: nat, fee: nat, lost: nat, minFee: nat, tips: Word, burned: Word)
    requires after + fee + lost == coins && minFee <= fee && coins + tips + burned < U64_LIMIT
    ensures after + (tips + (fee - minFee)) % U64_LIMIT + (burned + minFee) % U64_LIMIT + lost == coins + tips + burned
  {
    assert tips + (fee - minFee) < U64_LIMIT && burned + minFee < U64_LIMIT;
  }

  lemma NextKeeps(c: Consensus, blocks: seq<Block>, b: Block, p: Progress, tx: Tx)
    requires Lawful(c)
    requires NextTx(c, blocks, b, p, tx).Ok? && Coins(p.state) + p.tips + p.burned < U64_LIMIT
    ensures var q := NextTx(c, blocks, b, p, tx).value;
            Coins(q.state) + q.tips + q.burned + Overwritten(p.state, tx) == Coins(p.state) + p.tips + p.burned
    ensures var f := FloorAt(blocks, b.index);
            Above(p.state, f) && Overwritten(p.state, tx) == 0 ==> Above(NextTx(c, blocks, b, p, tx).value.state, f)
  {
    var f, q := FloorAt(blocks, b.index), NextTx(c, blocks, b, p, tx).value;
    var reserve := Reserve(blocks, b.index, tx.sender);
    var payerReserve := if IsSponsored(tx) then Reserve(blocks, b.index, tx.feePayer) else 0;
    assert CoinLaw(c, p.state, tx, b.index, reserve, payerReserve, f);
    FeeSplits(Coins(p.state), Coins(q.state), tx.fee, Overwritten(p.state, tx), c.baseFee(tx, b.baseFee), p.tips, p.burned);
    if Above(p.state, f) {
      ReserveExact(blocks, b.index, p.state, tx.sender);
      ReserveExact(blocks, b.index, p.state, tx.feePayer);
    }
  }

  /** The per-transaction rules alone account for every coin of the block: the subsidy comes in,
      the base fees and whatever name operations overwrote go out. */
  lemma BodyKeeps(c: Consensus, blocks: seq<Block>, b: Block, s: State)
    requires Lawful(c)
    requires b.txs != [] && ApplyBody(c, blocks, b, s).Ok? && Coins(s) + c.reward(b.index) < U64_LIMIT
    ensures var p := ApplyBody(c, blocks, b, s).value;
            Coins(p.state) + p.burned + OverwrittenBy(c, blocks, b, s, |b.txs|) == Coins(s) + c.reward(b.index)
  {
    TxsKeep(c, blocks, b, s, |b.txs|);
    var p, cb := ApplyTxs(c, blocks, b, s, |b.txs|).value, b.txs[0];
    CreditPays(p.state, Output(cb.recipient, cb.amount), FloorAt(blocks, b.index));
  }

  /** So the coin half of the conservation rule holds exactly when no name operation overwrote
      coin, and then the totals agree as numbers, not only as words. */
  lemma CoinRuleExact(c: Consensus, blocks: seq<Block>, b: Block, s: State)
    requires Lawful(c)
    requires b.txs != [] && ApplyBody(c, blocks, b, s).Ok? && Coins(s) + c.reward(b.index) < U64_LIMIT
    ensures var p := ApplyBody(c, blocks, b, s).value; var reward := c.reward(b.index);
            && (CoinConserved(s, p.state, reward, p.burned) <==> OverwrittenBy(c, blocks, b, s, |b.txs|) == 0)
            && (CoinConserved(s, p.state, reward, p.burned) ==> Coins(p.state) + p.burned == Coins(s) + reward)
  {
    BodyKeeps(c, blocks, b, s);
    var o := OverwrittenBy(c, blocks, b, s, |b.txs|);
    var p := ApplyBody(c, blocks, b, s).value;
    assert Coins(p.state) - Coins(s) - (c.reward(b.index) - p.burned) == -(o as int);
    MultipleOfWord(o);
  }

  lemma MultipleOfWord(o: nat)
    requires o < U64_LIMIT
    ensures (0 - o as int) % U64_LIMIT == 0 <==> o == 0
  {
  }

  /** Where no name record holds coin, no name operation can overwrite any. */
  lemma {:induction false} NothingOverwritten(c: Consensus, blocks: seq<Block>, b: Block, s: State, n: nat)
    requires Lawful(c)
    requires 1 <= n <= |b.txs| && NamesBare(s, true) && ApplyTxs(c, blocks, b, s, n).Ok?
    ensures OverwrittenBy(c, blocks, b, s, n) == 0 && NamesBare(ApplyTxs(c, blocks, b, s, n).value.state, true)
    decreases n
  {
    if n > 1 {
      NothingOverwritten(c, blocks, b, s, n - 1);
      var p, tx := ApplyTxs(c, blocks, b, s, n - 1).value, b.txs[n - 1];
      if tx.name.Some? {
        assert Bare(Get(p.state, NameKey(tx.name.value.name)), true);
      }
      NextBare(c, blocks, b, p, tx, [], true);
    }
  }

  lemma NextBare(c: Consensus, blocks: seq<Block>, b: Block, p: Progress, tx: Tx, id: Bytes, coin: bool)
    requires Lawful(c)
    requires NamesBare(p.state, coin) && NextTx(c, blocks, b, p, tx).Ok?
    ensures NamesBare(NextTx(c, blocks, b, p, tx).value.state, coin)
    ensures Congruent(Units(NextTx(c, blocks, b, p, tx).value.state, id), Units(p.state, id) + c.minted(tx, id))
  {
    assert AssetLaw(c, p.state, tx, b.index, Reserve(blocks, b.index, tx.sender),
                    if IsSponsored(tx) then Reserve(blocks, b.index, tx.feePayer) else 0, id, coin);
  }

  lemma CongruentAdds(x: int, y: int, m: int, s: int, total: int)
    requires Congruent(x, y + m) && Congruent(y, s + total)
    ensures Congruent(x, s + (total + m))
  {
  }

  /** Asset totals move by what the block mints, modulo words. */
  lemma {:induction false} TxsUnits(c: Consensus, blocks: seq<Block>, b: Block, s: State, n: nat, id: Bytes)
    requires Lawful(c)
    requires 1 <= n <= |b.txs| && NamesBare(s, false) && ApplyTxs(c, blocks, b, s, n).Ok?
    ensures Congruent(Units(ApplyTxs(c, blocks, b, s, n).value.state, id), Units(s, id) + MintedBy(c, b.txs, n, id))
    ensures NamesBare(ApplyTxs(c, blocks, b, s, n).value.state, false)
    decreases n
  {
    if n > 1 {
      TxsUnits(c, blocks, b, s, n - 1, id);
      var p, tx := ApplyTxs(c, blocks, b, s, n - 1).value, b.txs[n - 1];
      NextBare(c, blocks, b, p, tx, id, false);
      CongruentAdds(Units(ApplyTxs(c, blocks, b, s, n).value.state, id), Units(p.state, id), c.minted(tx, id),
                    Units(s, id), MintedBy(c, b.txs, n - 1, id));
    }
  }

  lemma BodyUnits(c: Consensus, blocks: seq<Block>, b: Block, s: State, id: Bytes)
    requires Lawful(c)
    requires b.txs != [] && NamesBare(s, false) && ApplyBody(c, blocks, b, s).Ok?
    ensures AssetConserved(c, s, ApplyBody(c, blocks, b, s).value.state, b.txs, id)
  {
    var p, cb := ApplyTxs(c, blocks, b, s, |b.txs|).value, b.txs[0];
    TxsUnits(c, blocks, b, s, |b.txs|, id);
    CreditUnits(p.state, Output(cb.recipient, cb.amount), id);
    MovedUnits(c, s, p.state, ApplyBody(c, blocks, b, s).value.state, b.txs, id);
  }

  lemma MovedUnits(c: Consensus, s: State, p: State, t: State, txs: seq<Tx>, id: Bytes)
    requires txs != [] && Units(t, id) == Units(p, id)
    requires Congruent(Units(p, id), Units(s, id) + MintedBy(c, txs, |txs|, id))
    ensures AssetConserved(c, s, t, txs, id)
  {
    CongruentMoves(Units(p, id), Units(s, id), MintedBy(c, txs, |txs|, id));
  }

  lemma CreditUnits(s: State, o: Output, id: Bytes)
    requires Credit(s, o).Ok?
    ensures Units(Credit(s, o).value, id) == Units(s, id)
  {
    var acc := Get(s, o.recipient);
    UnitsSet(s, o.recipient, acc.(balance := acc.balance + o.amount), id);
  }

  lemma CongruentMoves(x: int, s: int, m: int)
    requires Congruent(x, s + m)
    ensures Congruent(x - s, m)
  {
  }

  /** The asset half of the conservation rule always holds. */
  lemma AssetRuleHolds(c: Consensus, blocks: seq<Block>, b: Block, s: State)
    requires Lawful(c)
    requires b.txs != [] && NamesBare(s, false) && ApplyBody(c, blocks, b, s).Ok?
    ensures AssetsConserved(c, s, ApplyBody(c, blocks, b, s).value.state, b.txs)
    ensures NamesBare(ApplyBody(c, blocks, b, s).value.state, false)
  {
    forall id ensures AssetConserved(c, s, ApplyBody(c, blocks, b, s).value.state, b.txs, id) {
      BodyUnits(c, blocks, b, s, id);
    }
    var p, cb := ApplyTxs(c, blocks, b, s, |b.txs|).value, b.txs[0];
    TxsUnits(c, blocks, b, s, |b.txs|, []);
    var acc := Get(p.state, cb.recipient);
    assert IsNameKey(cb.recipient) ==> Bare(acc, false);
    BareSet(p.state, cb.recipient, acc.(balance := acc.balance + cb.amount), false);
  }

  /** When no name record holds coin, a block that passes the per-transaction rules passes the
      whole conservation rule. */
  lemma RulesImplyConservation(c: Consensus, blocks: seq<Block>, b: Block, s: State)
    requires Lawful(c)
    requires b.txs != [] && NamesBare(s, true) && ApplyBody(c, blocks, b, s).Ok?
    requires Coins(s) + c.reward(b.index) < U64_LIMIT
    ensures ApplyBlock(c, blocks, b, s) == ApplyBody(c, blocks, b, s)
  {
    NothingOverwritten(c, blocks, b, s, |b.txs|);
    CoinRuleExact(c, blocks, b, s);
    BareWeakens(s, true);
    AssetRuleHolds(c, blocks, b, s);
  }
}
