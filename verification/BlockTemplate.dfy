/** A block made of the selected transactions and the coinbase that pays what is due is a block the
    ledger applies. */
module BlockTemplate {
  import opened Bytes
  import opened Seqs
  import opened Transactions
  import opened Ledger
  import opened LedgerSums
  import opened LedgerLaws
  import opened BlockLedger
  import opened Selection
  import opened SelectionSteps
  import opened NameRecords
  import opened SelectionApplies
  import opened Greedy
  import opened Chain
  import Supply

  /** Records of names no chosen transaction acts on are those of the tip. */
  ghost predicate NamesLeft(s: State, tip: State, claimed: set<Bytes>) {
    forall name :: name !in claimed ==> Get(s, NameKey(name)) == Get(tip, NameKey(name))
  }

  ghost predicate HasId(d: Desk<Cache>, chosen: seq<Tx>, id: Digest) {
    exists x :: x in chosen && d.hash(x) == id
  }

  /** Where the real ledger stands once some chosen transactions have been applied. */
  ghost predicate Standing(d: Desk<Cache>, t: Tip, f: Floor, chosen: seq<Tx>, p: Progress) {
    && Tracks(t, AddAll(d, map[], chosen).cache, p.state, f)
    && NamesLeft(p.state, t.state, AddAll(d, map[], chosen).claimed)
    && (forall id :: id in p.seen ==> HasId(d, chosen, id))
  }

  lemma NamesLeftAfter(d: Desk<Cache>, q: Draft<Cache>, s: State, s': State, tip: State, tx: Tx)
    requires NamesLeft(s, tip, q.claimed) && OthersKept(s, s', tx)
    ensures NamesLeft(s', tip, Add(d, q, tx).claimed)
  {
    forall name | name !in Add(d, q, tx).claimed ensures Get(s', NameKey(name)) == Get(tip, NameKey(name)) {
      assert !ActsOn(tx, name);
    }
  }

  lemma NewId(d: Desk<Cache>, pool: seq<Tx>, chosen: seq<Tx>, tx: Tx)
    requires HashKeyed(d, pool) && tx in pool && (forall x :: x in chosen ==> x in pool) && Rises(chosen, tx)
    ensures !HasId(d, chosen, d.hash(tx))
  {
  }

  lemma IdsAfter(d: Desk<Cache>, chosen: seq<Tx>, seen: set<Digest>, tx: Tx)
    requires forall id :: id in seen ==> HasId(d, chosen, id)
    ensures forall id :: id in seen + {d.hash(tx)} ==> HasId(d, chosen + [tx], id)
  {
    assert tx in chosen + [tx];
    forall id | id in seen + {d.hash(tx)} ensures HasId(d, chosen + [tx], id) {
      if id in seen {
        var x :| x in chosen && d.hash(x) == id;
        assert x in chosen + [tx];
      }
    }
  }

  /** What selection is given: a tip whose ledger keeps its floors, a pool keyed by hash whose
      entries are sound. */
  ghost predicate Given(d: Desk<Cache>, c: Consensus, r: Rules, t: Tip, pool: seq<Tx>, height: Word, baseFee: Word) {
    && height == |t.blocks| && Above(t.state, FloorAt(t.blocks, height))
    && Picks(d, c, r, t, FloorAt(t.blocks, height), height, baseFee)
    && HashKeyed(d, pool) && (forall tx :: tx in pool ==> SelectionSteps.Sound(r, tx))
  }

  lemma NextPicked(d: Desk<Cache>, c: Consensus, r: Rules, t: Tip, pool: seq<Tx>, b: Block, chosen: seq<Tx>, p: Progress, tx: Tx)
    requires Given(d, c, r, t, pool, b.index, b.baseFee) && Standing(d, t, FloorAt(t.blocks, b.index), chosen, p)
    requires (forall x :: x in chosen ==> x in pool) && tx in pool && Eligible(d, map[], chosen, tx)
    requires Coins(p.state) < U64_LIMIT
    ensures NextTx(c, t.blocks, b, p, tx).Ok?
    ensures Standing(d, t, FloorAt(t.blocks, b.index), chosen + [tx], NextTx(c, t.blocks, b, p, tx).value)
  {
    var f, q := FloorAt(t.blocks, b.index), AddAll(d, map[], chosen);
    var reserve := Reserve(t.blocks, b.index, tx.sender);
    var payerReserve := if IsSponsored(tx) then Reserve(t.blocks, b.index, tx.feePayer) else 0;
    ReserveExact(t.blocks, b.index, t.state, tx.sender);
    ReserveExact(t.blocks, b.index, t.state, tx.feePayer);
    assert PickLaw(d, c, r, t, f, b.index, q.cache, p.state, tx, reserve, payerReserve);
    NewId(d, pool, chosen, tx);
    AddMore(d, chosen, tx);
    NamesLeftAfter(d, q, p.state, c.apply(p.state, tx, b.index, reserve, payerReserve).value, t.state, tx);
    IdsAfter(d, chosen, p.seen, tx);
  }

  lemma AddMore(d: Desk<Cache>, chosen: seq<Tx>, tx: Tx)
    ensures AddAll(d, map[], chosen + [tx]) == Add(d, AddAll(d, map[], chosen), tx)
  {
    assert (chosen + [tx])[..|chosen|] == chosen;
  }

  /** The chosen transactions apply one after the other. */
  lemma {:induction false} ChosenApply(d: Desk<Cache>, c: Consensus, r: Rules, t: Tip, pool: seq<Tx>, b: Block, chosen: seq<Tx>, n: nat)
    requires Lawful(c) && Given(d, c, r, t, pool, b.index, b.baseFee) && Coins(t.state) < U64_LIMIT
    requires ChosenGreedily(d, map[], pool, chosen) && n <= |chosen| && |b.txs| == |chosen| + 1 && b.txs[1..] == chosen
    ensures ApplyTxs(c, t.blocks, b, t.state, n + 1).Ok?
    ensures Standing(d, t, FloorAt(t.blocks, b.index), chosen[..n], ApplyTxs(c, t.blocks, b, t.state, n + 1).value)
    decreases n
  {
    if n == 0 {
      TracksStart(t);
    } else {
      ChosenApply(d, c, r, t, pool, b, chosen, n - 1);
      TxsKeep(c, t.blocks, b, t.state, n);
      PickAt(d, map[], pool, chosen, n - 1);
      SnocSlice(chosen, n - 1);
      AllFromPool(d, pool, chosen, n - 1);
      assert b.txs[n] == chosen[n - 1];
      NextPicked(d, c, r, t, pool, b, chosen[..n - 1], ApplyTxs(c, t.blocks, b, t.state, n).value, b.txs[n]);
    }
  }

  lemma AllFromPool(d: Desk<Cache>, pool: seq<Tx>, chosen: seq<Tx>, n: nat)
    requires ChosenGreedily(d, map[], pool, chosen) && n <= |chosen|
    ensures forall x :: x in chosen[..n] ==> x in pool
  {
    forall x | x in chosen[..n] ensures x in pool {
      var k :| 0 <= k < n && chosen[k] == x;
      PickAt(d, map[], pool, chosen, k);
    }
  }

  /** The fees above the base fee, as the miner adds them up without applying anything. */
  function TipsIn(c: Consensus, b: Block, n: nat): (tips: Word)
    requires n <= |b.txs|
  {
    if n <= 1 then 0
    else
      var tx, before := b.txs[n - 1], TipsIn(c, b, n - 1);
      var least := c.baseFee(tx, b.baseFee);
      if tx.fee > least then (before + (tx.fee - least)) % U64_LIMIT else before
  }

  lemma {:induction false} TipsAgree(c: Consensus, blocks: seq<Block>, b: Block, s: State, n: nat)
    requires 1 <= n <= |b.txs| && ApplyTxs(c, blocks, b, s, n).Ok?
    ensures ApplyTxs(c, blocks, b, s, n).value.tips == TipsIn(c, b, n)
    decreases n
  {
    if n > 1 {
      TipsAgree(c, blocks, b, s, n - 1);
      TipStep(c, blocks, b, ApplyTxs(c, blocks, b, s, n - 1).value, b.txs[n - 1]);
    }
  }

  lemma TipStep(c: Consensus, blocks: seq<Block>, b: Block, p: Progress, tx: Tx)
    requires NextTx(c, blocks, b, p, tx).Ok?
    ensures var least := c.baseFee(tx, b.baseFee);
            NextTx(c, blocks, b, p, tx).value.tips == if tx.fee > least then (p.tips + (tx.fee - least)) % U64_LIMIT else p.tips
  {
  }

  /** A block after the tip that carries the chosen transactions and pays what is due. */
  ghost predicate Template(c: Consensus, t: Tip, b: Block, chosen: seq<Tx>) {
    && b.index == |t.blocks| && |b.txs| == |chosen| + 1 && b.txs[1..] == chosen
    && b.txs[0].amount == Due(c.reward(b.index), TipsIn(c, b, |b.txs|))
  }

  lemma TemplateBody(d: Desk<Cache>, c: Consensus, r: Rules, t: Tip, pool: seq<Tx>, b: Block, chosen: seq<Tx>)
    requires Lawful(c) && Given(d, c, r, t, pool, b.index, b.baseFee) && Coins(t.state) + c.reward(b.index) < U64_LIMIT
    requires ChosenGreedily(d, map[], pool, chosen) && Template(c, t, b, chosen)
    ensures ApplyBody(c, t.blocks, b, t.state).Ok?
  {
    ChosenApply(d, c, r, t, pool, b, chosen, |chosen|);
    TipsAgree(c, t.blocks, b, t.state, |b.txs|);
    DuePaid(c, t.blocks, b, t.state);
  }

  /** The reward and the tips always fit the recipient's balance. */
  lemma DuePaid(c: Consensus, blocks: seq<Block>, b: Block, s: State)
    requires Lawful(c) && b.txs != [] && Coins(s) + c.reward(b.index) < U64_LIMIT
    requires ApplyTxs(c, blocks, b, s, |b.txs|).Ok?
    requires b.txs[0].amount == Due(c.reward(b.index), ApplyTxs(c, blocks, b, s, |b.txs|).value.tips)
    ensures ApplyBody(c, blocks, b, s).Ok?
  {
    TxsKeep(c, blocks, b, s, |b.txs|);
    CreditFits(ApplyTxs(c, blocks, b, s, |b.txs|).value.state, Output(b.txs[0].recipient, b.txs[0].amount));
  }

  /** Every list the selection returns, with the matching coinbase, is a block the ledger applies:
      nonces, spendable balances, sponsors, assets, names, base fees, repeated ids, and the
      conservation rule. */
  lemma TemplateApplies(r: Rules, t: Tip, pool: seq<Tx>, b: Block, ops: Tx -> nat, rate: Tx -> real, limit: int, chosen: seq<Tx>)
    requires b.index == |t.blocks| && Above(t.state, FloorAt(t.blocks, |t.blocks|)) && NamesBare(t.state, true)
    requires Coins(t.state) + Supply.BlockReward(b.index) < U64_LIMIT
    requires var d := DeskOf(r, t, b.index, b.baseFee, ops, rate);
             HashKeyed(d, pool) && Selected(d, map[], pool, limit, chosen)
    requires forall tx :: tx in pool ==> SelectionSteps.Sound(r, tx)
    requires Template(ConsensusOf(r), t, b, chosen)
    ensures ApplyBlock(ConsensusOf(r), t.blocks, b, t.state).Ok?
  {
    var d, c := DeskOf(r, t, b.index, b.baseFee, ops, rate), ConsensusOf(r);
    RulesLawful(r);
    DeskPicks(r, t, FloorAt(t.blocks, b.index), b.index, b.baseFee, ops, rate);
    TemplateBody(d, c, r, t, pool, b, chosen);
    RulesImplyConservation(c, t.blocks, b, t.state);
  }

  /** In particular on every valid chain whose rewards went to ordinary addresses. */
  lemma ChainTemplateApplies(x: Extend, cr: Rulebook, r: Rules, blocks: seq<Block>, pool: seq<Tx>, b: Block,
                             ops: Tx -> nat, rate: Tx -> real, limit: int, chosen: seq<Tx>)
    requires Obeys(x, cr) && Chain.Sound(cr) && cr.consensus == ConsensusOf(r)
    requires Replay(x, cr.genesis, blocks).Some? && OrdinaryRewards(blocks) && b.index == |blocks|
    requires var t := Tip(blocks, Replay(x, cr.genesis, blocks).value);
             var d := DeskOf(r, t, b.index, b.baseFee, ops, rate);
             HashKeyed(d, pool) && Selected(d, map[], pool, limit, chosen) && Template(cr.consensus, t, b, chosen)
    requires forall tx :: tx in pool ==> SelectionSteps.Sound(r, tx)
    ensures ApplyBlock(cr.consensus, blocks, b, Replay(x, cr.genesis, blocks).value).Ok?
  {
    ChainKeeps(x, cr, blocks);
    OrdinaryChainBare(x, cr, blocks);
    NoOverflow(x, cr, blocks, []);
    TemplateApplies(r, Tip(blocks, Replay(x, cr.genesis, blocks).value), pool, b, ops, rate, limit, chosen);
  }

  /** The sum of a measure over transactions. */
  function Total(measure: Tx -> nat, txs: seq<Tx>): (n: nat) {
    if txs == [] then 0 else Total(measure, txs[..|txs| - 1]) + measure(txs[|txs| - 1])
  }

  lemma {:induction false} DraftTotals(d: Desk<Cache>, chosen: seq<Tx>)
    ensures AddAll(d, map[], chosen).weight == Total(d.size, chosen) && AddAll(d, map[], chosen).ops == Total(d.ops, chosen)
    decreases |chosen|
  {
    if chosen != [] {
      DraftTotals(d, chosen[..|chosen| - 1]);
    }
  }

  /** The selection also stays within a block's byte and verification budgets. */
  lemma WithinBudgets(d: Desk<Cache>, pool: seq<Tx>, limit: int, chosen: seq<Tx>)
    requires Selected(d, map[], pool, limit, chosen)
    ensures Total(d.size, chosen) <= MAX_BLOCK_BYTES && Total(d.ops, chosen) <= MAX_BLOCK_VERIFY_OPS
    ensures chosen == [] || |chosen| <= limit
  {
    DraftTotals(d, chosen);
    if chosen != [] {
      PickAt(d, map[], pool, chosen, |chosen| - 1);
    }
  }
}
