/** Coin under a name's own key: what an operation on the name does to it, told from the ledger before
    the block, and the block that fails for it. */
module NameCoins {
  import opened Bytes
  import opened Transactions
  import opened Ledger
  import opened LedgerSums
  import opened LedgerLaws
  import opened BlockLedger
  import opened NameRecords
  import Supply

  /** An operation leaves no coin in its own record and reaches no other. */
  ghost predicate RecordStep(c: Consensus, s: State, tx: Tx, height: Word, reserve: Word, payerReserve: Word, name: Bytes) {
    c.admits(tx, height) && c.apply(s, tx, height, reserve, payerReserve).Ok? ==>
      CoinAt(c.apply(s, tx, height, reserve, payerReserve).value, name) == if ActsOn(tx, name) then 0 else CoinAt(s, name)
  }

  ghost function CoinAt(s: State, name: Bytes): (n: nat) {
    Get(s, NameKey(name)).balance
  }

  ghost predicate RecordLaw(c: Consensus) {
    forall s, tx, height, reserve, payerReserve, name {:trigger RecordStep(c, s, tx, height, reserve, payerReserve, name)} ::
      RecordStep(c, s, tx, height, reserve, payerReserve, name)
  }

  lemma TxClears(r: Rules, s: State, tx: Tx, height: Word, reserve: Word, payerReserve: Word, name: Bytes)
    requires Sane(r, tx) && ApplyTx(r, s, tx, height, reserve, payerReserve).Ok?
    ensures CoinAt(ApplyTx(r, s, tx, height, reserve, payerReserve).value, name) == if ActsOn(tx, name) then 0 else CoinAt(s, name)
  {
    if ActsOn(tx, name) {
      ActingRecord(r, s, tx, height, reserve, payerReserve);
    } else {
      TxKeepsNames(r, s, tx, height, reserve, payerReserve);
    }
  }

  lemma RulesClear(r: Rules)
    ensures RecordLaw(ConsensusOf(r))
  {
    var c := ConsensusOf(r);
    forall s, tx, height, reserve, payerReserve, name ensures RecordStep(c, s, tx, height, reserve, payerReserve, name) {
      if c.admits(tx, height) && c.apply(s, tx, height, reserve, payerReserve).Ok? {
        TxClears(r, s, tx, height, reserve, payerReserve, name);
      }
    }
  }

  ghost predicate ActedOn(b: Block, n: nat, name: Bytes)
    requires n <= |b.txs|
  {
    exists i :: 1 <= i < n && ActsOn(b.txs[i], name)
  }

  lemma {:induction false} CoinAfter(c: Consensus, blocks: seq<Block>, b: Block, s: State, n: nat, name: Bytes)
    requires RecordLaw(c) && 1 <= n <= |b.txs| && ApplyTxs(c, blocks, b, s, n).Ok?
    ensures CoinAt(ApplyTxs(c, blocks, b, s, n).value.state, name) == if ActedOn(b, n, name) then 0 else CoinAt(s, name)
    decreases n
  {
    if n > 1 {
      CoinAfter(c, blocks, b, s, n - 1, name);
      NextClears(c, blocks, b, ApplyTxs(c, blocks, b, s, n - 1).value, b.txs[n - 1], name);
      ActedStep(b, n, name);
    }
  }

  lemma ActedStep(b: Block, n: nat, name: Bytes)
    requires 1 < n <= |b.txs|
    ensures ActedOn(b, n, name) <==> ActedOn(b, n - 1, name) || ActsOn(b.txs[n - 1], name)
  {
  }

  lemma NextClears(c: Consensus, blocks: seq<Block>, b: Block, p: Progress, tx: Tx, name: Bytes)
    requires RecordLaw(c) && NextTx(c, blocks, b, p, tx).Ok?
    ensures CoinAt(NextTx(c, blocks, b, p, tx).value.state, name) == if ActsOn(tx, name) then 0 else CoinAt(p.state, name)
  {
    var reserve := Reserve(blocks, b.index, tx.sender);
    var payerReserve := if IsSponsored(tx) then Reserve(blocks, b.index, tx.feePayer) else 0;
    assert RecordStep(c, p.state, tx, b.index, reserve, payerReserve, name);
  }

  /** Every name the block acts on holds no coin to begin with. */
  ghost predicate NamesHoldNoCoin(s: State, b: Block, n: nat)
    requires n <= |b.txs|
  {
    forall i :: 1 <= i < n && b.txs[i].name.Some? ==> CoinAt(s, b.txs[i].name.value.name) == 0
  }

  /** What the block overwrites can be told before the block: nothing, exactly when the names it acts on
      hold no coin. */
  lemma {:induction false} OverwritesNothing(c: Consensus, blocks: seq<Block>, b: Block, s: State, n: nat)
    requires RecordLaw(c) && 1 <= n <= |b.txs| && ApplyTxs(c, blocks, b, s, n).Ok?
    ensures OverwrittenBy(c, blocks, b, s, n) == 0 <==> NamesHoldNoCoin(s, b, n)
    decreases n
  {
    if n > 1 {
      OverwritesNothing(c, blocks, b, s, n - 1);
      var tx := b.txs[n - 1];
      NoCoinStep(s, b, n);
      if tx.name.Some? {
        CoinAfter(c, blocks, b, s, n - 1, tx.name.value.name);
        ActedHeldNone(s, b, n - 1, tx.name.value.name);
      }
    }
  }

  lemma NoCoinStep(s: State, b: Block, n: nat)
    requires 1 < n <= |b.txs|
    ensures NamesHoldNoCoin(s, b, n) <==>
      NamesHoldNoCoin(s, b, n - 1) && (b.txs[n - 1].name.Some? ==> CoinAt(s, b.txs[n - 1].name.value.name) == 0)
  {
  }

  lemma ActedHeldNone(s: State, b: Block, n: nat, name: Bytes)
    requires n <= |b.txs|
    ensures NamesHoldNoCoin(s, b, n) && ActedOn(b, n, name) ==> CoinAt(s, name) == 0
  {
  }

  /** A block whose transactions and coinbase pass passes the coin rule if and only if the names it acts
      on held no coin before it. */
  lemma CoinRuleBefore(c: Consensus, blocks: seq<Block>, b: Block, s: State)
    requires Lawful(c) && RecordLaw(c)
    requires b.txs != [] && ApplyBody(c, blocks, b, s).Ok? && Coins(s) + c.reward(b.index) < U64_LIMIT
    ensures CoinConserved(s, ApplyBody(c, blocks, b, s).value.state, c.reward(b.index), ApplyBody(c, blocks, b, s).value.burned)
       <==> NamesHoldNoCoin(s, b, |b.txs|)
  {
    CoinRuleExact(c, blocks, b, s);
    OverwritesNothing(c, blocks, b, s, |b.txs|);
  }

  /** The whole verdict on such a block, for the code's own rules. */
  lemma BlockVerdict(r: Rules, blocks: seq<Block>, b: Block, s: State)
    requires b.txs != [] && NamesBare(s, false) && ApplyBody(ConsensusOf(r), blocks, b, s).Ok?
    requires Coins(s) + Supply.BlockReward(b.index) < U64_LIMIT
    ensures ApplyBlock(ConsensusOf(r), blocks, b, s).Ok? <==> NamesHoldNoCoin(s, b, |b.txs|)
  {
    RulesLawful(r);
    RulesClear(r);
    CoinRuleBefore(ConsensusOf(r), blocks, b, s);
    AssetRuleHolds(ConsensusOf(r), blocks, b, s);
  }
}
