/** Where a block's fees go: the base fee of every byte is burned, the rest is the miner's. */
module BlockFees {
  import opened Bytes
  import opened Transactions
  import opened Ledger
  import opened BlockLedger

  /** The fees and the bytes of a block's transactions before position `n`, the coinbase left out. */
  function FeesIn(b: Block, n: nat): (k: nat)
    requires n <= |b.txs|
  {
    if n <= 1 then 0 else FeesIn(b, n - 1) + b.txs[n - 1].fee
  }

  function BytesIn(r: Rules, b: Block, n: nat): (k: nat)
    requires n <= |b.txs|
  {
    if n <= 1 then 0 else BytesIn(r, b, n - 1) + r.size(b.txs[n - 1])
  }

  lemma WordSums(x: int, y: int)
    ensures (x % U64_LIMIT + y) % U64_LIMIT == (x + y) % U64_LIMIT
  {
  }

  lemma WordTakes(x: int, y: int)
    ensures (x - y % U64_LIMIT) % U64_LIMIT == (x - y) % U64_LIMIT
  {
  }

  lemma BurnsMore(rate: nat, bytes: nat, size: nat)
    ensures ((rate * bytes) % U64_LIMIT + (rate * size) % U64_LIMIT) % U64_LIMIT == (rate * (bytes + size)) % U64_LIMIT
  {
    var x, y := rate * bytes, rate * size;
    assert rate * (bytes + size) == x + y;
    WordSums(x, y % U64_LIMIT);
    WordSums(y, x);
  }

  lemma TipsMore(rate: nat, bytes: nat, size: nat, fees: nat, fee: nat)
    ensures ((fees - rate * bytes) % U64_LIMIT + (fee - (rate * size) % U64_LIMIT)) % U64_LIMIT
         == (fees + fee - rate * (bytes + size)) % U64_LIMIT
  {
    var x, y := rate * bytes, rate * size;
    assert rate * (bytes + size) == x + y;
    WordSums(fees - x, fee - y % U64_LIMIT);
    WordTakes(fees - x + fee, y);
  }

  /** These rules price a transaction by its bytes. */
  ghost predicate ByBytes(c: Consensus, r: Rules) {
    forall tx, rate: Word {:trigger c.baseFee(tx, rate)} :: c.baseFee(tx, rate) == (rate * r.size(tx)) % U64_LIMIT
  }

  lemma RulesByBytes(r: Rules)
    ensures ByBytes(ConsensusOf(r), r)
  {
  }

  lemma NextFees(c: Consensus, blocks: seq<Block>, b: Block, p: Progress, tx: Tx)
    requires NextTx(c, blocks, b, p, tx).Ok?
    ensures var q, least := NextTx(c, blocks, b, p, tx).value, c.baseFee(tx, b.baseFee);
            && least <= tx.fee && q.burned == (p.burned + least) % U64_LIMIT && q.tips == (p.tips + (tx.fee - least)) % U64_LIMIT
            && c.txid(tx) !in p.seen && q.seen == p.seen + {c.txid(tx)}
  {
  }

  /** In 64 bits: what is burned is the base fee times the bytes, the tips are the fees less that. */
  ghost predicate Splits(p: Progress, rate: nat, bytes: nat, fees: nat) {
    p.burned == (rate * bytes) % U64_LIMIT && p.tips == (fees - rate * bytes) % U64_LIMIT
  }

  lemma SplitsMore(p: Progress, q: Progress, rate: nat, bytes: nat, size: nat, fees: nat, fee: Word)
    requires Splits(p, rate, bytes, fees) && (rate * size) % U64_LIMIT <= fee
    requires q.burned == (p.burned + (rate * size) % U64_LIMIT) % U64_LIMIT
    requires q.tips == (p.tips + (fee - (rate * size) % U64_LIMIT)) % U64_LIMIT
    ensures Splits(q, rate, bytes + size, fees + fee)
  {
    BurnsMore(rate, bytes, size);
    TipsMore(rate, bytes, size, fees, fee);
  }

  lemma {:induction false} FeesSplit(c: Consensus, r: Rules, blocks: seq<Block>, b: Block, s: State, n: nat)
    requires ByBytes(c, r) && 1 <= n <= |b.txs| && ApplyTxs(c, blocks, b, s, n).Ok?
    ensures Splits(ApplyTxs(c, blocks, b, s, n).value, b.baseFee, BytesIn(r, b, n), FeesIn(b, n))
    decreases n
  {
    if n > 1 {
      FeesSplit(c, r, blocks, b, s, n - 1);
      var p, q, tx := ApplyTxs(c, blocks, b, s, n - 1).value, ApplyTxs(c, blocks, b, s, n).value, b.txs[n - 1];
      NextFees(c, blocks, b, p, tx);
      SplitsMore(p, q, b.baseFee, BytesIn(r, b, n - 1), r.size(tx), FeesIn(b, n - 1), tx.fee);
    }
  }

  lemma DueIs(reward: Word, fees: nat, burned: nat)
    ensures Due(reward, (fees - burned) % U64_LIMIT) == (reward + fees - burned) % U64_LIMIT
  {
    WordSums(fees - burned, reward);
  }

  /** An applied block's coinbase pays the reward, and the fees less the base fee of every byte. */
  lemma CoinbasePays(c: Consensus, r: Rules, blocks: seq<Block>, b: Block, s: State)
    requires ByBytes(c, r) && b.txs != [] && ApplyBlock(c, blocks, b, s).Ok?
    ensures var n := |b.txs|;
            b.txs[0].amount == (c.reward(b.index) + FeesIn(b, n) - b.baseFee * BytesIn(r, b, n)) % U64_LIMIT
  {
    FeesSplit(c, r, blocks, b, s, |b.txs|);
    DueIs(c.reward(b.index), FeesIn(b, |b.txs|), b.baseFee * BytesIn(r, b, |b.txs|));
  }

  /** No id is in an applied block twice. */
  lemma {:induction false} IdsApart(c: Consensus, blocks: seq<Block>, b: Block, s: State, n: nat)
    requires 1 <= n <= |b.txs| && ApplyTxs(c, blocks, b, s, n).Ok?
    ensures forall i :: 1 <= i < n ==> c.txid(b.txs[i]) in ApplyTxs(c, blocks, b, s, n).value.seen
    ensures forall i, j :: 1 <= i < j < n ==> c.txid(b.txs[i]) != c.txid(b.txs[j])
    decreases n
  {
    if n > 1 {
      IdsApart(c, blocks, b, s, n - 1);
      NextFees(c, blocks, b, ApplyTxs(c, blocks, b, s, n - 1).value, b.txs[n - 1]);
    }
  }
}
