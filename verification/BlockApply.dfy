/** Applying a block's transactions and coinbase to the ledger in place. */
module BlockApply {
  import opened Bytes
  import opened Transactions
  import opened Ledger
  import opened LedgerSums
  import opened BlockLedger
  import opened LedgerStore
  import opened LedgerApply
  import opened Conservation
  import AssetLaws
  import Supply

  /** The consensus functions are the ledger's rules. */
  ghost predicate Implements(c: Consensus, r: Rules) {
    && (forall s, tx, height, x, y {:trigger ApplyTx(r, s, tx, height, x, y)} ::
          c.apply(s, tx, height, x, y) == ApplyTx(r, s, tx, height, x, y))
    && (forall tx, height {:trigger r.ready(tx, height)} :: c.admits(tx, height) <==> Sane(r, tx) && r.ready(tx, height))
    && MintsAs(c, r)
    && (forall tx, fee {:trigger BaseFeeFor(r, tx, fee)} :: c.baseFee(tx, fee) == BaseFeeFor(r, tx, fee))
    && (forall tx :: c.txid(tx) == r.txid(tx))
    && (forall height: Word {:trigger Supply.BlockReward(height)} :: c.reward(height) == Supply.BlockReward(height))
  }

  lemma ImplementsOwn(r: Rules)
    ensures Implements(ConsensusOf(r), r)
  {
  }

  method Admit(r: Rules, tx: Tx, height: Word, ghost c: Consensus) returns (ok: bool)
    requires Implements(c, r)
    ensures ok <==> c.admits(tx, height)
  {
    ok := r.ready(tx, height) && Sane(r, tx);
  }

  method StepTx(r: Rules, st: Accounts, tx: Tx, height: Word, reserve: Word, payerReserve: Word, ghost c: Consensus)
    returns (ok: bool)
    requires st.Valid() && Implements(c, r)
    modifies st`state, st`undo
    ensures st.Valid() && Outcome(ok, c.apply(old(st.state), tx, height, reserve, payerReserve), st.state)
    ensures LogsOnly(old(st.undo), st.undo, TouchedBy(tx))
  {
    ok := ApplyTxTo(r, st, tx, height, reserve, payerReserve);
  }

  method Constants(r: Rules, tx: Tx, baseFee: Word, ghost c: Consensus) returns (minFee: Word, id: Digest)
    requires Implements(c, r)
    ensures minFee == c.baseFee(tx, baseFee) && id == c.txid(tx)
  {
    minFee, id := BaseFeeFor(r, tx, baseFee), r.txid(tx);
  }

  method RewardAt(r: Rules, height: Word, ghost c: Consensus) returns (reward: Word)
    requires Implements(c, r)
    ensures reward == c.reward(height)
  {
    reward := Supply.BlockReward(height);
  }

  lemma {:induction false} TxsFail(c: Consensus, blocks: seq<Block>, b: Block, s: State, n: nat, m: nat)
    requires 1 <= n <= m <= |b.txs| && ApplyTxs(c, blocks, b, s, n).Err?
    ensures ApplyTxs(c, blocks, b, s, m).Err?
    decreases m
  {
    if n < m {
      TxsFail(c, blocks, b, s, n, m - 1);
    }
  }

  /** Everyone the first `n` transactions of a block can write to. */
  function TouchedIn(b: Block, n: nat): (who: set<Address>)
    requires n <= |b.txs|
  {
    if n == 0 then {} else TouchedIn(b, n - 1) + TouchedBy(b.txs[n - 1])
  }

  lemma {:induction false} TouchedMore(b: Block, n: nat, m: nat)
    requires n <= m <= |b.txs|
    ensures TouchedIn(b, n) <= TouchedIn(b, m)
    decreases m
  {
    if n < m {
      TouchedMore(b, n, m - 1);
    }
  }

  lemma CoinbaseTouched(b: Block)
    requires b.txs != []
    ensures b.txs[0].recipient in TouchedIn(b, |b.txs|)
  {
    TouchedMore(b, 1, |b.txs|);
    assert TouchedIn(b, 1) == TouchedIn(b, 0) + TouchedBy(b.txs[0]);
  }

  /** One transaction's turn. */
  method TakeTurn(r: Rules, blocks: seq<Block>, b: Block, st: Accounts, tx: Tx, p: Progress, ghost c: Consensus)
    returns (q: Option<Progress>)
    requires st.Valid() && Implements(c, r) && p.state == st.state
    modifies st`state, st`undo
    ensures st.Valid()
    ensures q.Some? ==> NextTx(c, blocks, b, p, tx) == Ok(q.value) && q.value.state == st.state
    ensures q.None? ==> NextTx(c, blocks, b, p, tx).Err?
    ensures LogsOnly(old(st.undo), st.undo, TouchedBy(tx))
  {
    var admitted := Admit(r, tx, b.index, c);
    if !admitted {
      return None;
    }
    var minFee, id := Constants(r, tx, b.baseFee, c);
    if tx.fee < minFee || id in p.seen {
      return None;
    }
    var reserve := ImmatureCoinbase(blocks, b.index, tx.sender);
    var payerReserve: Word := 0;
    if IsSponsored(tx) {
      payerReserve := ImmatureCoinbase(blocks, b.index, tx.feePayer);
    }
    var ok := StepTx(r, st, tx, b.index, reserve, payerReserve, c);
    if !ok {
      return None;
    }
    return Some(Progress(st.state, (p.tips + (tx.fee - minFee)) % U64_LIMIT, (p.burned + minFee) % U64_LIMIT, p.seen + {id}));
  }

  /** Applies a block's transactions and coinbase: either every rule holds and the ledger is what
      the block makes of it, or the ledger is exactly what it was. */
  method ApplyTxsAndCoinbase(r: Rules, blocks: seq<Block>, b: Block, st: Accounts, ghost c: Consensus)
    returns (ok: bool, burned: Word)
    requires st.Valid() && st.undo == [] && b.txs != [] && Implements(c, r)
    modifies st
    ensures st.Valid() && st.base == old(st.state)
    ensures ok <==> ApplyBlock(c, blocks, b, old(st.state)).Ok?
    ensures ok ==> ApplyBlock(c, blocks, b, old(st.state)).value.state == st.state
    ensures ok ==> ApplyBlock(c, blocks, b, old(st.state)).value.burned == burned
    ensures !ok ==> st.state == old(st.state)
    ensures Named(st.undo) <= TouchedIn(b, |b.txs|)
  {
    burned := 0;
    var p, run := RunBody(r, blocks, b, st, c);
    if run {
      var reward := RewardAt(r, b.index, c);
      ok := CheckConservation(r, st, b.txs, reward, p.burned, c);
    } else {
      ok := false;
    }
    if ok {
      burned := p.burned;
    } else {
      st.Revert();
    }
  }

  /** The coinbase is paid the subsidy and the tips, no more and no less. */
  method RunBody(r: Rules, blocks: seq<Block>, b: Block, st: Accounts, ghost c: Consensus) returns (p: Progress, ok: bool)
    requires st.Valid() && b.txs != [] && Implements(c, r)
    modifies st`state, st`undo
    ensures st.Valid()
    ensures ok ==> ApplyBody(c, blocks, b, old(st.state)) == Ok(p) && p.state == st.state
    ensures !ok ==> ApplyBody(c, blocks, b, old(st.state)).Err?
    ensures LogsOnly(old(st.undo), st.undo, TouchedIn(b, |b.txs|))
  {
    p, ok := RunTxs(r, blocks, b, st, c);
    if ok {
      var reward := RewardAt(r, b.index, c);
      ok := PayMiner(b, st, reward, p.tips);
      BodyEnds(c, blocks, b, old(st.state), p, ok, st.state);
      p := p.(state := st.state);
    }
  }

  /** Pays the coinbase, if it claims what is due and there is room for it. */
  method PayMiner(b: Block, st: Accounts, reward: Word, tips: Word) returns (ok: bool)
    requires st.Valid() && b.txs != []
    modifies st`state, st`undo
    ensures st.Valid() && LogsOnly(old(st.undo), st.undo, TouchedIn(b, |b.txs|))
    ensures Outcome(ok, MinerPaid(old(st.state), b, reward, tips), st.state)
  {
    CoinbaseTouched(b);
    var cb := b.txs[0];
    var acc := Get(st.state, cb.recipient);
    var sum := WordSum(acc.balance, cb.amount);
    if cb.amount != Due(reward, tips) || sum.None? {
      return false;
    }
    st.Write(cb.recipient, acc.(balance := sum.value));
    return true;
  }

  function MinerPaid(s: State, b: Block, reward: Word, tips: Word): (r: Result<State>)
    requires b.txs != []
  {
    if b.txs[0].amount != Due(reward, tips) then Err else Credit(s, Output(b.txs[0].recipient, b.txs[0].amount))
  }

  lemma BodyEnds(c: Consensus, blocks: seq<Block>, b: Block, s: State, p: Progress, ok: bool, t: State)
    requires b.txs != [] && ApplyTxs(c, blocks, b, s, |b.txs|) == Ok(p)
    requires Outcome(ok, MinerPaid(p.state, b, c.reward(b.index), p.tips), t)
    ensures if ok then ApplyBody(c, blocks, b, s) == Ok(p.(state := t)) else ApplyBody(c, blocks, b, s).Err?
  {
  }

  method RunTxs(r: Rules, blocks: seq<Block>, b: Block, st: Accounts, ghost c: Consensus) returns (p: Progress, ok: bool)
    requires st.Valid() && b.txs != [] && Implements(c, r)
    modifies st`state, st`undo
    ensures st.Valid()
    ensures ok ==> ApplyTxs(c, blocks, b, old(st.state), |b.txs|) == Ok(p) && p.state == st.state
    ensures !ok ==> ApplyTxs(c, blocks, b, old(st.state), |b.txs|).Err?
    ensures LogsOnly(old(st.undo), st.undo, TouchedIn(b, |b.txs|))
  {
    p, ok := Progress(st.state, 0, 0, {}), true;
    for i := 1 to |b.txs|
      invariant st.Valid() && p.state == st.state && ApplyTxs(c, blocks, b, old(st.state), i) == Ok(p)
      invariant LogsOnly(old(st.undo), st.undo, TouchedIn(b, i))
    {
      TouchedMore(b, i + 1, |b.txs|);
      var q := TakeTurn(r, blocks, b, st, b.txs[i], p, c);
      if q.None? {
        TxsFail(c, blocks, b, old(st.state), i + 1, |b.txs|);
        return p, false;
      }
      p := q.value;
    }
  }
}
