/** Nonces over whole chains: an account's nonce counts the transactions it sent, so none is applied
    twice. */
module Nonces {
  import opened Bytes
  import opened Transactions
  import opened Ledger
  import opened LedgerLaws
  import opened BlockLedger
  import opened Chain
  import LedgerEffects

  /** A transaction is taken at its sender's nonce alone, and moves that nonce on and no other. */
  ghost predicate NonceStep(c: Consensus, s: State, tx: Tx, height: Word, reserve: Word, payerReserve: Word, a: Address) {
    c.admits(tx, height) && c.apply(s, tx, height, reserve, payerReserve).Ok? ==>
      && tx.nonce == Get(s, tx.sender).nonce && !IsNameKey(tx.sender)
      && (!IsNameKey(a) ==>
            Get(c.apply(s, tx, height, reserve, payerReserve).value, a).nonce
              == if a == tx.sender then (Get(s, a).nonce + 1) % U64_LIMIT else Get(s, a).nonce)
  }

  ghost predicate NonceLaw(c: Consensus) {
    forall s, tx, height, reserve, payerReserve, a {:trigger NonceStep(c, s, tx, height, reserve, payerReserve, a)} ::
      NonceStep(c, s, tx, height, reserve, payerReserve, a)
  }

  /** The ledger's rules are such. */
  lemma RulesCount(r: Rules)
    ensures NonceLaw(ConsensusOf(r))
  {
    var c := ConsensusOf(r);
    forall s, tx, height, reserve, payerReserve, a ensures NonceStep(c, s, tx, height, reserve, payerReserve, a) {
      if c.admits(tx, height) && c.apply(s, tx, height, reserve, payerReserve).Ok? {
        LedgerEffects.TxTaken(r, s, tx, height, reserve, payerReserve);
        if !IsNameKey(a) {
          LedgerEffects.TxMoves(r, s, tx, height, reserve, payerReserve, a);
        }
      }
    }
  }

  /** How many of a block's transactions before position `n` an address sent, the coinbase left out. */
  function SentIn(b: Block, n: nat, a: Address): (k: nat)
    requires n <= |b.txs|
  {
    if n <= 1 then 0 else SentIn(b, n - 1, a) + if b.txs[n - 1].sender == a then 1 else 0
  }

  function SentOn(blocks: seq<Block>, a: Address): (k: nat) {
    if blocks == [] then 0
    else
      var b := blocks[|blocks| - 1];
      SentOn(blocks[..|blocks| - 1], a) + SentIn(b, |b.txs|, a)
  }

  lemma CountAdds(n: Word, k: nat, d: nat)
    ensures ((n + k) % U64_LIMIT + d) % U64_LIMIT == (n + (k + d)) % U64_LIMIT
  {
  }

  lemma NextCounts(c: Consensus, blocks: seq<Block>, b: Block, p: Progress, tx: Tx, a: Address)
    requires NonceLaw(c) && NextTx(c, blocks, b, p, tx).Ok? && !IsNameKey(a)
    ensures tx.nonce == Get(p.state, tx.sender).nonce && !IsNameKey(tx.sender)
    ensures Get(NextTx(c, blocks, b, p, tx).value.state, a).nonce
         == if a == tx.sender then (Get(p.state, a).nonce + 1) % U64_LIMIT else Get(p.state, a).nonce
  {
    var payerReserve := if IsSponsored(tx) then Reserve(blocks, b.index, tx.feePayer) else 0;
    assert NonceStep(c, p.state, tx, b.index, Reserve(blocks, b.index, tx.sender), payerReserve, a);
  }

  lemma {:induction false} TxsCount(c: Consensus, blocks: seq<Block>, b: Block, s: State, n: nat, a: Address)
    requires NonceLaw(c) && 1 <= n <= |b.txs| && ApplyTxs(c, blocks, b, s, n).Ok? && !IsNameKey(a)
    ensures Get(ApplyTxs(c, blocks, b, s, n).value.state, a).nonce == (Get(s, a).nonce + SentIn(b, n, a)) % U64_LIMIT
    decreases n
  {
    if n > 1 {
      var p, k := ApplyTxs(c, blocks, b, s, n - 1).value, SentIn(b, n - 1, a);
      TxsCount(c, blocks, b, s, n - 1, a);
      NextCounts(c, blocks, b, p, b.txs[n - 1], a);
      CountAdds(Get(s, a).nonce, k, if b.txs[n - 1].sender == a then 1 else 0);
    }
  }

  lemma {:induction false} TxsPrefix(c: Consensus, blocks: seq<Block>, b: Block, s: State, m: nat, n: nat)
    requires 1 <= m <= n <= |b.txs| && ApplyTxs(c, blocks, b, s, n).Ok?
    ensures ApplyTxs(c, blocks, b, s, m).Ok?
    decreases n
  {
    if m < n {
      TxsPrefix(c, blocks, b, s, m, n - 1);
    }
  }

  /** The nonce of each transaction of an applied block. */
  lemma TxAtCount(c: Consensus, blocks: seq<Block>, b: Block, s: State, j: nat, tx: Tx, a: Address)
    requires NonceLaw(c) && 1 <= j < |b.txs| && ApplyTxs(c, blocks, b, s, |b.txs|).Ok? && tx == b.txs[j] && a == tx.sender
    ensures !IsNameKey(a) && tx.nonce == (Get(s, a).nonce + SentIn(b, j, a)) % U64_LIMIT
  {
    TurnAt(c, blocks, b, s, j);
    var p := ApplyTxs(c, blocks, b, s, j).value;
    SenderAt(c, blocks, b, p, tx);
    TxsCount(c, blocks, b, s, j, a);
  }

  /** Each transaction had its turn. */
  lemma TurnAt(c: Consensus, blocks: seq<Block>, b: Block, s: State, j: nat)
    requires 1 <= j < |b.txs| && ApplyTxs(c, blocks, b, s, |b.txs|).Ok?
    ensures ApplyTxs(c, blocks, b, s, j).Ok? && NextTx(c, blocks, b, ApplyTxs(c, blocks, b, s, j).value, b.txs[j]).Ok?
  {
    TxsPrefix(c, blocks, b, s, j + 1, |b.txs|);
  }

  lemma SenderAt(c: Consensus, blocks: seq<Block>, b: Block, p: Progress, tx: Tx)
    requires NonceLaw(c) && NextTx(c, blocks, b, p, tx).Ok?
    ensures tx.nonce == Get(p.state, tx.sender).nonce && !IsNameKey(tx.sender)
  {
    NextCounts(c, blocks, b, p, tx, []);
  }

  lemma BlockCounts(c: Consensus, blocks: seq<Block>, b: Block, s: State, a: Address)
    requires NonceLaw(c) && b.txs != [] && ApplyBlock(c, blocks, b, s).Ok? && !IsNameKey(a)
    ensures Get(ApplyBlock(c, blocks, b, s).value.state, a).nonce == (Get(s, a).nonce + SentIn(b, |b.txs|, a)) % U64_LIMIT
  {
    TxsCount(c, blocks, b, s, |b.txs|, a);
    var t, cb := ApplyTxs(c, blocks, b, s, |b.txs|).value.state, b.txs[0];
    var acc := Get(t, cb.recipient);
    GetSet(t, cb.recipient, acc.(balance := acc.balance + cb.amount), a);
  }

  lemma StepCounts(x: Extend, cr: Rulebook, blocks: seq<Block>, s: State, b: Block, a: Address)
    requires Obeys(x, cr) && NonceLaw(cr.consensus) && blocks != [] && x(blocks, s, b).Some? && !IsNameKey(a)
    ensures Get(x(blocks, s, b).value, a).nonce == (Get(s, a).nonce + SentIn(b, |b.txs|, a)) % U64_LIMIT
  {
    TakenBlock(x, cr, blocks, s, b);
    BlockCounts(cr.consensus, blocks, b, s, a);
  }

  /** On every valid chain an account's nonce is the number of transactions it sent. */
  lemma {:induction false} NonceCounts(x: Extend, cr: Rulebook, blocks: seq<Block>, a: Address)
    requires Obeys(x, cr) && NonceLaw(cr.consensus) && cr.genesis.txs == [] && Replay(x, cr.genesis, blocks).Some? && !IsNameKey(a)
    ensures Get(Replay(x, cr.genesis, blocks).value, a).nonce == SentOn(blocks, a) % U64_LIMIT
    decreases |blocks|
  {
    var n := |blocks| - 1;
    if n == 0 {
      assert blocks[..0] == [];
    } else {
      NonceCounts(x, cr, blocks[..n], a);
      StepCounts(x, cr, blocks[..n], Replay(x, cr.genesis, blocks[..n]).value, blocks[n], a);
      CountAdds(0, SentOn(blocks[..n], a), SentIn(blocks[n], |blocks[n].txs|, a));
    }
  }

  /** How many transactions of its sender come before the one at position `j` of block `i`. */
  function Earlier(blocks: seq<Block>, i: nat, j: nat): (k: nat)
    requires i < |blocks| && j < |blocks[i].txs|
  {
    SentOn(blocks[..i], blocks[i].txs[j].sender) + SentIn(blocks[i], j, blocks[i].txs[j].sender)
  }

  /** And every transaction carries that number of its sender's. */
  lemma NonceIsPlace(x: Extend, cr: Rulebook, blocks: seq<Block>, i: nat, j: nat)
    requires Obeys(x, cr) && NonceLaw(cr.consensus) && cr.genesis.txs == [] && Replay(x, cr.genesis, blocks).Some?
    requires 1 <= i < |blocks| && 1 <= j < |blocks[i].txs|
    ensures blocks[i].txs[j].nonce == Earlier(blocks, i, j) % U64_LIMIT && !IsNameKey(blocks[i].txs[j].sender)
  {
    var base, b, tx := blocks[..i], blocks[i], blocks[i].txs[j];
    BaseOf(x, cr, blocks, i);
    PlaceIn(x, cr, base, Replay(x, cr.genesis, base).value, b, j, tx, tx.sender);
    NonceCounts(x, cr, base, tx.sender);
    CountAdds(0, SentOn(base, tx.sender), SentIn(b, j, tx.sender));
  }

  /** Each block was taken on top of those before it. */
  lemma BaseOf(x: Extend, cr: Rulebook, blocks: seq<Block>, i: nat)
    requires Replay(x, cr.genesis, blocks).Some? && 1 <= i < |blocks|
    ensures Replay(x, cr.genesis, blocks[..i]).Some? && x(blocks[..i], Replay(x, cr.genesis, blocks[..i]).value, blocks[i]).Some?
  {
    ReplayPrefix(x, cr.genesis, blocks, i + 1);
    assert blocks[..i + 1][..i] == blocks[..i] && blocks[..i + 1][i] == blocks[i];
  }

  lemma PlaceIn(x: Extend, cr: Rulebook, base: seq<Block>, s: State, b: Block, j: nat, tx: Tx, a: Address)
    requires Obeys(x, cr) && NonceLaw(cr.consensus) && base != [] && x(base, s, b).Some?
    requires 1 <= j < |b.txs| && tx == b.txs[j] && a == tx.sender
    ensures !IsNameKey(a) && tx.nonce == (Get(s, a).nonce + SentIn(b, j, a)) % U64_LIMIT
  {
    TakenBlock(x, cr, base, s, b);
    TxAtCount(cr.consensus, base, b, s, j, tx, a);
  }

  lemma {:induction false} SentInGrows(b: Block, m: nat, n: nat, a: Address)
    requires m <= n <= |b.txs|
    ensures SentIn(b, m, a) <= SentIn(b, n, a)
    ensures 1 <= m < n && b.txs[m].sender == a ==> SentIn(b, m, a) < SentIn(b, n, a)
    decreases n
  {
    if m < n {
      SentInGrows(b, m, n - 1, a);
    }
  }

  lemma {:induction false} SentOnGrows(blocks: seq<Block>, m: nat, n: nat, a: Address)
    requires m <= n <= |blocks|
    ensures SentOn(blocks[..m], a) <= SentOn(blocks[..n], a)
    decreases n
  {
    if m < n {
      SentOnGrows(blocks, m, n - 1, a);
      assert blocks[..n][..n - 1] == blocks[..n - 1];
    }
  }

  /** Between two transactions of one sender the count has moved on. */
  lemma EarlierGrows(blocks: seq<Block>, i: nat, j: nat, k: nat, l: nat)
    requires i < |blocks| && k < |blocks| && 1 <= j < |blocks[i].txs| && 1 <= l < |blocks[k].txs|
    requires blocks[i].txs[j].sender == blocks[k].txs[l].sender && (i < k || (i == k && j < l))
    ensures Earlier(blocks, i, j) < Earlier(blocks, k, l)
  {
    var a := blocks[i].txs[j].sender;
    if i == k {
      SentInGrows(blocks[i], j, l, a);
    } else {
      SentInGrows(blocks[i], j, |blocks[i].txs|, a);
      assert blocks[..i + 1][..i] == blocks[..i];
      SentOnGrows(blocks, i + 1, k, a);
    }
  }

  lemma EarlierBelow(blocks: seq<Block>, i: nat, j: nat)
    requires i < |blocks| && 1 <= j < |blocks[i].txs|
    ensures Earlier(blocks, i, j) < SentOn(blocks, blocks[i].txs[j].sender)
  {
    var a := blocks[i].txs[j].sender;
    SentInGrows(blocks[i], j, |blocks[i].txs|, a);
    assert blocks[..i + 1][..i] == blocks[..i];
    SentOnGrows(blocks, i + 1, |blocks|, a);
    assert blocks[..|blocks|] == blocks;
  }

  /** So no sender's nonce is used twice, on any valid chain, until it has sent 2^64 transactions. */
  lemma NoReplay(x: Extend, cr: Rulebook, blocks: seq<Block>, i: nat, j: nat, k: nat, l: nat)
    requires Obeys(x, cr) && NonceLaw(cr.consensus) && cr.genesis.txs == [] && Replay(x, cr.genesis, blocks).Some?
    requires 1 <= i < |blocks| && 1 <= j < |blocks[i].txs| && 1 <= k < |blocks| && 1 <= l < |blocks[k].txs|
    requires var t, u := blocks[i].txs[j], blocks[k].txs[l]; t.sender == u.sender && t.nonce == u.nonce
    requires SentOn(blocks, blocks[i].txs[j].sender) <= U64_LIMIT
    ensures i == k && j == l
  {
    NonceIsPlace(x, cr, blocks, i, j);
    NonceIsPlace(x, cr, blocks, k, l);
    EarlierBelow(blocks, i, j);
    EarlierBelow(blocks, k, l);
    if i < k || (i == k && j < l) {
      EarlierGrows(blocks, i, j, k, l);
    } else if k < i || (i == k && l < j) {
      EarlierGrows(blocks, k, l, i, j);
    }
  }
}
