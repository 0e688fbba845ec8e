/** What a balance is made of: on every valid chain, an ordinary account holds exactly what it mined and
    was paid, less what it paid; and of that, what it mined lately it cannot have spent. */
module AccountHistory {
  import opened Bytes
  import opened Transactions
  import opened Ledger
  import opened LedgerLaws
  import opened BlockLedger
  import opened Chain
  import Nonces
  import LedgerEffects
  import Supply

  /** What a transaction leaves of an ordinary account's balance. */
  ghost predicate FlowStep(c: Consensus, s: State, tx: Tx, height: Word, reserve: Word, payerReserve: Word, a: Address) {
    c.admits(tx, height) && c.apply(s, tx, height, reserve, payerReserve).Ok? && !IsNameKey(a) ==>
      Get(c.apply(s, tx, height, reserve, payerReserve).value, a).balance + LedgerEffects.Gives(tx, a)
        == Get(s, a).balance + LedgerEffects.Gets(tx, a)
  }

  ghost predicate FlowLaw(c: Consensus) {
    forall s, tx, height, reserve, payerReserve, a {:trigger FlowStep(c, s, tx, height, reserve, payerReserve, a)} ::
      FlowStep(c, s, tx, height, reserve, payerReserve, a)
  }

  lemma RulesFlow(r: Rules)
    ensures FlowLaw(ConsensusOf(r))
  {
    var c := ConsensusOf(r);
    forall s, tx, height, reserve, payerReserve, a ensures FlowStep(c, s, tx, height, reserve, payerReserve, a) {
      if c.admits(tx, height) && c.apply(s, tx, height, reserve, payerReserve).Ok? && !IsNameKey(a) {
        LedgerEffects.TxMoves(r, s, tx, height, reserve, payerReserve, a);
      }
    }
  }

  /** What an address got and gave in the transactions of a block before position `n`. */
  function GotIn(b: Block, n: nat, a: Address): (k: nat)
    requires n <= |b.txs|
  {
    if n <= 1 then 0 else GotIn(b, n - 1, a) + LedgerEffects.Gets(b.txs[n - 1], a)
  }

  function GaveIn(b: Block, n: nat, a: Address): (k: nat)
    requires n <= |b.txs|
  {
    if n <= 1 then 0 else GaveIn(b, n - 1, a) + LedgerEffects.Gives(b.txs[n - 1], a)
  }

  /** What a block's first transaction pays an address. */
  function MinedIn(b: Block, a: Address): (k: nat) {
    if b.txs != [] && b.txs[0].recipient == a then b.txs[0].amount else 0
  }

  function Got(blocks: seq<Block>, a: Address): (k: nat) {
    if blocks == [] then 0
    else var b := blocks[|blocks| - 1]; Got(blocks[..|blocks| - 1], a) + GotIn(b, |b.txs|, a)
  }

  function Gave(blocks: seq<Block>, a: Address): (k: nat) {
    if blocks == [] then 0
    else var b := blocks[|blocks| - 1]; Gave(blocks[..|blocks| - 1], a) + GaveIn(b, |b.txs|, a)
  }

  function Mined(blocks: seq<Block>, a: Address): (k: nat) {
    if blocks == [] then 0 else Mined(blocks[..|blocks| - 1], a) + MinedIn(blocks[|blocks| - 1], a)
  }

  lemma NextFlows(c: Consensus, blocks: seq<Block>, b: Block, p: Progress, tx: Tx, a: Address)
    requires FlowLaw(c) && NextTx(c, blocks, b, p, tx).Ok? && !IsNameKey(a)
    ensures Get(NextTx(c, blocks, b, p, tx).value.state, a).balance + LedgerEffects.Gives(tx, a)
         == Get(p.state, a).balance + LedgerEffects.Gets(tx, a)
  {
    var payerReserve := if IsSponsored(tx) then Reserve(blocks, b.index, tx.feePayer) else 0;
    assert FlowStep(c, p.state, tx, b.index, Reserve(blocks, b.index, tx.sender), payerReserve, a);
  }

  lemma {:induction false} TxsFlow(c: Consensus, blocks: seq<Block>, b: Block, s: State, n: nat, a: Address)
    requires FlowLaw(c) && 1 <= n <= |b.txs| && ApplyTxs(c, blocks, b, s, n).Ok? && !IsNameKey(a)
    ensures Get(ApplyTxs(c, blocks, b, s, n).value.state, a).balance + GaveIn(b, n, a) == Get(s, a).balance + GotIn(b, n, a)
    decreases n
  {
    if n > 1 {
      TxsFlow(c, blocks, b, s, n - 1, a);
      NextFlows(c, blocks, b, ApplyTxs(c, blocks, b, s, n - 1).value, b.txs[n - 1], a);
    }
  }

  lemma BlockFlows(c: Consensus, blocks: seq<Block>, b: Block, s: State, a: Address)
    requires FlowLaw(c) && b.txs != [] && ApplyBlock(c, blocks, b, s).Ok? && !IsNameKey(a)
    ensures Get(ApplyBlock(c, blocks, b, s).value.state, a).balance + GaveIn(b, |b.txs|, a)
         == Get(s, a).balance + GotIn(b, |b.txs|, a) + MinedIn(b, a)
  {
    TxsFlow(c, blocks, b, s, |b.txs|, a);
    var t, cb := ApplyTxs(c, blocks, b, s, |b.txs|).value.state, b.txs[0];
    var acc := Get(t, cb.recipient);
    GetSet(t, cb.recipient, acc.(balance := acc.balance + cb.amount), a);
  }

  lemma StepFlows(x: Extend, cr: Rulebook, blocks: seq<Block>, s: State, b: Block, a: Address)
    requires Obeys(x, cr) && FlowLaw(cr.consensus) && blocks != [] && x(blocks, s, b).Some? && !IsNameKey(a)
    ensures Get(x(blocks, s, b).value, a).balance + GaveIn(b, |b.txs|, a)
         == Get(s, a).balance + GotIn(b, |b.txs|, a) + MinedIn(b, a)
  {
    TakenBlock(x, cr, blocks, s, b);
    BlockFlows(cr.consensus, blocks, b, s, a);
  }

  /** On every valid chain: an ordinary account's balance is what it mined and got, less what it gave. */
  lemma {:induction false} BalanceIsHistory(x: Extend, cr: Rulebook, blocks: seq<Block>, a: Address)
    requires Obeys(x, cr) && FlowLaw(cr.consensus) && cr.genesis.txs == [] && Replay(x, cr.genesis, blocks).Some? && !IsNameKey(a)
    ensures Get(Replay(x, cr.genesis, blocks).value, a).balance + Gave(blocks, a) == Mined(blocks, a) + Got(blocks, a)
    decreases |blocks|
  {
    var n := |blocks| - 1;
    if n == 0 {
      assert blocks[..0] == [];
    } else {
      BalanceIsHistory(x, cr, blocks[..n], a);
      StepFlows(x, cr, blocks[..n], Replay(x, cr.genesis, blocks[..n]).value, blocks[n], a);
    }
  }

  /** What an address mined in the blocks before position `n` that a block at `height` may not spend yet:
      the reward of height `c` is locked below height `c + 3`. */
  function Locked(blocks: seq<Block>, n: nat, height: nat, a: Address): (k: nat)
    requires n <= |blocks|
  {
    if n == 0 then 0
    else
      var c, b := n - 1, blocks[n - 1];
      Locked(blocks, c, height, a)
      + if 1 <= c < height < c + 3 && b.txs != [] && b.txs[0].sender == COINBASE && b.txs[0].recipient == a
        then b.txs[0].amount else 0
  }

  /** The window the code sums over holds exactly the locked rewards. */
  lemma {:induction false} WindowIsLocked(blocks: seq<Block>, height: nat, n: nat, a: Address)
    requires n <= |blocks|
    ensures Locked(blocks, n, height, a) == CoinbasesTo(blocks, MaturingFrom(height), if n < height then n else Upto(blocks, height), a)
  {
    if n > 0 {
      WindowIsLocked(blocks, height, n - 1, a);
    }
  }

  lemma ImmatureIsLocked(blocks: seq<Block>, height: nat, a: Address)
    ensures Immature(blocks, height, a) == Locked(blocks, |blocks|, height, a)
  {
    WindowIsLocked(blocks, height, |blocks|, a);
  }

  /** At every tip each account holds at least its locked rewards. */
  lemma LockedAtTip(x: Extend, cr: Rulebook, blocks: seq<Block>, a: Address)
    requires Obeys(x, cr) && Sound(cr) && Replay(x, cr.genesis, blocks).Some?
    ensures Locked(blocks, |blocks|, |blocks|, a) <= Get(Replay(x, cr.genesis, blocks).value, a).balance
  {
    ChainKeeps(x, cr, blocks);
    ImmatureIsLocked(blocks, |blocks|, a);
    assert FloorAt(blocks, |blocks|)(a) == Immature(blocks, |blocks|, a);
  }

  /** And so it does after every transaction of every block that follows: what the reward of height `c`
      paid is still there until height `c + 3`. */
  lemma LockedStays(x: Extend, cr: Rulebook, blocks: seq<Block>, b: Block, n: nat, a: Address)
    requires Obeys(x, cr) && Sound(cr) && Replay(x, cr.genesis, blocks).Some?
    requires x(blocks, Replay(x, cr.genesis, blocks).value, b).Some? && 1 <= n <= |b.txs|
    ensures var p := ApplyTxs(cr.consensus, blocks, b, Replay(x, cr.genesis, blocks).value, n);
            p.Ok? && Locked(blocks, |blocks|, b.index, a) <= Get(p.value.state, a).balance
  {
    var c, s := cr.consensus, Replay(x, cr.genesis, blocks).value;
    TakenBlock(x, cr, blocks, s, b);
    NextIndex(x, cr, blocks, s, b);
    ChainKeeps(x, cr, blocks);
    Supply.MintedAtMost(|blocks| - 1);
    CoinRuleExact(c, blocks, b, s);
    Nonces.TxsPrefix(c, blocks, b, s, n, |b.txs|);
    LostNothing(c, blocks, b, s, n, |b.txs|);
    TxsKeep(c, blocks, b, s, n);
    ImmatureIsLocked(blocks, b.index, a);
    assert FloorAt(blocks, b.index)(a) == Immature(blocks, b.index, a);
  }

  lemma NextIndex(x: Extend, cr: Rulebook, blocks: seq<Block>, s: State, b: Block)
    requires Obeys(x, cr) && Sound(cr) && Replay(x, cr.genesis, blocks).Some? && x(blocks, s, b).Some?
    ensures b.index == |blocks|
  {
    HeightIsPosition(x, cr, blocks, |blocks| - 1);
    TakenHeight(x, cr, blocks, s, b);
  }

  lemma {:induction false} LostNothing(c: Consensus, blocks: seq<Block>, b: Block, s: State, m: nat, n: nat)
    requires 1 <= m <= n <= |b.txs| && OverwrittenBy(c, blocks, b, s, n) == 0
    ensures OverwrittenBy(c, blocks, b, s, m) == 0
    decreases n
  {
    if m < n {
      LostNothing(c, blocks, b, s, m, n - 1);
    }
  }

  /** A transaction's turn in a block, without the ledger's own functions: it is sane and in time, pays
      the base fee, is not in the block already, and is due above the rewards its sender and its sponsor
      may not spend yet. */
  lemma TurnTaken(r: Rules, blocks: seq<Block>, b: Block, p: Progress, tx: Tx)
    requires Locked(blocks, |blocks|, b.index, tx.sender) < U64_LIMIT && Locked(blocks, |blocks|, b.index, tx.feePayer) < U64_LIMIT
    ensures NextTx(ConsensusOf(r), blocks, b, p, tx).Ok? <==>
      && Sane(r, tx) && r.ready(tx, b.index) && r.txid(tx) !in p.seen && tx.fee >= (b.baseFee * r.size(tx)) % U64_LIMIT
      && LedgerEffects.Due(r, p.state, tx, b.index, Locked(blocks, |blocks|, b.index, tx.sender),
                           if tx.feePayer != [] then Locked(blocks, |blocks|, b.index, tx.feePayer) else 0)
  {
    TurnOf(ConsensusOf(r), blocks, b, p, tx);
    ReserveIs(blocks, b.index, tx.sender, Locked(blocks, |blocks|, b.index, tx.sender));
    ReserveIs(blocks, b.index, tx.feePayer, Locked(blocks, |blocks|, b.index, tx.feePayer));
    var reserve: Word := Locked(blocks, |blocks|, b.index, tx.sender);
    var payerReserve: Word := if tx.feePayer != [] then Locked(blocks, |blocks|, b.index, tx.feePayer) else 0;
    TurnDue(r, b, p, tx, reserve, payerReserve);
  }

  lemma ReserveIs(blocks: seq<Block>, height: nat, a: Address, n: nat)
    requires n == Locked(blocks, |blocks|, height, a) && n < U64_LIMIT
    ensures Reserve(blocks, height, a) == n
  {
    ImmatureIsLocked(blocks, height, a);
    SmallWord(Immature(blocks, height, a), n);
  }

  lemma SmallWord(k: nat, n: nat)
    requires k == n < U64_LIMIT
    ensures k % U64_LIMIT == n
  {
  }

  lemma TurnOf(c: Consensus, blocks: seq<Block>, b: Block, p: Progress, tx: Tx)
    ensures NextTx(c, blocks, b, p, tx).Ok? <==>
      && c.admits(tx, b.index) && tx.fee >= c.baseFee(tx, b.baseFee) && c.txid(tx) !in p.seen
      && c.apply(p.state, tx, b.index, Reserve(blocks, b.index, tx.sender),
                 if tx.feePayer != [] then Reserve(blocks, b.index, tx.feePayer) else 0).Ok?
  {
  }

  lemma TurnDue(r: Rules, b: Block, p: Progress, tx: Tx, reserve: Word, payerReserve: Word)
    ensures var c := ConsensusOf(r);
            c.admits(tx, b.index) && tx.fee >= c.baseFee(tx, b.baseFee) && c.txid(tx) !in p.seen
            && c.apply(p.state, tx, b.index, reserve, payerReserve).Ok?
            <==> Sane(r, tx) && r.ready(tx, b.index) && r.txid(tx) !in p.seen && tx.fee >= (b.baseFee * r.size(tx)) % U64_LIMIT
                 && LedgerEffects.Due(r, p.state, tx, b.index, reserve, payerReserve)
  {
    if Sane(r, tx) {
      LedgerEffects.TxTaken(r, p.state, tx, b.index, reserve, payerReserve);
    }
  }
}
