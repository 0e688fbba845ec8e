/** Chains of blocks: which ones are valid, the ledger they replay to, and what every valid chain
    keeps from its genesis on. */
module Chain {
  import opened Bytes
  import opened Transactions
  import opened Ledger
  import opened LedgerSums
  import opened LedgerLaws
  import opened BlockLedger
  import Mmr
  import Supply

  /** What a chain is checked by besides the ledger's rules.  `structure` stands for every check
      that looks at headers and shapes only: timestamps, checkpoints, target, base fee, filter
      root, proof of work, merkle root, size limits and the coinbase's form. */
  datatype Rulebook = Rulebook(
    consensus: Consensus,
    structure: (seq<Block>, Block) -> bool,
    stateRoot: State -> Digest,
    historyFrom: Word -> bool,
    hash: HashFn,
    genesis: Block)

  /** The accumulator covers a block from its activation on, and never genesis. */
  predicate InHistory(cr: Rulebook, height: Word) {
    height > 0 && cr.historyFrom(height)
  }

  /** The block hashes the accumulator covers, oldest first. */
  function HistoryOf(cr: Rulebook, blocks: seq<Block>): (leaves: seq<Bytes>) {
    if blocks == [] then []
    else
      var b := blocks[|blocks| - 1];
      HistoryOf(cr, blocks[..|blocks| - 1]) + if InHistory(cr, b.index) then [b.hash] else []
  }

  /** The history root the next block must carry. */
  ghost function HistoryRootAfter(cr: Rulebook, blocks: seq<Block>, height: Word): (d: Bytes) {
    if cr.historyFrom(height) then Mmr.RangeRoot(cr.hash, HistoryOf(cr, blocks)) else []
  }

  /** Everything about a successor block that does not depend on the ledger. */
  ghost predicate Follows(cr: Rulebook, blocks: seq<Block>, b: Block)
    requires blocks != []
  {
    var tip := blocks[|blocks| - 1];
    && b.index == tip.index + 1 && b.prevHash == tip.hash
    && b.historyRoot == HistoryRootAfter(cr, blocks, b.index)
    && cr.structure(blocks, b)
    && b.txs != [] && IsCoinbase(b.txs[0])
  }

  /** The ledger after one more block, if every rule holds. */
  ghost function Extended(cr: Rulebook, blocks: seq<Block>, s: State, b: Block): (r: Option<State>)
    requires blocks != []
  {
    if !Follows(cr, blocks, b) then None
    else
      var after := ApplyBlock(cr.consensus, blocks, b, s);
      if after.Err? || b.stateRoot != cr.stateRoot(after.value.state) then None else Some(after.value.state)
  }

  /** How a chain with some ledger takes one more block; none when the block breaks a rule. */
  type Extend = (seq<Block>, State, Block) -> Option<State>

  /** The ledger a chain replays to from genesis; none when some block breaks a rule. */
  ghost function Replay(x: Extend, genesis: Block, blocks: seq<Block>): (r: Option<State>) {
    if blocks == [] then None
    else if |blocks| == 1 then (if blocks[0] == genesis then Some(map[]) else None)
    else
      var n := |blocks| - 1;
      var before := Replay(x, genesis, blocks[..n]);
      if before.None? then None else x(blocks[..n], before.value, blocks[n])
  }

  ghost function ExtendBy(cr: Rulebook): (x: Extend) {
    (blocks, s, b) => if blocks == [] then None else Extended(cr, blocks, s, b)
  }

  /** Every block taken obeys the rulebook. */
  ghost predicate Obeys(x: Extend, cr: Rulebook) {
    forall blocks, s, b {:trigger Extended(cr, blocks, s, b)} :: blocks != [] ==> x(blocks, s, b) == Extended(cr, blocks, s, b)
  }

  lemma ObeysOwn(cr: Rulebook)
    ensures Obeys(ExtendBy(cr), cr)
  {
  }

  ghost predicate Sound(cr: Rulebook) {
    && Lawful(cr.consensus)
    && (forall height: Word :: cr.consensus.reward(height) == Supply.BlockReward(height))
    && cr.genesis.index == 0 && cr.genesis.txs == []
  }

  lemma {:induction false} ReplayPrefix(x: Extend, genesis: Block, blocks: seq<Block>, n: nat)
    requires Replay(x, genesis, blocks).Some? && 1 <= n <= |blocks|
    ensures Replay(x, genesis, blocks[..n]).Some?
    decreases |blocks|
  {
    var k := |blocks| - 1;
    if n <= k {
      ReplayPrefix(x, genesis, blocks[..k], n);
      assert blocks[..k][..n] == blocks[..n];
    } else {
      assert blocks[..n] == blocks;
    }
  }

  /** The last block of a valid chain took its place by the rules. */
  lemma ReplayStep(x: Extend, genesis: Block, blocks: seq<Block>, b: Block)
    requires blocks != []
    ensures Replay(x, genesis, blocks + [b]) ==
            if Replay(x, genesis, blocks).None? then None else x(blocks, Replay(x, genesis, blocks).value, b)
  {
    assert (blocks + [b])[..|blocks|] == blocks;
  }

  lemma TakenBlock(x: Extend, cr: Rulebook, blocks: seq<Block>, s: State, b: Block)
    requires Obeys(x, cr) && blocks != [] && x(blocks, s, b).Some?
    ensures Follows(cr, blocks, b) && ApplyBlock(cr.consensus, blocks, b, s).Ok?
    ensures x(blocks, s, b).value == ApplyBlock(cr.consensus, blocks, b, s).value.state
    ensures b.stateRoot == cr.stateRoot(x(blocks, s, b).value)
  {
    assert Extended(cr, blocks, s, b).Some?;
  }

  lemma TakenHeight(x: Extend, cr: Rulebook, blocks: seq<Block>, s: State, b: Block)
    requires Obeys(x, cr) && blocks != [] && x(blocks, s, b).Some?
    ensures b.index == blocks[|blocks| - 1].index + 1 && b.prevHash == blocks[|blocks| - 1].hash
    ensures b.historyRoot == HistoryRootAfter(cr, blocks, b.index)
  {
    TakenBlock(x, cr, blocks, s, b);
  }

  /** Heights are positions. */
  lemma {:induction false} HeightIsPosition(x: Extend, cr: Rulebook, blocks: seq<Block>, i: nat)
    requires Obeys(x, cr) && cr.genesis.index == 0 && Replay(x, cr.genesis, blocks).Some? && i < |blocks|
    ensures blocks[i].index == i
    decreases |blocks|
  {
    var n := |blocks| - 1;
    if n > 0 {
      LastTaken(x, cr, blocks, n);
      HeightIsPosition(x, cr, blocks[..n], if i < n then i else n - 1);
    }
  }

  lemma LastTaken(x: Extend, cr: Rulebook, blocks: seq<Block>, n: nat)
    requires Obeys(x, cr) && Replay(x, cr.genesis, blocks).Some? && n == |blocks| - 1 && n > 0
    ensures Replay(x, cr.genesis, blocks[..n]).Some? && blocks[n].index == blocks[..n][n - 1].index + 1
  {
    TakenHeight(x, cr, blocks[..n], Replay(x, cr.genesis, blocks[..n]).value, blocks[n]);
  }

  /** The base fees a block destroys, summed in 64 bits. */
  function BurnedIn(c: Consensus, b: Block, n: nat): (burned: Word)
    requires n <= |b.txs|
  {
    if n <= 1 then 0 else (BurnedIn(c, b, n - 1) + c.baseFee(b.txs[n - 1], b.baseFee)) % U64_LIMIT
  }

  function BlockBurned(c: Consensus, b: Block): (burned: Word) {
    BurnedIn(c, b, |b.txs|)
  }

  /** What application counts as burned is what the block's body says. */
  lemma {:induction false} BurnedAgrees(c: Consensus, blocks: seq<Block>, b: Block, s: State, n: nat)
    requires 1 <= n <= |b.txs| && ApplyTxs(c, blocks, b, s, n).Ok?
    ensures ApplyTxs(c, blocks, b, s, n).value.burned == BurnedIn(c, b, n)
    decreases n
  {
    if n > 1 {
      BurnedAgrees(c, blocks, b, s, n - 1);
    }
  }

  ghost function TotalBurned(c: Consensus, blocks: seq<Block>): (n: nat) {
    if blocks == [] then 0 else TotalBurned(c, blocks[..|blocks| - 1]) + BlockBurned(c, blocks[|blocks| - 1])
  }

  /** What holds of the ledger of every valid chain. */
  ghost predicate Kept(cr: Rulebook, blocks: seq<Block>, s: State)
    requires blocks != []
  {
    && Coins(s) + TotalBurned(cr.consensus, blocks) == Supply.Minted(|blocks| - 1)
    && Above(s, FloorAt(blocks, |blocks|))
    && NamesBare(s, false)
  }

  lemma {:induction false} CoinbasesPrefix(blocks: seq<Block>, b: Block, lo: nat, hi: nat, a: Address)
    requires hi <= |blocks|
    ensures CoinbasesTo(blocks + [b], lo, hi, a) == CoinbasesTo(blocks, lo, hi, a)
    decreases hi
  {
    if hi > lo {
      CoinbasesPrefix(blocks, b, lo, hi - 1, a);
    }
  }

  lemma {:induction false} CoinbasesShrink(blocks: seq<Block>, lo: nat, lo': nat, hi: nat, a: Address)
    requires hi <= |blocks| && lo <= lo'
    ensures CoinbasesTo(blocks, lo', hi, a) <= CoinbasesTo(blocks, lo, hi, a)
    decreases hi
  {
    if hi > lo {
      CoinbasesShrink(blocks, lo, lo', hi - 1, a);
    }
  }

  /** One block later the old rewards have matured or still count, and the new one counts. */
  lemma FloorMoves(blocks: seq<Block>, b: Block, a: Address)
    requires blocks != []
    ensures Immature(blocks + [b], |blocks| + 1, a) <= Immature(blocks, |blocks|, a) + CoinbaseTo(b, a)
  {
    var n := |blocks|;
    var lo, lo' := MaturingFrom(n), MaturingFrom(n + 1);
    assert lo <= lo' <= n;
    CoinbasesPrefix(blocks, b, lo', n, a);
    CoinbasesShrink(blocks, lo, lo', n, a);
  }

  /** After a block no account is below what it may not spend yet. */
  lemma MaturityStep(cr: Rulebook, blocks: seq<Block>, b: Block, s: State)
    requires Sound(cr) && blocks != [] && b.txs != [] && IsCoinbase(b.txs[0]) && b.index == |blocks|
    requires Above(s, FloorAt(blocks, |blocks|)) && Coins(s) < U64_LIMIT
    requires ApplyBody(cr.consensus, blocks, b, s).Ok? && OverwrittenBy(cr.consensus, blocks, b, s, |b.txs|) == 0
    ensures Above(ApplyBody(cr.consensus, blocks, b, s).value.state, FloorAt(blocks + [b], |blocks| + 1))
  {
    var c, cb := cr.consensus, b.txs[0];
    var p := ApplyTxs(c, blocks, b, s, |b.txs|).value;
    var t := ApplyBody(c, blocks, b, s).value.state;
    TxsKeep(c, blocks, b, s, |b.txs|);
    var f, f' := FloorAt(blocks, |blocks|), FloorAt(blocks + [b], |blocks| + 1);
    forall a ensures f'(a) <= Get(t, a).balance {
      FloorMoves(blocks, b, a);
      assert f(a) <= Get(p.state, a).balance;
      var acc := Get(p.state, cb.recipient);
      GetSet(p.state, cb.recipient, acc.(balance := acc.balance + cb.amount), a);
    }
  }

  lemma BlockKeeps(cr: Rulebook, blocks: seq<Block>, b: Block, s: State)
    requires Sound(cr) && blocks != [] && Kept(cr, blocks, s) && b.index == |blocks|
    requires b.txs != [] && IsCoinbase(b.txs[0]) && ApplyBlock(cr.consensus, blocks, b, s).Ok?
    ensures Kept(cr, blocks + [b], ApplyBlock(cr.consensus, blocks, b, s).value.state)
  {
    var c := cr.consensus;
    var p := ApplyBody(c, blocks, b, s).value;
    Supply.MintedAtMost(|blocks| - 1);
    CoinRuleExact(c, blocks, b, s);
    BurnedAgrees(c, blocks, b, s, |b.txs|);
    MaturityStep(cr, blocks, b, s);
    AssetRuleHolds(c, blocks, b, s);
    assert (blocks + [b])[..|blocks|] == blocks;
    assert Supply.Minted(|blocks|) == Supply.Minted(|blocks| - 1) + Supply.BlockReward(|blocks|);
  }

  /** Every valid chain: the coin held is exactly what was minted less what was burned, no account
      is below its immature rewards, and name records hold no assets. */
  lemma {:induction false} ChainKeeps(x: Extend, cr: Rulebook, blocks: seq<Block>)
    requires Obeys(x, cr) && Sound(cr) && Replay(x, cr.genesis, blocks).Some?
    ensures Kept(cr, blocks, Replay(x, cr.genesis, blocks).value)
    decreases |blocks|
  {
    var n := |blocks| - 1;
    if n == 0 {
      GenesisKept(cr, blocks);
    } else {
      var s := Replay(x, cr.genesis, blocks[..n]).value;
      ChainKeeps(x, cr, blocks[..n]);
      HeightIsPosition(x, cr, blocks, n);
      assert blocks[..n] + [blocks[n]] == blocks;
      StepKeeps(x, cr, blocks[..n], s, blocks[n]);
    }
  }

  lemma StepKeeps(x: Extend, cr: Rulebook, blocks: seq<Block>, s: State, b: Block)
    requires Obeys(x, cr) && Sound(cr) && blocks != [] && Kept(cr, blocks, s) && b.index == |blocks| && x(blocks, s, b).Some?
    ensures Kept(cr, blocks + [b], x(blocks, s, b).value)
  {
    TakenBlock(x, cr, blocks, s, b);
    BlockKeeps(cr, blocks, b, s);
  }

  lemma GenesisKept(cr: Rulebook, blocks: seq<Block>)
    requires Sound(cr) && blocks == [cr.genesis]
    ensures Kept(cr, blocks, map[])
  {
    assert blocks[..0] == [];
    assert TotalBurned(cr.consensus, blocks) == 0;
    forall a ensures FloorAt(blocks, 1)(a) <= Get(map[], a).balance {
      assert Immature(blocks, 1, a) == 0;
    }
  }

  /** In particular no balance of a valid chain comes near 64 bits. */
  lemma NoOverflow(x: Extend, cr: Rulebook, blocks: seq<Block>, a: Address)
    requires Obeys(x, cr) && Sound(cr) && Replay(x, cr.genesis, blocks).Some?
    ensures Get(Replay(x, cr.genesis, blocks).value, a).balance <= Coins(Replay(x, cr.genesis, blocks).value) <= Supply.MAX_MINTED
  {
    ChainKeeps(x, cr, blocks);
    Supply.MintedAtMost(|blocks| - 1);
    SumHolds(Replay(x, cr.genesis, blocks).value, Coin(), a);
  }

  /** No block of the chain paid its reward to a name's key. */
  ghost predicate OrdinaryRewards(blocks: seq<Block>) {
    forall i :: 0 <= i < |blocks| && blocks[i].txs != [] ==> !IsNameKey(blocks[i].txs[0].recipient)
  }

  lemma BareAfter(cr: Rulebook, blocks: seq<Block>, b: Block, s: State)
    requires Sound(cr) && NamesBare(s, true) && b.txs != [] && !IsNameKey(b.txs[0].recipient)
    requires ApplyBody(cr.consensus, blocks, b, s).Ok?
    ensures NamesBare(ApplyBody(cr.consensus, blocks, b, s).value.state, true)
  {
    NothingOverwritten(cr.consensus, blocks, b, s, |b.txs|);
    var p, cb := ApplyTxs(cr.consensus, blocks, b, s, |b.txs|).value, b.txs[0];
    var acc := Get(p.state, cb.recipient);
    BareSet(p.state, cb.recipient, acc.(balance := acc.balance + cb.amount), true);
  }

  /** Then no name record ever holds coin, so the conservation rule adds nothing to the rules
      about single transactions: on such a chain a block that passes those passes it. */
  lemma {:induction false} OrdinaryChainBare(x: Extend, cr: Rulebook, blocks: seq<Block>)
    requires Obeys(x, cr) && Sound(cr) && Replay(x, cr.genesis, blocks).Some? && OrdinaryRewards(blocks)
    ensures NamesBare(Replay(x, cr.genesis, blocks).value, true)
    decreases |blocks|
  {
    var n := |blocks| - 1;
    if n > 0 {
      assert OrdinaryRewards(blocks[..n]);
      OrdinaryChainBare(x, cr, blocks[..n]);
      StepBare(x, cr, blocks[..n], Replay(x, cr.genesis, blocks[..n]).value, blocks[n]);
    }
  }

  lemma StepBare(x: Extend, cr: Rulebook, blocks: seq<Block>, s: State, b: Block)
    requires Obeys(x, cr) && Sound(cr) && blocks != [] && NamesBare(s, true) && x(blocks, s, b).Some?
    requires b.txs != [] ==> !IsNameKey(b.txs[0].recipient)
    ensures NamesBare(x(blocks, s, b).value, true)
  {
    TakenBlock(x, cr, blocks, s, b);
    BareAfter(cr, blocks, b, s);
  }

  lemma OrdinaryChainConserves(x: Extend, cr: Rulebook, blocks: seq<Block>, b: Block)
    requires Obeys(x, cr) && Sound(cr) && Replay(x, cr.genesis, blocks).Some? && OrdinaryRewards(blocks) && b.txs != []
    requires ApplyBody(cr.consensus, blocks, b, Replay(x, cr.genesis, blocks).value).Ok?
    ensures ApplyBlock(cr.consensus, blocks, b, Replay(x, cr.genesis, blocks).value)
         == ApplyBody(cr.consensus, blocks, b, Replay(x, cr.genesis, blocks).value)
  {
    OrdinaryChainBare(x, cr, blocks);
    NoOverflow(x, cr, blocks, []);
    RulesImplyConservation(cr.consensus, blocks, b, Replay(x, cr.genesis, blocks).value);
  }
}
