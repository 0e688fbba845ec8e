/** A block made of valid transactions that the conservation rule rejects: the reward of block two was
    paid to the key of a name, and block four registers that name, paid for with the matured reward of
    block one. */
module NameCoinWitness {
  import opened Bytes
  import opened Transactions
  import opened Ledger
  import opened LedgerSums
  import opened LedgerLaws
  import opened BlockLedger
  import opened NameRecords
  import opened NameCoins
  import Supply

  const MIN_NAME_BYTES := 3
  const MAX_NAME_BYTES := 32
  const HYPHEN: Byte := 45

  /** Lower-case letters, digits, and single hyphens inside. */
  predicate ValidName(name: Bytes) {
    && MIN_NAME_BYTES <= |name| <= MAX_NAME_BYTES
    && (forall i :: 0 <= i < |name| ==> 97 <= name[i] <= 122 || 48 <= name[i] <= 57 || name[i] == HYPHEN)
    && (forall i :: 0 <= i < |name| && name[i] == HYPHEN ==> 0 < i < |name| - 1 && name[i - 1] != HYPHEN)
  }

  /** `dnas` */
  const NAME: Bytes := [100, 110, 97, 115]
  const SENDER: Address := [9]
  const MINER: Address := [7]
  const FEE: Word := 10_000

  function Coinbase(recipient: Address, amount: Word): (tx: Tx) {
    Tx(COINBASE, recipient, amount, 0, 0, 0, 0, [], [], [], None, None, None, [], [])
  }

  /** Two periods of the name, and more than the base fee. */
  function Registration(): (tx: Tx) {
    Tx(SENDER, [], 0, FEE, 0, 0, 0, [], [], [], None, None, Some(NameOp(REGISTER, NAME, [], 2)), [], [])
  }

  function BlockOf(height: Word, baseFee: Word, txs: seq<Tx>): (b: Block) {
    Block(0, height, 0, txs, [], [], [], baseFee, 0, 0, [], [], [])
  }

  const REWARD: Word := Supply.INITIAL_REWARD

  function RewardBlock(height: Word, baseFee: Word, recipient: Address): (b: Block) {
    BlockOf(height, baseFee, [Coinbase(recipient, REWARD)])
  }

  /** The chain block four is built on, with the base fee of every block. */
  function Before(baseFee: Word): (blocks: seq<Block>) {
    [BlockOf(0, baseFee, []), RewardBlock(1, baseFee, SENDER), RewardBlock(2, baseFee, NameKey(NAME)), RewardBlock(3, baseFee, MINER)]
  }

  /** Rules under which the registration is well formed, signed and in time, and pays for its size. */
  predicate Accepts(r: Rules, baseFee: Word) {
    var tx := Registration();
    Sane(r, tx) && r.verified(tx) && r.ready(tx, 4) && 0 < r.size(tx) && 0 < baseFee && baseFee * r.size(tx) <= FEE
  }

  function Registering(r: Rules, baseFee: Word): (b: Block)
    requires Accepts(r, baseFee)
  {
    DueIs(r, baseFee);
    BlockOf(4, baseFee, [Coinbase(MINER, REWARD + FEE - BaseFeeFor(r, Registration(), baseFee)), Registration()])
  }

  lemma DueIs(r: Rules, baseFee: Word)
    requires Accepts(r, baseFee)
    ensures 0 < BaseFeeFor(r, Registration(), baseFee) <= FEE
  {
    assert baseFee * r.size(Registration()) > 0;
  }

  /** There are such rules, with names as they have to be, half a kilobyte for the registration, and the
      base fee of the first block. */
  lemma SomeAccept(id: Digest)
    ensures Accepts(Rules(_ => true, _ => true, (tx: Tx, height: Word) => tx.lockUntil <= height, _ => false, _ => false, ValidName,
                          (_, _, _) => [], (_, _, _, _) => [], _ => 512, _ => id), 10)
  {
    assert ValidName(NAME);
  }

  function Rewarded(s: State, a: Address): (t: State) {
    Set(s, a, Get(s, a).(balance := (Get(s, a).balance + REWARD) % U64_LIMIT))
  }

  function After(n: nat): (s: State)
    requires n <= 3
  {
    if n == 0 then map[] else Rewarded(After(n - 1), if n == 1 then SENDER else if n == 2 then NameKey(NAME) else MINER)
  }

  lemma RewardIs(height: Word)
    requires height < Supply.HALVING_INTERVAL
    ensures Supply.BlockReward(height) == REWARD
  {
    assert height / Supply.HALVING_INTERVAL == 0;
  }

  /** A block with nothing but its reward is valid. */
  lemma RewardApplies(r: Rules, blocks: seq<Block>, height: Word, baseFee: Word, a: Address, s: State)
    requires height < Supply.HALVING_INTERVAL && Coins(s) + REWARD < U64_LIMIT && NamesBare(s, false)
    ensures var res := ApplyBlock(ConsensusOf(r), blocks, RewardBlock(height, baseFee, a), s);
            res.Ok? && res.value.state == Rewarded(s, a) && Coins(Rewarded(s, a)) == Coins(s) + REWARD && NamesBare(Rewarded(s, a), false)
  {
    var c, b := ConsensusOf(r), RewardBlock(height, baseFee, a);
    RewardIs(height);
    RewardedCoins(s, a);
    assert ApplyTxs(c, blocks, b, s, 1) == Ok(Progress(s, 0, 0, {}));
    assert Credit(s, Output(a, REWARD)) == Ok(Rewarded(s, a));
    BlockVerdict(r, blocks, b, s);
  }

  lemma RewardedCoins(s: State, a: Address)
    requires Coins(s) + REWARD < U64_LIMIT && NamesBare(s, false)
    ensures Get(s, a).balance + REWARD < U64_LIMIT && Coins(Rewarded(s, a)) == Coins(s) + REWARD && NamesBare(Rewarded(s, a), false)
  {
    SumHolds(s, Coin(), a);
    SumWrites(s, Coin(), a, Get(s, a).(balance := Get(s, a).balance + REWARD));
    StillBare(s, a);
  }

  lemma StillBare(s: State, a: Address)
    requires NamesBare(s, false)
    ensures NamesBare(Rewarded(s, a), false)
  {
    forall k | IsNameKey(k) ensures Bare(Get(Rewarded(s, a), k), false) {
      GetSet(s, a, Get(s, a).(balance := (Get(s, a).balance + REWARD) % U64_LIMIT), k);
      assert Bare(Get(s, k), false) && (a == k ==> Bare(Get(s, a), false));
    }
  }

  lemma {:induction false} AfterCoins(n: nat)
    requires n <= 3
    ensures Coins(After(n)) == n * REWARD && NamesBare(After(n), false)
  {
    if n > 0 {
      AfterCoins(n - 1);
      var s, a := After(n - 1), if n == 1 then SENDER else if n == 2 then NameKey(NAME) else MINER;
      RewardedCoins(s, a);
    }
  }

  /** The first three blocks are valid, one after the other. */
  lemma FirstApply(r: Rules, baseFee: Word, n: nat)
    requires 1 <= n <= 3
    ensures var blocks := Before(baseFee);
            var res := ApplyBlock(ConsensusOf(r), blocks[..n], blocks[n], After(n - 1));
            res.Ok? && res.value.state == After(n)
  {
    AfterCoins(n - 1);
    var a := if n == 1 then SENDER else if n == 2 then NameKey(NAME) else MINER;
    RewardApplies(r, Before(baseFee)[..n], n, baseFee, a, After(n - 1));
  }

  /** What the ledger holds before block four. */
  lemma ReadAfter()
    ensures var s := After(3); Get(s, SENDER) == ZERO.(balance := REWARD) && Get(s, NameKey(NAME)) == ZERO.(balance := REWARD)
  {
    var rewarded := ZERO.(balance := REWARD);
    assert After(1) == Set(map[], SENDER, rewarded);
    GetSet(map[], SENDER, rewarded, SENDER);
    GetSet(map[], SENDER, rewarded, NameKey(NAME));
    assert After(2) == Set(After(1), NameKey(NAME), rewarded);
    GetSet(After(1), NameKey(NAME), rewarded, NameKey(NAME));
    GetSet(After(1), NameKey(NAME), rewarded, SENDER);
    var miner := Get(After(2), MINER);
    GetSet(After(2), MINER, miner.(balance := (miner.balance + REWARD) % U64_LIMIT), SENDER);
    GetSet(After(2), MINER, miner.(balance := (miner.balance + REWARD) % U64_LIMIT), NameKey(NAME));
  }

  /** The sender's reward has matured. */
  lemma NothingReserved(baseFee: Word)
    ensures Reserve(Before(baseFee), 4, SENDER) == 0
  {
    var blocks := Before(baseFee);
    assert CoinbaseTo(blocks[2], SENDER) == 0 && CoinbaseTo(blocks[3], SENDER) == 0;
    assert CoinbasesTo(blocks, 2, 2, SENDER) == 0;
    assert CoinbasesTo(blocks, 2, 3, SENDER) == 0;
  }

  lemma RegistrationApplies(r: Rules, baseFee: Word)
    requires Accepts(r, baseFee)
    ensures ApplyTx(r, After(3), Registration(), 4, 0, 0).Ok?
  {
    ReadAfter();
  }

  /** Its turn in block four. */
  lemma Turn(r: Rules, blocks: seq<Block>, b: Block, s: State, tx: Tx)
    requires Sane(r, tx) && r.ready(tx, b.index) && !IsSponsored(tx) && BaseFeeFor(r, tx, b.baseFee) <= tx.fee
    requires Reserve(blocks, b.index, tx.sender) == 0 && ApplyTx(r, s, tx, b.index, 0, 0).Ok?
    ensures var next := NextTx(ConsensusOf(r), blocks, b, Progress(s, 0, 0, {}), tx);
            next.Ok? && next.value.tips == tx.fee - BaseFeeFor(r, tx, b.baseFee)
  {
    TurnOf(ConsensusOf(r), blocks, b, s, tx);
  }

  lemma TurnOf(c: Consensus, blocks: seq<Block>, b: Block, s: State, tx: Tx)
    requires c.admits(tx, b.index) && !IsSponsored(tx) && c.baseFee(tx, b.baseFee) <= tx.fee
    requires Reserve(blocks, b.index, tx.sender) == 0 && c.apply(s, tx, b.index, 0, 0).Ok?
    ensures var next := NextTx(c, blocks, b, Progress(s, 0, 0, {}), tx);
            next.Ok? && next.value.tips == tx.fee - c.baseFee(tx, b.baseFee)
  {
  }

  lemma NothingGained(r: Rules, blocks: seq<Block>, b: Block, s: State, n: nat)
    requires 1 <= n <= |b.txs| && ApplyTxs(ConsensusOf(r), blocks, b, s, n).Ok? && Coins(s) < U64_LIMIT
    ensures Coins(ApplyTxs(ConsensusOf(r), blocks, b, s, n).value.state) <= Coins(s)
  {
    RulesLawful(r);
    TxsKeep(ConsensusOf(r), blocks, b, s, n);
  }

  lemma Txs(r: Rules, baseFee: Word)
    requires Accepts(r, baseFee)
    ensures var p := ApplyTxs(ConsensusOf(r), Before(baseFee), Registering(r, baseFee), After(3), 2);
            p.Ok? && p.value.tips == FEE - BaseFeeFor(r, Registration(), baseFee)
  {
    var c, blocks, b, s := ConsensusOf(r), Before(baseFee), Registering(r, baseFee), After(3);
    assert ApplyTxs(c, blocks, b, s, 1) == Ok(Progress(s, 0, 0, {}));
    assert b.txs[1] == Registration();
    DueIs(r, baseFee);
    RegistrationApplies(r, baseFee);
    NothingReserved(baseFee);
    Turn(r, blocks, b, s, Registration());
  }

  /** A block whose coinbase pays what is due, and has room for it. */
  lemma PaysDue(c: Consensus, blocks: seq<Block>, b: Block, s: State, p: Progress)
    requires b.txs != [] && ApplyTxs(c, blocks, b, s, |b.txs|) == Ok(p)
    requires b.txs[0].amount == c.reward(b.index) + p.tips && Coins(p.state) + b.txs[0].amount < U64_LIMIT
    ensures ApplyBody(c, blocks, b, s).Ok?
  {
    SumHolds(p.state, Coin(), b.txs[0].recipient);
  }

  lemma BodyApplies(r: Rules, baseFee: Word)
    requires Accepts(r, baseFee)
    ensures ApplyBody(ConsensusOf(r), Before(baseFee), Registering(r, baseFee), After(3)).Ok?
  {
    var c, b := ConsensusOf(r), Registering(r, baseFee);
    DueIs(r, baseFee);
    RewardIs(4);
    AfterCoins(3);
    Txs(r, baseFee);
    NothingGained(r, Before(baseFee), b, After(3), 2);
    assert |b.txs| == 2 && c.reward(4) == REWARD;
    PaysDue(c, Before(baseFee), b, After(3), ApplyTxs(c, Before(baseFee), b, After(3), 2).value);
  }

  /** Every transaction of block four is valid and its coinbase pays what is due, and still the block is
      rejected. */
  lemma FourthRejected(r: Rules, baseFee: Word)
    requires Accepts(r, baseFee)
    ensures ApplyBody(ConsensusOf(r), Before(baseFee), Registering(r, baseFee), After(3)).Ok?
    ensures ApplyBlock(ConsensusOf(r), Before(baseFee), Registering(r, baseFee), After(3)).Err?
  {
    var b, s := Registering(r, baseFee), After(3);
    RewardIs(4);
    AfterCoins(3);
    BodyApplies(r, baseFee);
    ReadAfter();
    assert CoinAt(s, b.txs[1].name.value.name) == REWARD;
    BlockVerdict(r, Before(baseFee), b, s);
  }
}
