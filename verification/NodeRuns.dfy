/** Whole runs of a node: what holds after any sequence of calls, which chain a set of offers ends
    on, and ancestry proofs against the roots stored in its blocks. */
module NodeRuns {
  import opened Bytes
  import opened Seqs
  import opened Transactions
  import opened Ledger
  import opened LedgerLaws
  import opened BlockLedger
  import opened Chain
  import opened ChainDerived
  import opened ForkChoice
  import opened ChainStore
  import opened Blockchain
  import opened LedgerCommit
  import opened Ancestry
  import opened AncestryLaws
  import Mmr
  import Supply

  datatype Call = Add(block: Block) | Replace(chain: seq<Block>) | ReorgAt(fork: nat, suffix: seq<Block>)

  ghost predicate OnChain(net: Network, x: Extend, blocks: seq<Block>) {
    Replay(x, net.cr.genesis, blocks).Some?
  }

  /** The chain a node stands on after one call. */
  ghost function Next(net: Network, x: Extend, blocks: seq<Block>, call: Call): (r: seq<Block>)
    requires OnChain(net, x, blocks)
    ensures OnChain(net, x, r)
  {
    match call
    case Add(b) =>
      ReplayStep(x, net.cr.genesis, blocks, b);
      if x(blocks, Replay(x, net.cr.genesis, blocks).value, b).Some? then blocks + [b] else blocks
    case Replace(chain) => if DecideChain(net, x, blocks, chain) == Adopted then Spliced(blocks, chain) else blocks
    case ReorgAt(fork, suffix) => if DecideFrom(net, x, blocks, fork, suffix) == Adopted then blocks[..fork + 1] + suffix else blocks
  }

  /** And after a run of them. */
  ghost function RunCalls(net: Network, x: Extend, blocks: seq<Block>, calls: seq<Call>): (r: seq<Block>)
    requires OnChain(net, x, blocks)
    ensures OnChain(net, x, r)
  {
    if calls == [] then blocks else Next(net, x, RunCalls(net, x, blocks, calls[..|calls| - 1]), calls[|calls| - 1])
  }

  /** Every block the rules accept stands for some work. */
  ghost predicate WorkPositive(net: Network, x: Extend) {
    forall blocks, s, b :: blocks != [] && x(blocks, s, b).Some? ==> net.kit.work(b.bits) > 0
  }

  lemma BetterThen(a: Rank, b: Rank, c: Rank)
    requires a == b || Better(a, b)
    requires b == c || Better(b, c)
    ensures a == c || Better(a, c)
  {
    BetterOrder(a, b, c);
  }

  /** No call ever leaves a node on a chain ranked lower. */
  lemma NextImproves(net: Network, x: Extend, blocks: seq<Block>, call: Call)
    requires OnChain(net, x, blocks) && WorkPositive(net, x)
    ensures var r := Next(net, x, blocks, call);
            r == blocks || Better(RankOf(net.kit.work, r), RankOf(net.kit.work, blocks))
  {
    if call.Add? {
      WorkStep(net.kit.work, blocks, call.block);
    }
  }

  /** So no run does: nodes never flap. */
  lemma {:induction false} RunImproves(net: Network, x: Extend, blocks: seq<Block>, calls: seq<Call>)
    requires OnChain(net, x, blocks) && WorkPositive(net, x)
    ensures var now, was := RankOf(net.kit.work, RunCalls(net, x, blocks, calls)), RankOf(net.kit.work, blocks);
            now == was || Better(now, was)
    decreases |calls|
  {
    if calls != [] {
      var n := |calls| - 1;
      RunImproves(net, x, blocks, calls[..n]);
      var mid := RunCalls(net, x, blocks, calls[..n]);
      NextImproves(net, x, mid, calls[n]);
      BetterThen(RankOf(net.kit.work, RunCalls(net, x, blocks, calls)), RankOf(net.kit.work, mid), RankOf(net.kit.work, blocks));
    }
  }

  /** All that the state-root checks of a call can come upon is covered. */
  ghost predicate CallWatched(net: Network, x: Extend, trust: Trust, blocks: seq<Block>, call: Call)
    requires OnChain(net, x, blocks)
  {
    match call
    case Add(b) => trust.watched(blocks, Replay(x, net.cr.genesis, blocks).value, b)
    case Replace(chain) => ChainWatched(net, x, trust, blocks, chain)
    case ReorgAt(fork, suffix) => fork < |blocks| ==> SuffixWatched(net, x, trust, blocks[..fork + 1], suffix)
  }

  /** And of every call of a run, on the chain the calls before it lead to. */
  ghost predicate RunWatched(net: Network, x: Extend, trust: Trust, blocks: seq<Block>, calls: seq<Call>)
    requires OnChain(net, x, blocks)
  {
    forall i :: 0 <= i < |calls| ==> CallWatched(net, x, trust, RunCalls(net, x, blocks, calls[..i]), calls[i])
  }

  method PerformAdd(node: Node, call: Call)
    requires call.Add?
    requires WellFormed(node.net, node.x) && Trusted(node.net.cr, node.net.scheme, node.trust) && node.Valid() && node.Backed()
    requires CallWatched(node.net, node.x, node.trust, node.blocks, call)
    modifies node, node.cache.Object()
    ensures node.Valid() && node.Backed() && node.blocks == Next(node.net, node.x, old(node.blocks), call)
  {
    var ok := node.AddBlock(call.block);
  }

  method PerformReplace(node: Node, call: Call)
    requires call.Replace?
    requires WellFormed(node.net, node.x) && Trusted(node.net.cr, node.net.scheme, node.trust) && node.Valid() && node.Backed()
    requires CallWatched(node.net, node.x, node.trust, node.blocks, call)
    modifies node, node.cache.Object()
    ensures node.Valid() && node.Backed() && node.blocks == Next(node.net, node.x, old(node.blocks), call)
  {
    var v := node.ReplaceChain(call.chain);
  }

  method PerformReorg(node: Node, call: Call)
    requires call.ReorgAt?
    requires WellFormed(node.net, node.x) && Trusted(node.net.cr, node.net.scheme, node.trust) && node.Valid() && node.Backed()
    requires CallWatched(node.net, node.x, node.trust, node.blocks, call)
    modifies node, node.cache.Object()
    ensures node.Valid() && node.Backed() && node.blocks == Next(node.net, node.x, old(node.blocks), call)
  {
    var v := node.ReorgFrom(call.fork, call.suffix);
  }

  /** One call, accepted or not, does exactly what the rules say, and everything derived follows. */
  method Perform(node: Node, call: Call)
    requires WellFormed(node.net, node.x) && Trusted(node.net.cr, node.net.scheme, node.trust) && node.Valid() && node.Backed()
    requires CallWatched(node.net, node.x, node.trust, node.blocks, call)
    modifies node, node.cache.Object()
    ensures node.Valid() && node.Backed() && node.blocks == Next(node.net, node.x, old(node.blocks), call)
  {
    match call
    case Add(_) => PerformAdd(node, call);
    case Replace(_) => PerformReplace(node, call);
    case ReorgAt(_, _) => PerformReorg(node, call);
  }

  /** After any run of calls, accepted or refused, the node stands on the chain the calls decide, its
      ledger is a fresh replay of those blocks, and everything derived is what a walk of them gives. */
  method PerformAll(node: Node, calls: seq<Call>)
    requires WellFormed(node.net, node.x) && Trusted(node.net.cr, node.net.scheme, node.trust) && node.Valid() && node.Backed()
    requires RunWatched(node.net, node.x, node.trust, node.blocks, calls)
    modifies node, node.cache.Object()
    ensures node.Valid() && node.Backed() && node.blocks == RunCalls(node.net, node.x, old(node.blocks), calls)
  {
    for i := 0 to |calls|
      invariant node.Valid() && node.Backed() && node.blocks == RunCalls(node.net, node.x, old(node.blocks), calls[..i])
    {
      SnocCalls(calls, i);
      Perform(node, calls[i]);
    }
    WholeSlice(calls);
  }

  lemma SnocCalls(calls: seq<Call>, i: nat)
    requires i < |calls|
    ensures calls[..i + 1][..i] == calls[..i] && calls[..i + 1][i] == calls[i]
  {
  }

  lemma {:induction false} BurnedTotal(c: Consensus, burnedIn: Block -> Word, blocks: seq<Block>)
    requires forall b :: burnedIn(b) == BlockBurned(c, b)
    ensures BurnedOf(burnedIn, blocks) == TotalBurned(c, blocks) % U64_LIMIT
    decreases |blocks|
  {
    if blocks != [] {
      var n := |blocks| - 1;
      BurnedTotal(c, burnedIn, blocks[..n]);
      WordAdds(TotalBurned(c, blocks[..n]), burnedIn(blocks[n]));
    }
  }

  lemma WordAdds(t: nat, b: nat)
    ensures (t % U64_LIMIT + b) % U64_LIMIT == (t + b) % U64_LIMIT
  {
  }

  lemma BurnedExact(c: Consensus, burnedIn: Block -> Word, blocks: seq<Block>)
    requires (forall b :: burnedIn(b) == BlockBurned(c, b)) && TotalBurned(c, blocks) < U64_LIMIT
    ensures BurnedOf(burnedIn, blocks) == TotalBurned(c, blocks)
  {
    BurnedTotal(c, burnedIn, blocks);
  }

  lemma KeptMeans(cr: Rulebook, blocks: seq<Block>, s: State, a: Address)
    requires blocks != [] && Kept(cr, blocks, s)
    ensures Coins(s) + TotalBurned(cr.consensus, blocks) == Supply.Minted(|blocks| - 1) <= Supply.MAX_MINTED
    ensures Immature(blocks, |blocks|, a) <= Get(s, a).balance
  {
    Supply.MintedAtMost(|blocks| - 1);
    FloorRead(blocks, |blocks|, s, a);
  }

  lemma FloorRead(blocks: seq<Block>, height: nat, s: State, a: Address)
    requires Above(s, FloorAt(blocks, height))
    ensures Immature(blocks, height, a) <= Get(s, a).balance
  {
    assert FloorAt(blocks, height)(a) == Immature(blocks, height, a);
  }

  lemma SupplyOf(x: Extend, cr: Rulebook, burnedIn: Block -> Word, blocks: seq<Block>, s: State, a: Address)
    requires Obeys(x, cr) && Sound(cr) && Replay(x, cr.genesis, blocks) == Some(s)
    requires forall b :: burnedIn(b) == BlockBurned(cr.consensus, b)
    ensures Coins(s) + BurnedOf(burnedIn, blocks) == Supply.Minted(|blocks| - 1) <= Supply.MAX_MINTED
    ensures Immature(blocks, |blocks|, a) <= Get(s, a).balance
  {
    ChainKeeps(x, cr, blocks);
    KeptMeans(cr, blocks, s, a);
    BurnedExact(cr.consensus, burnedIn, blocks);
  }

  /** At every tip: minted less burned is what the accounts hold, exactly; and no account holds
      less than the rewards it may not spend yet. */
  lemma SupplyConsistent(node: Node, a: Address)
    requires WellFormed(node.net, node.x) && node.Valid() && Sound(node.net.cr)
    requires forall b :: node.net.kit.burnedIn(b) == BlockBurned(node.net.cr.consensus, b)
    ensures Coins(node.state) + node.derived.burned == Supply.Minted(|node.blocks| - 1) <= Supply.MAX_MINTED
    ensures Immature(node.blocks, |node.blocks|, a) <= Get(node.state, a).balance
  {
    SupplyOf(node.x, node.net.cr, node.net.kit.burnedIn, node.blocks, node.state, a);
  }

  lemma {:induction false} BlockTaken(x: Extend, cr: Rulebook, blocks: seq<Block>, i: nat)
    requires Obeys(x, cr) && Replay(x, cr.genesis, blocks).Some? && 1 <= i < |blocks|
    ensures blocks[i].historyRoot == HistoryRootAfter(cr, blocks[..i], blocks[i].index)
    decreases |blocks|
  {
    var n := |blocks| - 1;
    if i < n {
      BlockTaken(x, cr, blocks[..n], i);
      assert blocks[..n][..i] == blocks[..i];
    } else {
      TakenHeight(x, cr, blocks[..n], Replay(x, cr.genesis, blocks[..n]).value, blocks[n]);
    }
  }

  lemma {:induction false} HistoryShort(cr: Rulebook, blocks: seq<Block>)
    ensures |HistoryOf(cr, blocks)| <= |blocks|
    decreases |blocks|
  {
    if blocks != [] {
      HistoryShort(cr, blocks[..|blocks| - 1]);
    }
  }

  /** The leaves the header at `asOf` commits, and where a block stands among them. */
  method CommittedLeaves(cr: Rulebook, blocks: seq<Block>, height: nat, asOf: nat) returns (leaves: seq<Bytes>, position: nat)
    requires height < asOf <= |blocks| < U64_LIMIT && InHistory(cr, height)
    requires forall i :: 0 <= i < |blocks| ==> blocks[i].index == i
    ensures leaves == HistoryOf(cr, blocks[..asOf])
    ensures position < |leaves| && leaves[position] == blocks[height].hash
  {
    leaves, position := [], 0;
    var found := false;
    for i := 0 to asOf
      invariant leaves == HistoryOf(cr, blocks[..i]) && (found <==> height < i)
      invariant found ==> position < |leaves| && leaves[position] == blocks[height].hash
    {
      assert blocks[..i + 1][..i] == blocks[..i];
      assert leaves + [] == leaves;
      if InHistory(cr, blocks[i].index) {
        if blocks[i].index == height {
          position := |leaves|;
          found := true;
        }
        leaves := leaves + [blocks[i].hash];
      }
    }
  }

  /** Proves a block is in the history the header at `asOf` commits.  The proof passes the
      verifier against the root stored in that header. */
  method ProveAncestry(node: Node, height: nat, asOf: nat) returns (r: Result<AncestryProof>)
    requires WellFormed(node.net, node.x) && node.Valid() && |node.blocks| < U64_LIMIT
    ensures r.Ok? <==>
      && height < asOf < |node.blocks| && node.net.cr.historyFrom(asOf) && InHistory(node.net.cr, height)
    ensures r.Ok? ==>
      && r.value.blockHash == node.blocks[height].hash && r.value.leaves < U64_LIMIT
      && |node.blocks[asOf].historyRoot| == DIGEST_LEN
      && Accepts(node.net.cr.hash, r.value, node.blocks[asOf].historyRoot)
  {
    var cr, blocks := node.net.cr, node.blocks;
    if asOf >= |blocks| || height >= asOf || !cr.historyFrom(asOf) || !InHistory(cr, height) {
      return Err;
    }
    forall i | 0 <= i < |blocks| ensures blocks[i].index == i {
      HeightIsPosition(node.x, cr, blocks, i);
    }
    var leaves, position := CommittedLeaves(cr, blocks, height, asOf);
    HistoryShort(cr, blocks[..asOf]);
    BlockTaken(node.x, cr, blocks, asOf);
    r := BuildAncestryProof(cr.hash, leaves, position);
  }
}
