/** Which of two chains a node ends on, and which of its blocks no call can ever take back. */
module ChainChoice {
  import opened Bytes
  import opened Seqs
  import opened ByteOrder
  import opened Transactions
  import opened Chain
  import opened ChainDerived
  import opened ForkChoice
  import opened ChainStore
  import opened Blockchain
  import opened NodeRuns
  import Convergence
  import Ledger
  import Nonces

  /** The work of all blocks of a chain. */
  function TotalWork(work: Word -> nat, blocks: seq<Block>): (n: nat) {
    if blocks == [] then 0 else work(blocks[0].bits) + TotalWork(work, blocks[1..])
  }

  lemma {:induction false} TotalWorkSnoc(work: Word -> nat, blocks: seq<Block>)
    requires blocks != []
    ensures TotalWork(work, blocks) == TotalWork(work, blocks[..|blocks| - 1]) + work(blocks[|blocks| - 1].bits)
    decreases |blocks|
  {
    var n := |blocks| - 1;
    if n == 0 {
      assert blocks[1..] == [] && blocks[..0] == [];
    } else {
      TotalWorkSnoc(work, blocks[1..]);
      assert blocks[1..][..n - 1] == blocks[..n][1..];
    }
  }

  lemma {:induction false} WorkIsTotal(work: Word -> nat, blocks: seq<Block>)
    ensures WorkOf(work, blocks) == TotalWork(work, blocks)
    decreases |blocks|
  {
    if blocks != [] {
      WorkIsTotal(work, blocks[..|blocks| - 1]);
      TotalWorkSnoc(work, blocks);
    }
  }

  ghost predicate SmallerHash(p: Bytes, q: Bytes) {
    exists k: nat :: FirstAt(p, q, k)
  }

  /** More work in all; or as much, and at the first byte where the hashes of the tips differ the smaller
      one. */
  ghost predicate Outweighs(work: Word -> nat, b: seq<Block>, a: seq<Block>)
    requires a != [] && b != []
  {
    var x, y := TotalWork(work, b), TotalWork(work, a);
    x > y || (x == y && SmallerHash(b[|b| - 1].hash, a[|a| - 1].hash))
  }

  lemma BetterIsOutweighs(work: Word -> nat, b: seq<Block>, a: seq<Block>)
    requires a != [] && b != []
    ensures Better(RankOf(work, b), RankOf(work, a)) <==> Outweighs(work, b, a)
  {
    WorkIsTotal(work, a);
    WorkIsTotal(work, b);
    BeforeIsFirst(b[|b| - 1].hash, a[|a| - 1].hash);
  }

  /** Two chains agree up to and with block `fork`, and no further. */
  ghost predicate PartAfter(a: seq<Block>, b: seq<Block>, fork: nat) {
    && fork < |a| && fork < |b|
    && (forall i :: 0 <= i <= fork ==> a[i].hash == b[i].hash)
    && (fork + 1 < |a| && fork + 1 < |b| ==> a[fork + 1].hash != b[fork + 1].hash)
  }

  /** A node on a valid chain that is offered another one takes it exactly when the two part at or above
      the checkpoint, at most a hundred blocks below its tip, and the other outweighs its own. */
  lemma OfferTaken(net: Network, x: Extend, a: seq<Block>, b: seq<Block>, fork: nat)
    requires OnChain(net, x, a) && OnChain(net, x, b) && Convergence.Apart(a, b) && PartAfter(a, b, fork)
    ensures Next(net, x, a, Replace(b))
         == if fork >= net.checkpoint && |a| - 1 - fork <= 100 && Outweighs(net.kit.work, b, a) then b else a
  {
    SharedIs(a, b, fork + 1);
    Convergence.OfferDecides(net, x, a, b);
    BetterIsOutweighs(net.kit.work, b, a);
  }

  /** A block is appended exactly when the rules extend the chain by it. */
  lemma AddTaken(net: Network, x: Extend, a: seq<Block>, b: Block)
    requires OnChain(net, x, a)
    ensures Next(net, x, a, Add(b)) == if Replay(x, net.cr.genesis, a + [b]).Some? then a + [b] else a
  {
    ReplayStep(x, net.cr.genesis, a, b);
  }

  /** A suffix at a height takes the place of what is above it exactly when the result is valid and
      outweighs the chain, within the guards. */
  lemma SuffixTaken(net: Network, x: Extend, a: seq<Block>, fork: nat, suffix: seq<Block>)
    requires OnChain(net, x, a)
    ensures Next(net, x, a, ReorgAt(fork, suffix))
         == if && fork < |a| && suffix != [] && fork >= net.checkpoint && |a| - 1 - fork <= 100
               && Replay(x, net.cr.genesis, a[..fork + 1] + suffix).Some? && Outweighs(net.kit.work, a[..fork + 1] + suffix, a)
            then a[..fork + 1] + suffix else a
  {
    if fork < |a| {
      BetterIsOutweighs(net.kit.work, a[..fork + 1] + suffix, a);
    }
  }

  /** The first `n` blocks of one chain are the first of the other. */
  ghost predicate Keeps(a: seq<Block>, b: seq<Block>, n: nat) {
    n <= |a| && n <= |b| && a[..n] == b[..n]
  }

  /** No call takes back the checkpointed block or one below it, or more than a hundred. */
  lemma CallKeeps(net: Network, x: Extend, a: seq<Block>, call: Call)
    requires OnChain(net, x, a)
    ensures var r := Next(net, x, a, call);
            && (net.checkpoint < |a| ==> Keeps(a, r, net.checkpoint + 1))
            && (|a| > 100 ==> Keeps(a, r, |a| - 100))
  {
  }

  /** So no run of calls ever changes the blocks up to the checkpoint. */
  lemma {:induction false} RunKeepsCheckpoint(net: Network, x: Extend, a: seq<Block>, calls: seq<Call>)
    requires OnChain(net, x, a) && net.checkpoint < |a|
    ensures Keeps(a, RunCalls(net, x, a, calls), net.checkpoint + 1)
    decreases |calls|
  {
    if calls != [] {
      var n := |calls| - 1;
      RunKeepsCheckpoint(net, x, a, calls[..n]);
      CallKeeps(net, x, RunCalls(net, x, a, calls[..n]), calls[n]);
    }
  }

  /** Each block of a valid chain names the one before it, stands at its height and begins with a
      coinbase. */
  lemma Linked(x: Extend, cr: Rulebook, blocks: seq<Block>, i: nat)
    requires Obeys(x, cr) && cr.genesis.index == 0 && Replay(x, cr.genesis, blocks).Some? && 1 <= i < |blocks|
    ensures blocks[i].prevHash == blocks[i - 1].hash && blocks[i].index == i
    ensures blocks[i].txs != [] && blocks[i].txs[0].sender == COINBASE && cr.structure(blocks[..i], blocks[i])
  {
    HeightIsPosition(x, cr, blocks, i);
    Nonces.BaseOf(x, cr, blocks, i);
    FollowsOn(x, cr, blocks[..i], Replay(x, cr.genesis, blocks[..i]).value, blocks[i]);
  }

  lemma FollowsOn(x: Extend, cr: Rulebook, base: seq<Block>, s: Ledger.State, b: Block)
    requires Obeys(x, cr) && base != [] && x(base, s, b).Some?
    ensures b.prevHash == base[|base| - 1].hash && cr.structure(base, b) && b.txs != [] && b.txs[0].sender == COINBASE
  {
    TakenBlock(x, cr, base, s, b);
  }
}
