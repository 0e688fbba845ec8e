/** Nodes that hear of the same chains end on the same chain, in whatever order they hear of them. */
module Convergence {
  import opened Bytes
  import opened Seqs
  import opened Transactions
  import opened Chain
  import opened ChainDerived
  import opened ForkChoice
  import opened ChainStore
  import opened Blockchain
  import opened LedgerCommit
  import opened NodeRuns

  /** The chain a node stands on once it was offered others in turn. */
  ghost function Offer(net: Network, x: Extend, start: seq<Block>, chains: seq<seq<Block>>): (r: seq<Block>)
    requires OnChain(net, x, start)
    ensures OnChain(net, x, r)
  {
    if chains == [] then start
    else Next(net, x, Offer(net, x, start, chains[..|chains| - 1]), Replace(chains[|chains| - 1]))
  }

  /** Every chain is valid, and no two blocks of theirs share a hash. */
  ghost predicate Candidates(net: Network, x: Extend, chains: seq<seq<Block>>) {
    && (forall c :: c in chains ==> OnChain(net, x, c))
    && (forall c, d :: c in chains && d in chains ==> Apart(c, d))
  }

  ghost predicate Apart(c: seq<Block>, d: seq<Block>) {
    forall i, j :: 0 <= i < |c| && 0 <= j < |d| && c[i].hash == d[j].hash ==> c[i] == d[j]
  }

  /** The finality guards let a node on `a` consider `b`: they part at or above the checkpoint, and not
      too deep below the tip of `a`. */
  ghost predicate Unguarded(net: Network, a: seq<Block>, b: seq<Block>) {
    var fork := Shared(a, b) - 1;
    fork >= net.checkpoint && |a| - 1 - fork <= MAX_REORG_DEPTH
  }

  ghost predicate AllUnguarded(net: Network, chains: seq<seq<Block>>) {
    forall c, d :: c in chains && d in chains ==> Unguarded(net, c, d)
  }

  lemma FromGenesis(net: Network, x: Extend, c: seq<Block>)
    requires OnChain(net, x, c)
    ensures c != [] && c[0] == net.cr.genesis
  {
    ReplayPrefix(x, net.cr.genesis, c, 1);
  }

  /** A valid chain that is offered is refused exactly by the guards, and otherwise the better of the
      two chains wins. */
  lemma OfferDecides(net: Network, x: Extend, a: seq<Block>, b: seq<Block>)
    requires OnChain(net, x, a) && OnChain(net, x, b) && Apart(a, b)
    ensures DecideChain(net, x, a, b) == Refused <==> !Unguarded(net, a, b)
    ensures Unguarded(net, a, b) ==>
      Next(net, x, a, Replace(b)) == if Better(RankOf(net.kit.work, b), RankOf(net.kit.work, a)) then b else a
    ensures !Unguarded(net, a, b) ==> Next(net, x, a, Replace(b)) == a
  {
    FromGenesis(net, x, a);
    FromGenesis(net, x, b);
    SplicedChain(a, b);
  }

  /** No offer of the run was refused by a guard. */
  ghost predicate NeverRefused(net: Network, x: Extend, start: seq<Block>, chains: seq<seq<Block>>)
    requires OnChain(net, x, start)
  {
    chains != [] ==>
      var rest := chains[..|chains| - 1];
      NeverRefused(net, x, start, rest) && DecideChain(net, x, Offer(net, x, start, rest), chains[|chains| - 1]) != Refused
  }

  /** A chain of a collection that none of the others outranks. */
  ghost predicate IsBest(work: Word -> nat, c: seq<Block>, chains: seq<seq<Block>>) {
    c in chains && forall d :: d in chains ==> !Better(RankOf(work, d), RankOf(work, c))
  }

  lemma BestStep(work: Word -> nat, c: seq<Block>, rest: seq<seq<Block>>, last: seq<Block>)
    requires IsBest(work, c, rest)
    ensures IsBest(work, if Better(RankOf(work, last), RankOf(work, c)) then last else c, rest + [last])
  {
    var best := if Better(RankOf(work, last), RankOf(work, c)) then last else c;
    assert best in rest + [last];
    forall d | d in rest + [last] ensures !Better(RankOf(work, d), RankOf(work, best)) {
      BetterOrder(RankOf(work, d), RankOf(work, last), RankOf(work, c));
      BetterOrder(RankOf(work, last), RankOf(work, d), RankOf(work, c));
    }
  }

  /** Wherever no guard interferes, a node ends on the best of the chains it started on and was
      offered. */
  lemma {:induction false} EndsOnBest(net: Network, x: Extend, start: seq<Block>, chains: seq<seq<Block>>)
    requires Candidates(net, x, [start] + chains) && OnChain(net, x, start) && NeverRefused(net, x, start, chains)
    ensures IsBest(net.kit.work, Offer(net, x, start, chains), [start] + chains)
    decreases |chains|
  {
    assert start in [start] + chains;
    if chains == [] {
      BetterOrder(RankOf(net.kit.work, start), RankOf(net.kit.work, start), RankOf(net.kit.work, start));
    } else {
      var n := |chains| - 1;
      var rest, last := chains[..n], chains[n];
      assert [start] + chains == ([start] + rest) + [last];
      EndsOnBest(net, x, start, rest);
      var now := Offer(net, x, start, rest);
      assert last in [start] + chains && now in [start] + chains;
      OfferDecides(net, x, now, last);
      BestStep(net.kit.work, now, [start] + rest, last);
    }
  }

  /** The guards keep out of it when no two of the chains part too deep or below the checkpoint. */
  lemma {:induction false} UnguardedNeverRefused(net: Network, x: Extend, start: seq<Block>, chains: seq<seq<Block>>)
    requires Candidates(net, x, [start] + chains) && OnChain(net, x, start) && AllUnguarded(net, [start] + chains)
    ensures NeverRefused(net, x, start, chains) && Offer(net, x, start, chains) in [start] + chains
    decreases |chains|
  {
    assert start in [start] + chains;
    if chains != [] {
      var n := |chains| - 1;
      var rest, last := chains[..n], chains[n];
      assert forall c :: c in [start] + rest ==> c in [start] + chains;
      UnguardedNeverRefused(net, x, start, rest);
      var now := Offer(net, x, start, rest);
      assert last in [start] + chains && now in [start] + chains;
      OfferDecides(net, x, now, last);
    }
  }

  /** Valid chains with one tip hash and no colliding blocks are one chain. */
  lemma {:induction false} TipDecides(net: Network, x: Extend, c: seq<Block>, d: seq<Block>)
    requires WellFormed(net, x) && OnChain(net, x, c) && OnChain(net, x, d) && Apart(c, d)
    requires c != [] && d != [] && c[|c| - 1].hash == d[|d| - 1].hash
    ensures c == d
    decreases |c|
  {
    var m, n := |c| - 1, |d| - 1;
    HeightIsPosition(x, net.cr, c, m);
    HeightIsPosition(x, net.cr, d, n);
    assert c[m] == d[n] && m == n;
    if m > 0 {
      LastLinks(net, x, c, m);
      LastLinks(net, x, d, n);
      TipDecides(net, x, c[..m], d[..n]);
      assert c == c[..m] + [c[m]] && d == d[..n] + [d[n]];
    } else {
      assert c == [c[0]] && d == [d[0]];
    }
  }

  lemma LastLinks(net: Network, x: Extend, c: seq<Block>, m: nat)
    requires WellFormed(net, x) && OnChain(net, x, c) && m == |c| - 1 && m > 0
    ensures OnChain(net, x, c[..m]) && c[m].prevHash == c[..m][m - 1].hash
  {
    TakenHeight(x, net.cr, c[..m], Replay(x, net.cr.genesis, c[..m]).value, c[m]);
  }

  lemma SameBest(net: Network, x: Extend, c: seq<Block>, d: seq<Block>, xs: seq<seq<Block>>, ys: seq<seq<Block>>)
    requires WellFormed(net, x) && OnChain(net, x, c) && OnChain(net, x, d) && Candidates(net, x, xs)
    requires (forall e :: e in xs <==> e in ys) && IsBest(net.kit.work, c, xs) && IsBest(net.kit.work, d, ys)
    ensures c == d
  {
    BetterOrder(RankOf(net.kit.work, c), RankOf(net.kit.work, d), RankOf(net.kit.work, c));
    FromGenesis(net, x, c);
    FromGenesis(net, x, d);
    TipDecides(net, x, c, d);
  }

  /** Two nodes that between them start on and are offered the same valid chains, each in its own
      order, end on the same chain, as long as no guard refused one of them an offer. */
  lemma Converges(net: Network, x: Extend, a: seq<Block>, xs: seq<seq<Block>>, b: seq<Block>, ys: seq<seq<Block>>)
    requires WellFormed(net, x) && OnChain(net, x, a) && OnChain(net, x, b) && Candidates(net, x, [a] + xs)
    requires forall c :: c in [a] + xs <==> c in [b] + ys
    requires NeverRefused(net, x, a, xs) && NeverRefused(net, x, b, ys)
    ensures Offer(net, x, a, xs) == Offer(net, x, b, ys)
  {
    EndsOnBest(net, x, a, xs);
    EndsOnBest(net, x, b, ys);
    SameBest(net, x, Offer(net, x, a, xs), Offer(net, x, b, ys), [a] + xs, [b] + ys);
  }

  /** In particular when no two of the chains part below the checkpoint or too deep. */
  lemma UnguardedConverges(net: Network, x: Extend, a: seq<Block>, xs: seq<seq<Block>>, b: seq<Block>, ys: seq<seq<Block>>)
    requires WellFormed(net, x) && OnChain(net, x, a) && OnChain(net, x, b) && Candidates(net, x, [a] + xs)
    requires (forall c :: c in [a] + xs <==> c in [b] + ys) && AllUnguarded(net, [a] + xs)
    ensures Offer(net, x, a, xs) == Offer(net, x, b, ys)
  {
    UnguardedNeverRefused(net, x, a, xs);
    UnguardedNeverRefused(net, x, b, ys);
    Converges(net, x, a, xs, b, ys);
  }

  /** All that the state-root checks of one offer can come upon is covered. */
  ghost predicate OfferWatched(net: Network, x: Extend, trust: Trust, start: seq<Block>, chains: seq<seq<Block>>, i: nat)
    requires OnChain(net, x, start) && i < |chains|
  {
    ChainWatched(net, x, trust, Offer(net, x, start, chains[..i]), chains[i])
  }

  ghost predicate OffersWatched(net: Network, x: Extend, trust: Trust, start: seq<Block>, chains: seq<seq<Block>>)
    requires OnChain(net, x, start)
  {
    forall i :: 0 <= i < |chains| ==> OfferWatched(net, x, trust, start, chains, i)
  }

  /** Offering a node chains in turn; `clean` tells whether no guard refused one. */
  method OfferAll(node: Node, chains: seq<seq<Block>>) returns (clean: bool)
    requires WellFormed(node.net, node.x) && Trusted(node.net.cr, node.net.scheme, node.trust) && node.Valid() && node.Backed()
    requires OffersWatched(node.net, node.x, node.trust, node.blocks, chains)
    modifies node, node.cache.Object()
    ensures node.Valid() && node.Backed() && node.blocks == Offer(node.net, node.x, old(node.blocks), chains)
    ensures clean <==> NeverRefused(node.net, node.x, old(node.blocks), chains)
  {
    clean := true;
    ghost var net, x, start := node.net, node.x, node.blocks;
    for i := 0 to |chains|
      invariant node.Valid() && node.Backed() && node.blocks == Offer(net, x, start, chains[..i])
      invariant clean <==> NeverRefused(net, x, start, chains[..i])
    {
      OfferStep(net, x, start, chains, i);
      assert OfferWatched(net, x, node.trust, start, chains, i);
      var v := node.ReplaceChain(chains[i]);
      clean := clean && v != Refused;
    }
    WholeSlice(chains);
  }

  lemma OfferStep(net: Network, x: Extend, start: seq<Block>, chains: seq<seq<Block>>, i: nat)
    requires OnChain(net, x, start) && i < |chains|
    ensures Offer(net, x, start, chains[..i + 1]) == Next(net, x, Offer(net, x, start, chains[..i]), Replace(chains[i]))
    ensures NeverRefused(net, x, start, chains[..i + 1]) <==>
      NeverRefused(net, x, start, chains[..i]) && DecideChain(net, x, Offer(net, x, start, chains[..i]), chains[i]) != Refused
  {
    SliceOfSlice(chains, i, i + 1);
  }
}
