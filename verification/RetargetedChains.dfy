/** Chains whose blocks carry the retargeted bits: each block they take adds work. */
module RetargetedChains {
  import opened Bytes
  import opened Transactions
  import opened Ledger
  import opened Chain
  import opened ChainStore
  import opened NodeRuns
  import opened Target
  import opened Retarget

  /** The structure check demands the expected bits, and work is counted by target. */
  ghost predicate Retargets(net: Network, noRetarget: bool) {
    && (forall blocks, b {:trigger net.cr.structure(blocks, b)} ::
          net.cr.structure(blocks, b) ==> BitsOf(b) == BitsAt(blocks, |blocks|, noRetarget))
    && (forall bits: Word {:trigger net.kit.work(bits)} :: net.kit.work(bits) == BlockWork(bits % U32_LIMIT))
  }

  /** Then fork choice never sees a block without work, which is what keeps nodes from flapping. */
  lemma WorkIsPositive(net: Network, x: Extend, noRetarget: bool)
    requires Obeys(x, net.cr) && Retargets(net, noRetarget)
    ensures WorkPositive(net, x)
  {
    forall blocks, s, b | blocks != [] && x(blocks, s, b).Some? ensures net.kit.work(b.bits) > 0 {
      TakenBlock(x, net.cr, blocks, s, b);
      assert net.cr.structure(blocks, b);
      BitsHaveWork(blocks, b, noRetarget);
    }
  }

  lemma BitsHaveWork(blocks: seq<Block>, b: Block, noRetarget: bool)
    requires BitsOf(b) == BitsAt(blocks, |blocks|, noRetarget)
    ensures BlockWork(b.bits % U32_LIMIT) > 0
  {
    LimitUsable();
    if !noRetarget && |blocks| > WINDOW {
      RetargetBounds(blocks, |blocks|);
    }
    TargetHasWork(BitsOf(b));
  }
}
