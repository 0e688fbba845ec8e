/** The fork-choice rule: more work wins, and between equals the smaller tip hash. */
module ForkChoice {
  import opened Bytes
  import opened ByteOrder

  /** What fork choice looks at. */
  datatype Rank = Rank(work: nat, tip: Bytes)

  predicate Better(a: Rank, b: Rank) {
    a.work > b.work || (a.work == b.work && Before(a.tip, b.tip))
  }

  /** Adopting only better chains can never come back around. */
  lemma BetterOrder(a: Rank, b: Rank, c: Rank)
    ensures !Better(a, a)
    ensures Better(a, b) && Better(b, c) ==> Better(a, c)
    ensures a == b || Better(a, b) || Better(b, a)
  {
    BeforeIrreflexive(a.tip);
    BeforeTotal(a.tip, b.tip);
    if Before(a.tip, b.tip) && Before(b.tip, c.tip) {
      BeforeTransitive(a.tip, b.tip, c.tip);
    }
  }
}
