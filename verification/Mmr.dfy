/** The Merkle Mountain Range over block hashes: what its peaks and root are, and the append
    that maintains them by binary increment. */
module Mmr {
  import opened Bytes
  import opened Levels

  function LeafPreimage(block: Bytes): (b: Bytes) { [0] + block }

  /** No length prefix: two children are told apart only when one of them has digest width. */
  function NodePreimage(l: Bytes, r: Bytes): (b: Bytes) { [1] + l + r }

  function RootPreimage(leaves: nat, bag: Bytes): (b: Bytes) { [2] + U64(leaves) + bag }

  function Leaf(h: HashFn, block: Bytes): (d: Digest) { h(LeafPreimage(block)) }

  function Node(h: HashFn, l: Bytes, r: Bytes): (d: Digest) { h(NodePreimage(l, r)) }

  /** The ASCII bytes of `dnas-mmr-empty`. */
  const EMPTY_RANGE: Bytes := [100, 110, 97, 115, 45, 109, 109, 114, 45, 101, 109, 112, 116, 121]

  function Joiner(h: HashFn): (j: (Bytes, Bytes) -> Bytes) {
    (l: Bytes, r: Bytes) => Node(h, l, r)
  }

  function LeafLevel(h: HashFn, blocks: seq<Bytes>): (level: seq<Bytes>)
    ensures |level| == |blocks|
    ensures forall i :: 0 <= i < |blocks| ==> level[i] == Leaf(h, blocks[i])
  {
    if blocks == [] then []
    else LeafLevel(h, blocks[..|blocks| - 1]) + [Leaf(h, blocks[|blocks| - 1])]
  }

  /** The root of the perfect subtree over `2^k` block hashes. */
  function SubtreeRoot(h: HashFn, blocks: seq<Bytes>, k: nat): (d: Bytes)
    requires |blocks| == Pow2(k)
  {
    LevelRoot(Joiner(h), LeafLevel(h, blocks), k)
  }

  lemma SubtreeJoins(h: HashFn, a: seq<Bytes>, b: seq<Bytes>, k: nat)
    requires |a| == |b| == Pow2(k)
    ensures SubtreeRoot(h, a + b, k + 1) == Node(h, SubtreeRoot(h, a, k), SubtreeRoot(h, b, k))
  {
    assert LeafLevel(h, a + b) == LeafLevel(h, a) + LeafLevel(h, b);
    LevelRootJoins(Joiner(h), LeafLevel(h, a), LeafLevel(h, b), k);
  }

  datatype Peak = Peak(root: Bytes, height: nat)

  /** The peaks of a range of fewer than `2^k` blocks: one perfect subtree per set bit of the
      count, tallest first. */
  ghost function Peaks(h: HashFn, blocks: seq<Bytes>, k: nat): (ps: seq<Peak>)
    requires |blocks| < Pow2(k)
    ensures forall i :: 0 <= i < |ps| ==> ps[i].height < k
    ensures ps == [] <==> blocks == []
    decreases k
  {
    if k == 0 then []
    else if |blocks| < Pow2(k - 1) then Peaks(h, blocks, k - 1)
    else
      var n := Pow2(k - 1);
      [Peak(SubtreeRoot(h, blocks[..n], k - 1), k - 1)] + Peaks(h, blocks[n..], k - 1)
  }

  /** Any bound on the count gives the same peaks. */
  lemma {:induction false} PeaksBound(h: HashFn, blocks: seq<Bytes>, k: nat, k': nat)
    requires |blocks| < Pow2(k) && k <= k'
    ensures |blocks| < Pow2(k') && Peaks(h, blocks, k') == Peaks(h, blocks, k)
    decreases k' - k
  {
    if k < k' {
      PeaksBound(h, blocks, k, k' - 1);
    }
  }

  lemma BelowPow2(n: nat)
    ensures n < Pow2(n)
  {
  }

  /** The peaks of a range, tallest first. */
  ghost function PeaksOf(h: HashFn, blocks: seq<Bytes>): (ps: seq<Peak>) {
    BelowPow2(|blocks|);
    Peaks(h, blocks, |blocks|)
  }

  /** Merges equal-height neighbours at the right end until none are left. */
  function Settle(h: HashFn, ps: seq<Peak>): (r: seq<Peak>)
    ensures ps != [] ==> r != []
    decreases |ps|
  {
    var n := |ps|;
    if n < 2 || ps[n - 1].height != ps[n - 2].height then ps
    else Settle(h, ps[..n - 2] + [Peak(Node(h, ps[n - 2].root, ps[n - 1].root), ps[n - 1].height + 1)])
  }

  /** A peak in front is only reached once everything after it has merged into one peak. */
  lemma {:induction false} SettleBehind(h: HashFn, a: Peak, ps: seq<Peak>)
    requires ps != []
    ensures Settle(h, [a] + ps) ==
            if |Settle(h, ps)| == 1 then Settle(h, [a] + Settle(h, ps)) else [a] + Settle(h, ps)
    decreases |ps|
  {
    var n := |ps|;
    if n >= 2 && ps[n - 1].height == ps[n - 2].height {
      var merged := Peak(Node(h, ps[n - 2].root, ps[n - 1].root), ps[n - 1].height + 1);
      assert ([a] + ps)[..n - 1] + [merged] == [a] + (ps[..n - 2] + [merged]);
      SettleBehind(h, a, ps[..n - 2] + [merged]);
    }
  }

  /** Settling behind a taller peak leaves it alone; behind an equal one it is absorbed. */
  lemma SettleUnder(h: HashFn, a: Peak, ps: seq<Peak>, rs: seq<Peak>)
    requires ps != [] && rs == Settle(h, ps)
    ensures |rs| != 1 || rs[0].height != a.height ==> Settle(h, [a] + ps) == [a] + rs
    ensures |rs| == 1 && rs[0].height == a.height ==>
      Settle(h, [a] + ps) == [Peak(Node(h, a.root, rs[0].root), a.height + 1)]
  {
    SettleBehind(h, a, ps);
    if |rs| == 1 {
      assert ([a] + rs)[..0] == [];
    }
  }

  lemma PeaksSplit(h: HashFn, a: seq<Bytes>, b: seq<Bytes>, k: nat)
    requires |a| == Pow2(k) && |b| < Pow2(k)
    ensures Peaks(h, a + b, k + 1) == [Peak(SubtreeRoot(h, a, k), k)] + Peaks(h, b, k)
  {
    assert (a + b)[..|a|] == a && (a + b)[|a|..] == b;
  }

  /** Appending behind a complete subtree of height `k`: the carry either stays in the rest of
      the range or merges with that subtree. */
  lemma CarryBehind(h: HashFn, a: seq<Bytes>, b: seq<Bytes>, x: Bytes, k: nat, rs: seq<Peak>)
    requires |a| == Pow2(k) && |b| < Pow2(k) && rs == Settle(h, Peaks(h, b, k) + [Peak(Leaf(h, x), 0)])
    ensures var top := SubtreeRoot(h, a, k);
            Settle(h, Peaks(h, a + b, k + 1) + [Peak(Leaf(h, x), 0)]) ==
            if |rs| == 1 && rs[0].height == k then [Peak(Node(h, top, rs[0].root), k + 1)] else [Peak(top, k)] + rs
  {
    var leaf, top := Peak(Leaf(h, x), 0), Peak(SubtreeRoot(h, a, k), k);
    PeaksSplit(h, a, b, k);
    assert Peaks(h, a + b, k + 1) + [leaf] == [top] + (Peaks(h, b, k) + [leaf]);
    SettleUnder(h, top, Peaks(h, b, k) + [leaf], rs);
  }

  /** One more block completes a range of `2^k - 1` into a single perfect subtree. */
  lemma {:induction false} FullCarry(h: HashFn, blocks: seq<Bytes>, x: Bytes, k: nat)
    requires |blocks| + 1 == Pow2(k)
    ensures Settle(h, Peaks(h, blocks, k) + [Peak(Leaf(h, x), 0)]) == [Peak(SubtreeRoot(h, blocks + [x], k), k)]
    decreases k
  {
    if k == 0 {
      assert Peaks(h, blocks, k) + [Peak(Leaf(h, x), 0)] == [Peak(Leaf(h, x), 0)];
    } else {
      var j := k - 1;
      var a, b := blocks[..Pow2(j)], blocks[Pow2(j)..];
      assert blocks == a + b && blocks + [x] == a + (b + [x]);
      FullCarry(h, b, x, j);
      CarryBehind(h, a, b, x, j, [Peak(SubtreeRoot(h, b + [x], j), j)]);
      SubtreeJoins(h, a, b + [x], j);
    }
  }

  /** Appending is binary increment: settling the old peaks with a new leaf gives exactly the
      peaks of the longer range. */
  lemma {:induction false} AppendSettles(h: HashFn, blocks: seq<Bytes>, x: Bytes, k: nat)
    requires |blocks| + 1 < Pow2(k)
    ensures Settle(h, Peaks(h, blocks, k) + [Peak(Leaf(h, x), 0)]) == Peaks(h, blocks + [x], k)
    decreases k
  {
    var j := k - 1;
    if |blocks| + 1 < Pow2(j) {
      AppendSettles(h, blocks, x, j);
    } else if |blocks| + 1 == Pow2(j) {
      FullCarry(h, blocks, x, j);
      PeaksSplit(h, blocks + [x], [], j);
      assert blocks + [x] + [] == blocks + [x];
    } else {
      var a, b := blocks[..Pow2(j)], blocks[Pow2(j)..];
      assert blocks == a + b && blocks + [x] == a + (b + [x]);
      AppendSettles(h, b, x, j);
      CarryBehind(h, a, b, x, j, Peaks(h, b + [x], j));
      PeaksSplit(h, a, b + [x], j);
    }
  }

  /** The peaks bagged right to left. */
  function Bag(h: HashFn, peaks: seq<Bytes>): (b: Bytes)
    requires peaks != []
  {
    if |peaks| == 1 then peaks[0] else Node(h, peaks[0], Bag(h, peaks[1..]))
  }

  method FoldPeaks(h: HashFn, peaks: seq<Bytes>, leaves: nat) returns (d: Digest)
    requires peaks != []
    ensures d == h(RootPreimage(leaves, Bag(h, peaks)))
  {
    var acc := peaks[|peaks| - 1];
    var i := |peaks| - 1;
    while i > 0
      invariant 0 <= i < |peaks| && acc == Bag(h, peaks[i..])
    {
      i := i - 1;
      acc := Node(h, peaks[i], acc);
      assert peaks[i..][1..] == peaks[i + 1..];
    }
    assert peaks[0..] == peaks;
    d := h(RootPreimage(leaves, acc));
  }

  ghost function Roots(ps: seq<Peak>): (rs: seq<Bytes>)
    ensures |rs| == |ps|
    ensures forall i :: 0 <= i < |ps| ==> rs[i] == ps[i].root
  {
    if ps == [] then [] else Roots(ps[..|ps| - 1]) + [ps[|ps| - 1].root]
  }

  /** The root recomputed from all the blocks of a range. */
  ghost function RangeRoot(h: HashFn, blocks: seq<Bytes>): (d: Digest) {
    if blocks == [] then h(EMPTY_RANGE)
    else
      BelowPow2(|blocks|);
      h(RootPreimage(|blocks|, Bag(h, Roots(PeaksOf(h, blocks)))))
  }

  ghost function Zip(roots: seq<Bytes>, heights: seq<nat>): (ps: seq<Peak>)
    requires |roots| == |heights|
    ensures |ps| == |roots|
    ensures forall i :: 0 <= i < |ps| ==> ps[i] == Peak(roots[i], heights[i])
  {
    if roots == [] then []
    else
      var n := |roots| - 1;
      Zip(roots[..n], heights[..n]) + [Peak(roots[n], heights[n])]
  }

  lemma AppendPeaks(h: HashFn, blocks: seq<Bytes>, x: Bytes)
    ensures Settle(h, PeaksOf(h, blocks) + [Peak(Leaf(h, x), 0)]) == PeaksOf(h, blocks + [x])
  {
    var k := |blocks| + 2;
    BelowPow2(|blocks|);
    BelowPow2(k - 1);
    PeaksBound(h, blocks, |blocks|, k);
    AppendSettles(h, blocks, x, k);
    PeaksBound(h, blocks + [x], k - 1, k);
  }

  class Range {
    const h: HashFn
    var peaks: seq<Bytes>
    var peakHeights: seq<nat>
    var leaves: nat
    /** The blocks appended so far, oldest first. */
    ghost var blocks: seq<Bytes>

    ghost predicate Valid()
      reads this
    {
      && |peaks| == |peakHeights|
      && leaves == |blocks|
      && Zip(peaks, peakHeights) == PeaksOf(h, blocks)
    }

    constructor (h: HashFn)
      ensures Valid() && this.h == h && blocks == []
    {
      this.h := h;
      peaks, peakHeights, leaves, blocks := [], [], 0, [];
    }

    /** Joins the last two peaks, which have equal height. */
    method Merge()
      requires |peaks| == |peakHeights| >= 2
      requires peakHeights[|peaks| - 1] == peakHeights[|peaks| - 2]
      modifies this`peaks, this`peakHeights
      ensures |peaks| == |peakHeights| == old(|peaks|) - 1
      ensures Settle(h, Zip(peaks, peakHeights)) == Settle(h, old(Zip(peaks, peakHeights)))
    {
      var n := |peaks|;
      ghost var cur := Zip(peaks, peakHeights);
      var merged := Node(h, peaks[n - 2], peaks[n - 1]);
      peaks := peaks[..n - 2] + [merged];
      peakHeights := peakHeights[..n - 2] + [peakHeights[n - 1] + 1];
      assert Zip(peaks, peakHeights) == cur[..n - 2] + [Peak(merged, cur[n - 1].height + 1)];
    }

    /** Adds a block hash: the peaks stay those of the binary decomposition of the count. */
    method Append(block: Bytes)
      requires Valid()
      modifies this
      ensures Valid() && blocks == old(blocks) + [block]
    {
      ghost var start := Zip(peaks, peakHeights) + [Peak(Leaf(h, block), 0)];
      peaks := peaks + [Leaf(h, block)];
      peakHeights := peakHeights + [0];
      assert Zip(peaks, peakHeights) == start;
      while |peaks| >= 2 && peakHeights[|peaks| - 1] == peakHeights[|peaks| - 2]
        invariant |peaks| == |peakHeights| && leaves == old(leaves) && blocks == old(blocks)
        invariant Settle(h, Zip(peaks, peakHeights)) == Settle(h, start)
        decreases |peaks|
      {
        Merge();
      }
      leaves := leaves + 1;
      AppendPeaks(h, blocks, block);
      blocks := blocks + [block];
    }

    /** The committed root is the one recomputed from every block appended. */
    method Root() returns (d: Digest)
      requires Valid()
      ensures d == RangeRoot(h, blocks)
    {
      if leaves == 0 {
        return h(EMPTY_RANGE);
      }
      assert peaks == Roots(Zip(peaks, peakHeights));
      BelowPow2(|blocks|);
      d := FoldPeaks(h, peaks, leaves);
    }
  }
}
