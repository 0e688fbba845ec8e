/** Soundness of ancestry proofs: an accepted proof forces the claimed hash to be the leaf at the
    claimed position, or exhibits two preimages with one digest. */
module AncestrySound {
  import opened Bytes
  import opened Levels
  import opened Mmr
  import opened Ancestry
  import opened AncestryLaws

  ghost predicate Digests(level: seq<Bytes>) {
    forall i :: 0 <= i < |level| ==> |level[i]| == DIGEST_LEN
  }

  lemma {:induction false} LevelRootWidth(h: HashFn, level: seq<Bytes>, k: nat)
    requires |level| == Pow2(k) && Digests(level)
    ensures |LevelRoot(Joiner(h), level, k)| == DIGEST_LEN
    decreases k
  {
    if k > 0 {
      LevelRootWidth(h, PairUp(Joiner(h), level, Pow2(k - 1)), k - 1);
    }
  }

  /** Every node preimage hashed to fold a level into its root is in `xs`. */
  ghost predicate LevelHashed(h: HashFn, level: seq<Bytes>, k: nat, xs: iset<Bytes>)
    requires |level| == Pow2(k)
    decreases k
  {
    k > 0 ==>
      && (forall i :: 0 <= i < Pow2(k - 1) ==> NodePreimage(level[2 * i], level[2 * i + 1]) in xs)
      && LevelHashed(h, PairUp(Joiner(h), level, Pow2(k - 1)), k - 1, xs)
  }

  function StepPreimage(acc: Bytes, sib: Bytes, right: bool): (b: Bytes) {
    if right then NodePreimage(acc, sib) else NodePreimage(sib, acc)
  }

  /** Every node preimage the verifier hashes while climbing is in `ys`. */
  ghost predicate ClimbHashed(h: HashFn, acc: Bytes, path: seq<Bytes>, right: seq<bool>, ys: iset<Bytes>)
    requires |path| == |right|
    decreases |path|
  {
    path != [] ==>
      && StepPreimage(acc, path[0], right[0]) in ys
      && ClimbHashed(h, Step(Joiner(h), acc, path[0], right[0]), path[1..], right[1..], ys)
  }

  /** A step whose preimage is a node's preimage joined that node's own child: the sibling may be
      any bytes, but the climbing digest has fixed width. */
  lemma StepUnique(acc: Bytes, sib: Bytes, right: bool, l: Bytes, r: Bytes)
    requires |acc| == |l| == |r| == DIGEST_LEN && StepPreimage(acc, sib, right) == NodePreimage(l, r)
    ensures acc == if right then l else r
  {
    if right {
      SplitUnique([1] + acc, sib, [1] + l, r);
      SplitUnique([1], acc, [1], l);
    } else {
      SplitUnique([1] + sib, acc, [1] + l, r);
    }
  }

  /** The parent reached by a true step is the level's own parent only from the level's own child. */
  lemma ParentOpens(h: HashFn, acc: Bytes, idx: nat, sib: Bytes, level: seq<Bytes>, n: nat, up: seq<Bytes>,
                    xs: iset<Bytes>, ys: iset<Bytes>)
    requires |level| == 2 * n && idx < |level| && Digests(level) && |acc| == DIGEST_LEN
    requires NodePreimage(level[2 * (idx / 2)], level[2 * (idx / 2) + 1]) in xs && StepPreimage(acc, sib, idx % 2 == 0) in ys
    requires up == PairUp(Joiner(h), level, n)
    requires Step(Joiner(h), acc, sib, idx % 2 == 0) == up[idx / 2] || CollisionAcross(h, xs, ys)
    ensures acc == level[idx] || CollisionAcross(h, xs, ys)
  {
    var i, right := idx / 2, idx % 2 == 0;
    var pre, step := NodePreimage(level[2 * i], level[2 * i + 1]), StepPreimage(acc, sib, right);
    if h(pre) == h(step) {
      CollisionOrEqual(h, pre, step, xs, ys);
      if pre == step {
        StepUnique(acc, sib, right, level[2 * i], level[2 * i + 1]);
      }
    }
  }

  /** A climb from `acc` at `idx` to the root of a level, all hashes of both sides recorded. */
  ghost predicate ClimbsTo(h: HashFn, acc: Bytes, idx: nat, path: seq<Bytes>, right: seq<bool>,
                           level: seq<Bytes>, k: nat, xs: iset<Bytes>, ys: iset<Bytes>)
  {
    && |path| == |right| == k && |level| == Pow2(k) && idx < Pow2(k) && Digests(level) && |acc| == DIGEST_LEN
    && Climb(Joiner(h), acc, idx, path, right) == Some(LevelRoot(Joiner(h), level, k))
    && LevelHashed(h, level, k, xs) && ClimbHashed(h, acc, path, right, ys)
  }

  lemma ClimbOpens(h: HashFn, acc: Bytes, idx: nat, path: seq<Bytes>, right: seq<bool>, level: seq<Bytes>, k: nat,
                   xs: iset<Bytes>, ys: iset<Bytes>) returns (acc': Bytes, up: seq<Bytes>)
    requires k > 0 && ClimbsTo(h, acc, idx, path, right, level, k, xs, ys)
    ensures ClimbsTo(h, acc', idx / 2, path[1..], right[1..], up, k - 1, xs, ys)
    ensures acc' == up[idx / 2] || CollisionAcross(h, xs, ys) ==> acc == level[idx] || CollisionAcross(h, xs, ys)
  {
    acc', up := Step(Joiner(h), acc, path[0], right[0]), PairUp(Joiner(h), level, Pow2(k - 1));
    if acc' == up[idx / 2] {
      ParentOpens(h, acc, idx, path[0], level, Pow2(k - 1), up, xs, ys);
    }
  }

  /** A climb that reaches the root started at the level's own node, or two preimages collide. */
  lemma {:induction false} ClimbSound(h: HashFn, acc: Bytes, idx: nat, path: seq<Bytes>, right: seq<bool>,
                                      level: seq<Bytes>, k: nat, xs: iset<Bytes>, ys: iset<Bytes>)
    requires ClimbsTo(h, acc, idx, path, right, level, k, xs, ys)
    ensures acc == level[idx] || CollisionAcross(h, xs, ys)
    decreases k
  {
    if k > 0 {
      var acc', up := ClimbOpens(h, acc, idx, path, right, level, k, xs, ys);
      ClimbSound(h, acc', idx / 2, path[1..], right[1..], up, k - 1, xs, ys);
    }
  }

  /** Every preimage hashed while bagging peaks is in `xs`. */
  ghost predicate BagHashed(h: HashFn, peaks: seq<Bytes>, xs: iset<Bytes>)
    requires peaks != []
  {
    |peaks| > 1 ==> NodePreimage(peaks[0], Bag(h, peaks[1..])) in xs && BagHashed(h, peaks[1..], xs)
  }

  lemma BagWidth(h: HashFn, peaks: seq<Bytes>)
    requires peaks != [] && (|peaks| == 1 ==> |peaks[0]| == DIGEST_LEN)
    ensures |Bag(h, peaks)| == DIGEST_LEN
  {
  }

  lemma BagHeads(x: Bytes, xs: Bytes, y: Bytes, ys: Bytes)
    requires NodePreimage(x, xs) == NodePreimage(y, ys)
    requires |y| == |ys| == DIGEST_LEN && (|x| == DIGEST_LEN || |xs| == DIGEST_LEN)
    ensures x == y && xs == ys
  {
    SplitUnique([1] + x, xs, [1] + y, ys);
    SplitUnique([1], x, [1], y);
  }

  /** Equal bags force the peak of digest width: the others may be any bytes, and the last two
      may even trade bytes, but not with a peak whose width is fixed. */
  lemma {:induction false} BagSound(h: HashFn, ps: seq<Bytes>, qs: seq<Bytes>, j: nat, xs: iset<Bytes>, ys: iset<Bytes>)
    requires |ps| == |qs| > 0 && j < |ps| && Digests(qs) && |ps[j]| == DIGEST_LEN
    requires Bag(h, ps) == Bag(h, qs) && BagHashed(h, qs, xs) && BagHashed(h, ps, ys)
    ensures ps[j] == qs[j] || CollisionAcross(h, xs, ys)
    decreases |ps|
  {
    if |ps| > 1 {
      var ps', qs' := ps[1..], qs[1..];
      var p, q := NodePreimage(ps[0], Bag(h, ps')), NodePreimage(qs[0], Bag(h, qs'));
      CollisionOrEqual(h, q, p, xs, ys);
      if p == q {
        BagWidth(h, qs');
        assert j == 0 || ps'[j - 1] == ps[j];
        BagHeads(ps[0], Bag(h, ps'), qs[0], Bag(h, qs'));
        if j > 0 {
          BagSound(h, ps', qs', j - 1, xs, ys);
        }
      }
    }
  }

  lemma RootUnique(n: nat, a: Bytes, m: nat, b: Bytes)
    requires n < U64_LIMIT && m < U64_LIMIT && RootPreimage(n, a) == RootPreimage(m, b)
    ensures n == m && a == b
  {
    SplitUnique([2] + U64(n), a, [2] + U64(m), b);
    SplitUnique([2], U64(n), [2], U64(m));
    U64Unique(n, m);
  }

  ghost predicate ChunkHashed(h: HashFn, chunk: seq<Bytes>, k: nat, xs: iset<Bytes>) {
    |chunk| == Pow2(k) ==> LevelHashed(h, LeafLevel(h, chunk), k, xs)
  }

  /** Every preimage hashed to commit a range is in `xs`: its leaves, the nodes of each chunk, the
      bagged peaks and the root. */
  ghost predicate RangeHashed(h: HashFn, blocks: seq<Bytes>, xs: iset<Bytes>) {
    && (blocks == [] ==> EMPTY_RANGE in xs)
    && (forall i :: 0 <= i < |blocks| ==> LeafPreimage(blocks[i]) in xs)
    && (forall j, k :: 0 <= j < |ChunksOf(blocks)| ==> ChunkHashed(h, ChunksOf(blocks)[j], k, xs))
    && (blocks != [] ==> PeaksOf(h, blocks) != [] && PeaksHashed(h, |blocks|, Roots(PeaksOf(h, blocks)), xs))
  }

  ghost predicate PeaksHashed(h: HashFn, leaves: nat, peaks: seq<Bytes>, xs: iset<Bytes>)
    requires peaks != []
  {
    BagHashed(h, peaks, xs) && RootPreimage(leaves, Bag(h, peaks)) in xs
  }

  /** Every preimage the verifier hashes is in `ys`. */
  ghost predicate ProofHashed(h: HashFn, p: AncestryProof, ys: iset<Bytes>) {
    && |p.path| == |p.pathRight| && p.peaks != []
    && LeafPreimage(p.blockHash) in ys
    && ClimbHashed(h, Leaf(h, p.blockHash), p.path, p.pathRight, ys)
    && PeaksHashed(h, p.leaves, p.peaks, ys)
  }

  lemma {:induction false} ClimbWidth(h: HashFn, acc: Bytes, idx: nat, path: seq<Bytes>, right: seq<bool>)
    requires |path| == |right| && |acc| == DIGEST_LEN && Climb(Joiner(h), acc, idx, path, right).Some?
    ensures |Climb(Joiner(h), acc, idx, path, right).value| == DIGEST_LEN
    decreases |path|
  {
    if path != [] {
      ClimbWidth(h, Step(Joiner(h), acc, path[0], right[0]), idx / 2, path[1..], right[1..]);
    }
  }

  lemma PeakWidths(h: HashFn, blocks: seq<Bytes>)
    requires |PeaksOf(h, blocks)| == |SizesOf(|blocks|)|
    ensures Digests(Roots(PeaksOf(h, blocks)))
  {
    forall j | 0 <= j < |PeaksOf(h, blocks)|
      ensures |PeaksOf(h, blocks)[j].root| == DIGEST_LEN
    {
      PeakRoots(h, blocks, j);
      LevelRootWidth(h, LeafLevel(h, ChunksOf(blocks)[j]), PeaksOf(h, blocks)[j].height);
    }
  }

  /** Equal committed roots force equal counts and, at digest width, equal peaks. */
  lemma BaggedSound(h: HashFn, n: nat, qs: seq<Bytes>, m: nat, ps: seq<Bytes>, j: nat, xs: iset<Bytes>, ys: iset<Bytes>)
    requires qs != [] && ps != [] && n < U64_LIMIT && m < U64_LIMIT && j < |ps| && (n == m ==> |ps| == |qs|)
    requires Digests(qs) && |ps[j]| == DIGEST_LEN && PeaksHashed(h, n, qs, xs) && PeaksHashed(h, m, ps, ys)
    requires h(RootPreimage(n, Bag(h, qs))) == h(RootPreimage(m, Bag(h, ps)))
    ensures CollisionAcross(h, xs, ys) || (n == m && ps[j] == qs[j])
  {
    var truth, mine := RootPreimage(n, Bag(h, qs)), RootPreimage(m, Bag(h, ps));
    CollisionOrEqual(h, truth, mine, xs, ys);
    if truth == mine {
      RootUnique(n, Bag(h, qs), m, Bag(h, ps));
      BagSound(h, ps, qs, j, xs, ys);
    }
  }

  /** The bagged part: an accepted proof states the range's own count and its own peak, or a
      collision is at hand. */
  lemma PeakForced(h: HashFn, blocks: seq<Bytes>, p: AncestryProof, xs: iset<Bytes>, ys: iset<Bytes>)
    requires |blocks| < U64_LIMIT && p.leaves < U64_LIMIT && Accepts(h, p, RangeRoot(h, blocks))
    requires RangeHashed(h, blocks, xs) && ProofHashed(h, p, ys)
    ensures
      || CollisionAcross(h, xs, ys)
      || (&& blocks != [] && p.leaves == |blocks| && p.peakIndex < |PeaksOf(h, blocks)|
          && p.peaks[p.peakIndex] == PeaksOf(h, blocks)[p.peakIndex].root)
  {
    var mine, j := RootPreimage(p.leaves, Bag(h, p.peaks)), p.peakIndex;
    if blocks == [] {
      assert mine[0] == 2 && EMPTY_RANGE[0] == 100;
      CollisionOrEqual(h, EMPTY_RANGE, mine, xs, ys);
    } else {
      PeaksLineUp(h, blocks);
      PeakWidths(h, blocks);
      ClimbWidth(h, Leaf(h, p.blockHash), p.position - Offset(SizesOf(p.leaves), j), p.path, p.pathRight);
      BaggedSound(h, |blocks|, Roots(PeaksOf(h, blocks)), p.leaves, p.peaks, j, xs, ys);
    }
  }

  lemma {:induction false} Pow2Unique(a: nat, b: nat)
    requires Pow2(a) == Pow2(b)
    ensures a == b
  {
    if a > 0 && b > 0 {
      Pow2Unique(a - 1, b - 1);
    }
  }

  /** Inside one chunk, a climb to the chunk's root starts at the block at that index. */
  lemma LeafForced(h: HashFn, block: Bytes, idx: nat, path: seq<Bytes>, right: seq<bool>, chunk: seq<Bytes>, k: nat,
                   xs: iset<Bytes>, ys: iset<Bytes>)
    requires |path| == |right| == k && |chunk| == Pow2(k) && idx < |chunk|
    requires Climb(Joiner(h), Leaf(h, block), idx, path, right) == Some(SubtreeRoot(h, chunk, k))
    requires LevelHashed(h, LeafLevel(h, chunk), k, xs) && LeafPreimage(chunk[idx]) in xs
    requires ClimbHashed(h, Leaf(h, block), path, right, ys) && LeafPreimage(block) in ys
    ensures block == chunk[idx] || CollisionAcross(h, xs, ys)
  {
    ClimbSound(h, Leaf(h, block), idx, path, right, LeafLevel(h, chunk), k, xs, ys);
    if Leaf(h, block) == Leaf(h, chunk[idx]) {
      CollisionOrEqual(h, LeafPreimage(chunk[idx]), LeafPreimage(block), xs, ys);
      if LeafPreimage(chunk[idx]) == LeafPreimage(block) {
        SplitUnique([0], chunk[idx], [0], block);
      }
    }
  }

  /** A climb to peak `j` of a range starts at the block at the stated position. */
  lemma PositionForced(h: HashFn, blocks: seq<Bytes>, block: Bytes, position: nat, path: seq<Bytes>, right: seq<bool>,
                       j: nat, off: nat, xs: iset<Bytes>, ys: iset<Bytes>)
    requires j < |SizesOf(|blocks|)| && off == Offset(SizesOf(|blocks|), j) && RangeHashed(h, blocks, xs)
    requires off <= position < off + SizesOf(|blocks|)[j] && j < |PeaksOf(h, blocks)|
    requires |path| == |right| && Pow2(|path|) == SizesOf(|blocks|)[j]
    requires Climb(Joiner(h), Leaf(h, block), position - off, path, right) == Some(PeaksOf(h, blocks)[j].root)
    requires ClimbHashed(h, Leaf(h, block), path, right, ys) && LeafPreimage(block) in ys
    ensures (position < |blocks| && block == blocks[position]) || CollisionAcross(h, xs, ys)
  {
    ChunkHolds(blocks, SizesOf(|blocks|), j, off, position);
    PeakRoots(h, blocks, j);
    var chunk, k := ChunksOf(blocks)[j], PeaksOf(h, blocks)[j].height;
    Pow2Unique(|path|, k);
    assert ChunkHashed(h, chunk, k, xs);
    assert LeafPreimage(blocks[position]) in xs;
    LeafForced(h, block, position - off, path, right, chunk, k, xs, ys);
  }

  /** Soundness: against the root of a range, an accepted proof's hash is the block at its stated
      position, or two distinct preimages collide, one hashed to commit the range and one hashed
      by the verifier. */
  lemma ProofForcesLeaf(h: HashFn, blocks: seq<Bytes>, p: AncestryProof, xs: iset<Bytes>, ys: iset<Bytes>)
    requires |blocks| < U64_LIMIT && p.leaves < U64_LIMIT && Accepts(h, p, RangeRoot(h, blocks))
    requires RangeHashed(h, blocks, xs) && ProofHashed(h, p, ys)
    ensures
      || (p.leaves == |blocks| && p.position < |blocks| && p.blockHash == blocks[p.position])
      || CollisionAcross(h, xs, ys)
  {
    PeakForced(h, blocks, p, xs, ys);
    var j := p.peakIndex;
    if p.leaves == |blocks| && j < |PeaksOf(h, blocks)| && p.peaks[j] == PeaksOf(h, blocks)[j].root {
      var off := Offset(SizesOf(|blocks|), j);
      PositionForced(h, blocks, p.blockHash, p.position, p.path, p.pathRight, j, off, xs, ys);
    }
  }
}
