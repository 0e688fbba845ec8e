/** Building ancestry proofs, and what an accepted one forces. */
module AncestryLaws {
  import opened Bytes
  import opened Levels
  import opened Mmr
  import opened Ancestry

  lemma {:induction false} OffsetCons(x: nat, s: seq<nat>, i: nat)
    requires i <= |s|
    ensures Offset([x] + s, i + 1) == x + Offset(s, i)
  {
    if i > 0 {
      OffsetCons(x, s, i - 1);
    }
  }

  lemma {:induction false} OffsetTotal(n: nat, k: nat)
    requires n < Pow2(k)
    ensures Offset(Sizes(n, k), |Sizes(n, k)|) == n
    decreases k
  {
    if k > 0 {
      if n < Pow2(k - 1) {
        OffsetTotal(n, k - 1);
      } else {
        var rest := Sizes(n - Pow2(k - 1), k - 1);
        OffsetTotal(n - Pow2(k - 1), k - 1);
        OffsetCons(Pow2(k - 1), rest, |rest|);
      }
    }
  }

  /** The perfect chunks of a sequence shorter than `2^k`, longest first. */
  ghost function Chunks<B>(s: seq<B>, k: nat): (cs: seq<seq<B>>)
    requires |s| < Pow2(k)
    ensures |cs| == |Sizes(|s|, k)|
    decreases k
  {
    if k == 0 then []
    else if |s| < Pow2(k - 1) then Chunks(s, k - 1)
    else [s[..Pow2(k - 1)]] + Chunks(s[Pow2(k - 1)..], k - 1)
  }

  /** Chunk `j` starts where the sizes before it end. */
  lemma {:induction false} ChunkPlace<B>(s: seq<B>, k: nat, j: nat)
    requires |s| < Pow2(k) && j < |Sizes(|s|, k)|
    ensures |Chunks(s, k)[j]| == Sizes(|s|, k)[j]
    ensures Offset(Sizes(|s|, k), j) + Sizes(|s|, k)[j] <= |s|
    ensures forall i :: 0 <= i < |Chunks(s, k)[j]| ==> Chunks(s, k)[j][i] == s[Offset(Sizes(|s|, k), j) + i]
    decreases k
  {
    var n := Pow2(k - 1);
    if |s| < n {
      ChunkPlace(s, k - 1, j);
    } else if j > 0 {
      var rest, sizes := s[n..], Sizes(|s| - n, k - 1);
      ChunkPlace(rest, k - 1, j - 1);
      OffsetCons(n, sizes, j - 1);
      assert Chunks(s, k)[j] == Chunks(rest, k - 1)[j - 1] && Sizes(|s|, k)[j] == sizes[j - 1];
    }
  }

  ghost predicate PeakCovers(h: HashFn, chunk: seq<Bytes>, p: Peak) {
    |chunk| == Pow2(p.height) && p.root == SubtreeRoot(h, chunk, p.height)
  }

  lemma FirstChunk(h: HashFn, blocks: seq<Bytes>, i: nat)
    requires Pow2(i) <= |blocks| < Pow2(i + 1)
    ensures Chunks(blocks, i + 1) == [blocks[..Pow2(i)]] + Chunks(blocks[Pow2(i)..], i)
    ensures Peaks(h, blocks, i + 1) == [Peak(SubtreeRoot(h, blocks[..Pow2(i)], i), i)] + Peaks(h, blocks[Pow2(i)..], i)
  {
  }

  lemma {:induction false} PeakOfChunk(h: HashFn, blocks: seq<Bytes>, k: nat, j: nat)
    requires |blocks| < Pow2(k) && j < |Chunks(blocks, k)|
    ensures j < |Peaks(h, blocks, k)| && PeakCovers(h, Chunks(blocks, k)[j], Peaks(h, blocks, k)[j])
    decreases k
  {
    var i := k - 1;
    if |blocks| < Pow2(i) {
      PeakOfChunk(h, blocks, i, j);
    } else {
      FirstChunk(h, blocks, i);
      if j > 0 {
        PeakOfChunk(h, blocks[Pow2(i)..], i, j - 1);
      }
    }
  }

  lemma {:induction false} PeaksCount(h: HashFn, blocks: seq<Bytes>, k: nat)
    requires |blocks| < Pow2(k)
    ensures |Peaks(h, blocks, k)| == |Sizes(|blocks|, k)|
    decreases k
  {
    if k > 0 {
      if |blocks| < Pow2(k - 1) {
        PeaksCount(h, blocks, k - 1);
      } else {
        PeaksCount(h, blocks[Pow2(k - 1)..], k - 1);
      }
    }
  }

  ghost function ChunksOf<B>(s: seq<B>): (cs: seq<seq<B>>)
    ensures |cs| == |SizesOf(|s|)|
  {
    BelowPow2(|s|);
    Chunks(s, |s|)
  }

  /** A range's chunk `j` is the slice its sizes say. */
  lemma ChunkSlice<B>(s: seq<B>, sizes: seq<nat>, j: nat, off: nat)
    requires sizes == SizesOf(|s|) && j < |sizes| && off == Offset(sizes, j)
    ensures off + sizes[j] <= |s| && s[off..off + sizes[j]] == ChunksOf(s)[j]
  {
    BelowPow2(|s|);
    ChunkPlace(s, |s|, j);
  }

  /** A position inside chunk `j` finds its block there. */
  lemma ChunkHolds<B>(s: seq<B>, sizes: seq<nat>, j: nat, off: nat, position: nat)
    requires sizes == SizesOf(|s|) && j < |sizes| && off == Offset(sizes, j) && off <= position < off + sizes[j]
    ensures position < |s| && |ChunksOf(s)[j]| == sizes[j] && ChunksOf(s)[j][position - off] == s[position]
  {
    ChunkSlice(s, sizes, j, off);
  }

  lemma PeaksLineUp(h: HashFn, blocks: seq<Bytes>)
    ensures |PeaksOf(h, blocks)| == |SizesOf(|blocks|)|
  {
    BelowPow2(|blocks|);
    PeaksCount(h, blocks, |blocks|);
  }

  /** Peak `j` is the root of chunk `j`. */
  lemma PeakRoots(h: HashFn, blocks: seq<Bytes>, j: nat)
    requires j < |ChunksOf(blocks)|
    ensures j < |PeaksOf(h, blocks)| && PeakCovers(h, ChunksOf(blocks)[j], PeaksOf(h, blocks)[j])
  {
    BelowPow2(|blocks|);
    PeakOfChunk(h, blocks, |blocks|, j);
  }

  lemma TakeSnoc<B>(s: seq<B>, i: nat)
    requires i < |s|
    ensures s[..i + 1] == s[..i] + [s[i]]
  {
  }

  lemma OffsetWhole(n: nat)
    ensures Offset(SizesOf(n), |SizesOf(n)|) == n
  {
    BelowPow2(n);
    OffsetTotal(n, n);
  }

  /** A climb to one of the range's own peaks is what the verifier accepts. */
  lemma ProofAccepted(h: HashFn, blocks: seq<Bytes>, p: AncestryProof)
    requires |blocks| < U64_LIMIT && p.leaves == |blocks| && p.position < |blocks| && p.blockHash == blocks[p.position]
    requires p.peaks == Roots(PeaksOf(h, blocks)) && |p.peaks| == |SizesOf(|blocks|)| && p.peakIndex >= 0
    requires Climbs(h, blocks, SizesOf(|blocks|), p.position, p.peakIndex, p.path, p.pathRight, p.peaks)
    ensures Accepts(h, p, RangeRoot(h, blocks))
  {
    BelowPow2(|blocks|);
  }

  /** Proves that `blocks[position]` is in the range formed by all of `blocks`; the proof passes
      the verifier against the range's root. */
  method BuildAncestryProof(h: HashFn, blocks: seq<Bytes>, position: nat) returns (r: Result<AncestryProof>)
    requires |blocks| < U64_LIMIT
    ensures r.Ok? <==> position < |blocks|
    ensures r.Ok? ==>
      && r.value.blockHash == blocks[position] && r.value.position == position && r.value.leaves == |blocks|
      && Accepts(h, r.value, RangeRoot(h, blocks))
  {
    if position >= |blocks| {
      return Err;
    }
    var sizes := PeakSizes(|blocks|);
    ghost var want := Roots(PeaksOf(h, blocks));
    var peaks: seq<Bytes>, path: seq<Bytes>, right: seq<bool>, peakIndex, offset: nat := [], [], [], -1, 0;
    PeaksLineUp(h, blocks);
    for i := 0 to |sizes|
      invariant offset == Offset(sizes, i) && peaks == want[..i]
      invariant peakIndex < 0 ==> position >= offset
      invariant peakIndex >= 0 ==> peakIndex < i && Climbs(h, blocks, sizes, position, peakIndex, path, right, want)
    {
      var inside, p, r', root := PeakAndPath(h, blocks, sizes, i, offset, position, want);
      if inside {
        peakIndex, path, right := i, p, r';
      }
      TakeSnoc(want, i);
      peaks := peaks + [root];
      offset := offset + sizes[i];
    }
    OffsetWhole(|blocks|);
    r := Ok(AncestryProof(blocks[position], position, |blocks|, path, right, peaks, peakIndex));
    ProofAccepted(h, blocks, r.value);
  }

  /** One peak, with the climbing path when the position falls inside its chunk. */
  method PeakAndPath(h: HashFn, blocks: seq<Bytes>, sizes: seq<nat>, i: nat, offset: nat, position: nat,
                     ghost roots: seq<Bytes>)
    returns (inside: bool, path: seq<Bytes>, right: seq<bool>, root: Bytes)
    requires sizes == SizesOf(|blocks|) && i < |sizes| && offset == Offset(sizes, i) && position < |blocks|
    requires roots == Roots(PeaksOf(h, blocks)) && |roots| == |sizes|
    ensures inside <==> offset <= position < offset + sizes[i]
    ensures root == roots[i]
    ensures inside ==> Climbs(h, blocks, sizes, position, i, path, right, roots)
  {
    ChunkSlice(blocks, sizes, i, offset);
    PeakRoots(h, blocks, i);
    var chunk := blocks[offset..offset + sizes[i]];
    inside := offset <= position < offset + sizes[i];
    path, right, root := ChunkPath(h, chunk, if inside then position - offset else 0, PeaksOf(h, blocks)[i].height);
    if inside {
      ClimbsHere(h, blocks, sizes, position, i, path, right, roots);
    }
  }

  /** One chunk's root, with the path that climbs to it from the block at `idx`. */
  method ChunkPath(h: HashFn, chunk: seq<Bytes>, idx: nat, ghost k: nat)
    returns (path: seq<Bytes>, right: seq<bool>, root: Bytes)
    requires |chunk| == Pow2(k) && idx < |chunk|
    ensures |path| == |right| == k && root == SubtreeRoot(h, chunk, k)
    ensures Climb(Joiner(h), Leaf(h, chunk[idx]), idx, path, right) == Some(root)
  {
    path, right, root := PathToRoot(Joiner(h), LeafLevel(h, chunk), idx, k);
    PathClimbs(Joiner(h), LeafLevel(h, chunk), k, idx);
  }

  lemma ClimbsHere(h: HashFn, blocks: seq<Bytes>, sizes: seq<nat>, position: nat, i: nat,
                   path: seq<Bytes>, right: seq<bool>, peaks: seq<Bytes>)
    requires position < |blocks| && |peaks| == |sizes| && i < |sizes|
    requires |path| == |right| && Pow2(|path|) == sizes[i] && Offset(sizes, i) + sizes[i] <= |blocks|
    requires Offset(sizes, i) <= position < Offset(sizes, i) + sizes[i]
    requires var off := Offset(sizes, i); var chunk := blocks[off..off + sizes[i]];
             Climb(Joiner(h), Leaf(h, chunk[position - off]), position - off, path, right) == Some(peaks[i])
    ensures Climbs(h, blocks, sizes, position, i, path, right, peaks)
  {
  }

  ghost predicate Climbs(h: HashFn, blocks: seq<Bytes>, sizes: seq<nat>, position: nat, i: nat,
                         path: seq<Bytes>, right: seq<bool>, peaks: seq<Bytes>)
    requires position < |blocks| && |peaks| == |sizes|
  {
    && i < |sizes| && |path| == |right| && Pow2(|path|) == sizes[i]
    && Offset(sizes, i) <= position < Offset(sizes, i) + sizes[i]
    && Climb(Joiner(h), Leaf(h, blocks[position]), position - Offset(sizes, i), path, right) == Some(peaks[i])
  }
}
