/** Ancestry proofs: a block hash was the leaf at a stated position of a committed range. */
module Ancestry {
  import opened Bytes
  import opened Levels
  import opened Mmr

  datatype AncestryProof = AncestryProof(
    blockHash: Bytes,
    position: nat,
    leaves: nat,
    path: seq<Bytes>,
    pathRight: seq<bool>,
    peaks: seq<Bytes>,
    peakIndex: int)

  /** The perfect-subtree sizes of a count below `2^k`, tallest first. */
  function Sizes(n: nat, k: nat): (s: seq<nat>)
    requires n < Pow2(k)
    ensures n > 0 ==> s != []
    decreases k
  {
    if k == 0 then []
    else if n < Pow2(k - 1) then Sizes(n, k - 1)
    else [Pow2(k - 1)] + Sizes(n - Pow2(k - 1), k - 1)
  }

  /** Bit `b` of `n` splits the remainder below bit `b + 1`. */
  lemma BitSplits(n: nat, p: nat)
    requires p > 0
    ensures (n / p) % 2 == 1 <==> n % (2 * p) >= p
    ensures n % p == if n % (2 * p) >= p then n % (2 * p) - p else n % (2 * p)
  {
    var q, r := n / (2 * p), n % (2 * p);
    assert n == q * (2 * p) + r;
    if r >= p {
      DivModUnique(n, p, 2 * q + 1, r - p);
    } else {
      DivModUnique(n, p, 2 * q, r);
    }
  }

  lemma Pow2Of64()
    ensures Pow2(64) == U64_LIMIT
  {
    assert Pow2(8) == 256;
    assert Pow2(16) == 0x1_0000;
    assert Pow2(24) == 0x100_0000;
    assert Pow2(32) == U32_LIMIT;
    assert Pow2(40) == 0x100 * U32_LIMIT;
    assert Pow2(48) == 0x1_0000 * U32_LIMIT;
    assert Pow2(56) == 0x100_0000 * U32_LIMIT;
  }

  lemma {:induction false} SizesBound(n: nat, k: nat, k': nat)
    requires n < Pow2(k) && k <= k'
    ensures n < Pow2(k') && Sizes(n, k') == Sizes(n, k)
    decreases k' - k
  {
    if k < k' {
      SizesBound(n, k, k' - 1);
    }
  }

  /** The perfect-subtree sizes of a count, tallest first. */
  function SizesOf(n: nat): (s: seq<nat>)
    ensures n > 0 ==> s != []
  {
    BelowPow2(n);
    Sizes(n, n)
  }

  /** The set bits of a count below `2^w`, from the most significant down. */
  method SetBits(n: nat, w: nat) returns (out: seq<nat>)
    requires n < Pow2(w)
    ensures out == Sizes(n, w)
  {
    out := [];
    var bit := w;
    ghost var rem := n;
    DivModUnique(n, Pow2(w), 0, n);
    while bit > 0
      invariant 0 <= bit <= w && rem == n % Pow2(bit) && rem < Pow2(bit)
      invariant out + Sizes(rem, bit) == Sizes(n, w)
    {
      bit := bit - 1;
      BitSplits(n, Pow2(bit));
      if (n / Pow2(bit)) % 2 == 1 {
        out := out + [Pow2(bit)];
        rem := rem - Pow2(bit);
      }
    }
  }

  method PeakSizes(n: nat) returns (out: seq<nat>)
    requires n < U64_LIMIT
    ensures out == SizesOf(n)
  {
    Pow2Of64();
    out := SetBits(n, 64);
    BelowPow2(n);
    var w := 64;
    if n <= w {
      SizesBound(n, n, w);
    } else {
      SizesBound(n, w, n);
    }
  }

  /** Where the subtree with index `i` starts. */
  function Offset(sizes: seq<nat>, i: nat): (t: nat)
    requires i <= |sizes|
  {
    if i == 0 then 0 else Offset(sizes, i - 1) + sizes[i - 1]
  }

  /** What the verifier accepts against a root. */
  predicate Accepts(h: HashFn, p: AncestryProof, root: Digest)
    requires p.leaves < U64_LIMIT
  {
    var sizes := SizesOf(p.leaves);
    && p.leaves != 0 && 0 <= p.peakIndex < |p.peaks| == |sizes|
    && |p.path| == |p.pathRight|
    && Offset(sizes, p.peakIndex) <= p.position < Offset(sizes, p.peakIndex) + sizes[p.peakIndex]
    && Pow2(|p.path|) == sizes[p.peakIndex]
    && Climb(Joiner(h), Leaf(h, p.blockHash), p.position - Offset(sizes, p.peakIndex), p.path, p.pathRight)
       == Some(p.peaks[p.peakIndex])
    && h(RootPreimage(p.leaves, Bag(h, p.peaks))) == root
  }

  method VerifyAncestryProof(h: HashFn, p: AncestryProof, root: Digest) returns (ok: bool)
    requires p.leaves < U64_LIMIT
    ensures ok <==> Accepts(h, p, root)
  {
    if p.leaves == 0 || |p.peaks| == 0 {
      return false;
    }
    if p.peakIndex < 0 || p.peakIndex >= |p.peaks| || |p.path| != |p.pathRight| {
      return false;
    }
    var sizes := PeakSizes(p.leaves);
    if |sizes| != |p.peaks| {
      return false;
    }
    var offset := 0;
    for i := 0 to p.peakIndex
      invariant offset == Offset(sizes, i)
    {
      offset := offset + sizes[i];
    }
    var size := sizes[p.peakIndex];
    if p.position < offset || p.position >= offset + size || Pow2(|p.path|) != size {
      return false;
    }
    var acc: Bytes := Leaf(h, p.blockHash);
    var idx: nat := p.position - offset;
    for i := 0 to |p.path|
      invariant Climb(Joiner(h), acc, idx, p.path[i..], p.pathRight[i..])
             == Climb(Joiner(h), Leaf(h, p.blockHash), p.position - offset, p.path, p.pathRight)
    {
      if p.pathRight[i] != (idx % 2 == 0) {
        return false;
      }
      acc := Step(Joiner(h), acc, p.path[i], p.pathRight[i]);
      idx := idx / 2;
    }
    if acc != p.peaks[p.peakIndex] {
      return false;
    }
    var d := FoldPeaks(h, p.peaks, p.leaves);
    ok := d == root;
  }
}
