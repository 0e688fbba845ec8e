/** The target of the next block: a linearly weighted average over the last twenty. */
module Retarget {
  import opened Bytes
  import opened Transactions
  import opened Target

  const WINDOW := 20
  const BLOCK_TIME := 60
  const MAX_SOLVE := 360
  const GENESIS_BITS: Bits := 0x1f00_ffff
  const POW_LIMIT_BITS: Bits := 0x1f0f_ffff

  /** The easiest target allowed. */
  function PowLimit(): (n: nat) {
    CompactToBig(POW_LIMIT_BITS)
  }

  lemma PowLimitIs(k: nat, p: nat)
    requires k == 31 && p == Pow256(k - 3)
    ensures PowLimit() == 0xf_ffff * p && CompactToBig(GENESIS_BITS) == 0xffff * p && ByteLen(PowLimit()) == k
  {
    assert POW_LIMIT_BITS % SIGN_BIT == 0xf_ffff && POW_LIMIT_BITS / EXPONENT_UNIT == k;
    assert GENESIS_BITS % SIGN_BIT == 0xffff && GENESIS_BITS / EXPONENT_UNIT == k;
    assert Pow256(k - 2) == 256 * p && Pow256(k - 1) == 256 * Pow256(k - 2) && Pow256(k) == 256 * Pow256(k - 1);
    ByteLenUnique(PowLimit(), k);
  }

  lemma LimitUsable()
    ensures ByteLen(PowLimit()) == 31 && 1 <= CompactToBig(GENESIS_BITS) <= PowLimit()
  {
    var k := 31;
    PowLimitIs(k, Pow256(k - 3));
  }

  /** A number of `k` bytes whose leading three are known. */
  lemma EncodedFrom(n: nat, k: nat, p: nat, m: nat)
    requires 3 < k < 255 && p == Pow256(k - 3) && 0x1_0000 <= m < EXPONENT_UNIT && m * p <= n < (m + 1) * p
    ensures n > 0 && BigToCompact(n) == if m < SIGN_BIT then Packed(k, m) else Packed(k + 1, m / 256)
  {
    DivBounds(n, p, m, m + 1);
    SmallPowers();
    Pow256Adds(2, k - 3);
    Pow256Adds(3, k - 3);
    MulBounds(m, p, 0x1_0000, m + 1);
    MulLe(p, m + 1, EXPONENT_UNIT);
    ByteLenUnique(n, k);
    TopBit(m);
  }

  /** The limit is what the compact form leaves of 2^244 - 1, which is 2^20 * 256^28 - 1. */
  lemma LimitEncoded(n: nat, k: nat, p: nat, m: nat)
    requires k == 31 && p == Pow256(k - 3) && m == 0xf_ffff && n == (m + 1) * p - 1
    ensures BigToCompact(n) == POW_LIMIT_BITS
  {
    assert (m + 1) * p == m * p + p;
    EncodedFrom(n, k, p, m);
  }

  /** And the genesis target of 2^240 - 1, which is 2^24 * 256^27 - 1. */
  lemma GenesisEncoded(n: nat, k: nat, p: nat, m: nat)
    requires k == 30 && p == Pow256(k - 3) && m == 0xff_ffff && n == (m + 1) * p - 1
    ensures BigToCompact(n) == GENESIS_BITS
  {
    assert (m + 1) * p == m * p + p;
    EncodedFrom(n, k, p, m);
  }

  /** A difference of 64-bit signed numbers. */
  function Signed(x: int): (y: int) {
    (x + 0x8000_0000_0000_0000) % U64_LIMIT - 0x8000_0000_0000_0000
  }

  function BitsOf(b: Block): (bits: Bits) {
    b.bits % U32_LIMIT
  }

  /** How long a block took, clamped. */
  function SolveTime(blocks: seq<Block>, cur: nat): (st: int)
    requires 1 <= cur < |blocks|
    ensures 1 <= st <= MAX_SOLVE
  {
    var st := Signed(blocks[cur].timestamp - blocks[cur - 1].timestamp);
    if st < 1 then 1 else if st > MAX_SOLVE then MAX_SOLVE else st
  }

  /** Solve times of the first `i` blocks of the window, later ones weighing more. */
  function Weighted(blocks: seq<Block>, height: nat, i: nat): (w: int)
    requires WINDOW < height <= |blocks| && i <= WINDOW
  {
    if i == 0 then 0 else Weighted(blocks, height, i - 1) + i * SolveTime(blocks, height - WINDOW - 1 + i)
  }

  function TargetSum(blocks: seq<Block>, height: nat, i: nat): (n: nat)
    requires WINDOW < height <= |blocks| && i <= WINDOW
  {
    if i == 0 then 0 else TargetSum(blocks, height, i - 1) + CompactToBig(BitsOf(blocks[height - WINDOW - 1 + i]))
  }

  function Average(blocks: seq<Block>, height: nat): (n: nat)
    requires WINDOW < height <= |blocks|
  {
    TargetSum(blocks, height, WINDOW) / WINDOW
  }

  const DENOMINATOR := BLOCK_TIME * WINDOW * (WINDOW + 1) / 2

  /** The next target before it is clamped to the easiest one. */
  function Wanted(avg: nat, weighted: int): (n: int) {
    AtLeastOne(avg * weighted / DENOMINATOR)
  }

  function AtLeastOne(n: int): (m: int)
    ensures m >= 1
  {
    if n <= 0 then 1 else n
  }

  function Clamped(n: int): (t: int) {
    if n > PowLimit() then PowLimit() else n
  }

  lemma {:induction false} WeightedBounds(blocks: seq<Block>, height: nat, i: nat)
    requires WINDOW < height <= |blocks| && i <= WINDOW
    ensures i * (i + 1) <= 2 * Weighted(blocks, height, i) <= MAX_SOLVE * (i * (i + 1))
  {
    if i > 0 {
      WeightedBounds(blocks, height, i - 1);
      TriangleStep(i, Weighted(blocks, height, i - 1), SolveTime(blocks, height - WINDOW - 1 + i));
    }
  }

  lemma TriangleStep(i: nat, w: int, st: int)
    requires i > 0 && (i - 1) * i <= 2 * w <= MAX_SOLVE * ((i - 1) * i) && 1 <= st <= MAX_SOLVE
    ensures i * (i + 1) <= 2 * (w + i * st) <= MAX_SOLVE * (i * (i + 1))
  {
    ScaledBounds(i, st);
    assert i * (i + 1) == (i - 1) * i + 2 * i;
  }

  lemma ScaledBounds(i: nat, st: int)
    requires 1 <= st <= MAX_SOLVE
    ensures i <= i * st <= MAX_SOLVE * i
  {
  }

  /** The target the block at `height` must meet. */
  method ExpectedBits(blocks: seq<Block>, height: nat, noRetarget: bool) returns (bits: Bits)
    requires height <= |blocks|
    ensures bits == BitsAt(blocks, height, noRetarget)
  {
    if noRetarget || height <= WINDOW {
      return GENESIS_BITS;
    }
    var weighted, sum := 0, 0;
    for i := 0 to WINDOW
      invariant weighted == Weighted(blocks, height, i) && sum == TargetSum(blocks, height, i)
    {
      var cur := height - WINDOW + i;
      var st := Signed(blocks[cur].timestamp - blocks[cur - 1].timestamp);
      if st < 1 {
        st := 1;
      } else if st > MAX_SOLVE {
        st := MAX_SOLVE;
      }
      weighted := weighted + (i + 1) * st;
      sum := sum + CompactToBig(BitsOf(blocks[cur]));
    }
    WantedPositive(sum / WINDOW, weighted);
    return BigToCompact(Clamped(Wanted(sum / WINDOW, weighted)));
  }

  lemma WantedPositive(avg: nat, weighted: int)
    ensures Wanted(avg, weighted) >= 1 && Clamped(Wanted(avg, weighted)) >= 1
  {
    LimitUsable();
  }

  function BitsAt(blocks: seq<Block>, height: nat, noRetarget: bool): (bits: Bits)
    requires height <= |blocks|
  {
    if noRetarget || height <= WINDOW then GENESIS_BITS
    else
      var want := Clamped(Wanted(Average(blocks, height), Weighted(blocks, height, WINDOW)));
      if want < 0 then 0 else BigToCompact(want)
  }

  /** Slow windows ease the target at most sixfold, fast ones tighten it at most sixtyfold. */
  lemma WantedBounds(avg: nat, weighted: int)
    requires 210 <= weighted <= 6 * DENOMINATOR
    ensures avg / BLOCK_TIME <= Wanted(avg, weighted) && (Wanted(avg, weighted) <= 6 * avg || Wanted(avg, weighted) == 1)
  {
    MulLe(avg, 210, weighted);
    MulLe(avg, weighted, 6 * DENOMINATOR);
    assert DENOMINATOR == BLOCK_TIME * 210;
    assert (avg * 210) / DENOMINATOR == avg / BLOCK_TIME;
  }

  lemma ClampedFits(n: nat)
    requires n >= 1
    ensures 1 <= Clamped(n) <= PowLimit() && ByteLen(Clamped(n)) < 255
  {
    LimitUsable();
    ByteLenMono(Clamped(n), PowLimit());
  }

  lemma {:induction false} ByteLenMono(a: nat, b: nat)
    requires a <= b
    ensures ByteLen(a) <= ByteLen(b)
    decreases a
  {
    if a > 0 {
      ByteLenMono(a / 256, b / 256);
    }
  }

  /** What every retargeted block commits to: a target between one and the limit, no more than six
      times the window's average, and within compact rounding of the clamped weighted value, which
      is at least a sixtieth of that average. */
  lemma RetargetBounds(blocks: seq<Block>, height: nat)
    requires WINDOW < height <= |blocks|
    ensures var t, avg := CompactToBig(BitsAt(blocks, height, false)), Average(blocks, height);
            var wanted := Wanted(avg, Weighted(blocks, height, WINDOW));
            && 1 <= t <= PowLimit() && (t <= 6 * avg || t == 1)
            && avg / BLOCK_TIME <= wanted
            && t <= Clamped(wanted) && (Clamped(wanted) - t) * 0x8000 < Clamped(wanted)
  {
    var avg, weighted := Average(blocks, height), Weighted(blocks, height, WINDOW);
    WeightedBounds(blocks, height, WINDOW);
    WantedBounds(avg, weighted);
    WantedPositive(avg, weighted);
    ClampedFits(Wanted(avg, weighted));
    RoundsDown(Clamped(Wanted(avg, weighted)));
  }

  /** Blocks that arrive exactly on time leave the average as it is. */
  lemma {:induction false} SteadyWeight(blocks: seq<Block>, height: nat, i: nat)
    requires WINDOW < height <= |blocks| && i <= WINDOW
    requires forall cur :: height - WINDOW <= cur < height ==> SolveTime(blocks, cur) == BLOCK_TIME
    ensures 2 * Weighted(blocks, height, i) == BLOCK_TIME * (i * (i + 1))
  {
    if i > 0 {
      SteadyWeight(blocks, height, i - 1);
      assert i * (i + 1) == (i - 1) * i + 2 * i;
    }
  }

  lemma SteadyTarget(blocks: seq<Block>, height: nat)
    requires WINDOW < height <= |blocks| && Average(blocks, height) >= 1
    requires forall cur :: height - WINDOW <= cur < height ==> SolveTime(blocks, cur) == BLOCK_TIME
    ensures Wanted(Average(blocks, height), Weighted(blocks, height, WINDOW)) == Average(blocks, height)
  {
    SteadyWeight(blocks, height, WINDOW);
    assert Weighted(blocks, height, WINDOW) == DENOMINATOR;
    DivMul(Average(blocks, height), DENOMINATOR);
  }

  /** Every block carries the target its height demands. */
  ghost predicate Retargeted(blocks: seq<Block>, noRetarget: bool) {
    forall h :: 0 <= h < |blocks| ==> BitsOf(blocks[h]) == BitsAt(blocks[..h], h, noRetarget)
  }

  /** So every target of a chain is one the proof-of-work check accepts. */
  lemma ChainTargets(blocks: seq<Block>, noRetarget: bool, h: nat)
    requires Retargeted(blocks, noRetarget) && h < |blocks|
    ensures 1 <= CompactToBig(BitsOf(blocks[h])) <= PowLimit()
  {
    LimitUsable();
    if !noRetarget && h > WINDOW {
      RetargetBounds(blocks[..h], h);
    }
  }

  lemma {:induction false} AverageAtLeast(blocks: seq<Block>, height: nat, i: nat)
    requires WINDOW < height <= |blocks| && i <= WINDOW
    requires forall h :: 0 <= h < |blocks| ==> 1 <= CompactToBig(BitsOf(blocks[h]))
    ensures TargetSum(blocks, height, i) >= i
  {
    if i > 0 {
      AverageAtLeast(blocks, height, i - 1);
    }
  }

  /** And on a chain the sixfold bound has no exception. */
  lemma ChainEasesAtMostSixfold(blocks: seq<Block>, h: nat)
    requires Retargeted(blocks, false) && WINDOW < h < |blocks|
    ensures CompactToBig(BitsOf(blocks[h])) <= 6 * Average(blocks[..h], h)
  {
    forall k | 0 <= k < h ensures 1 <= CompactToBig(BitsOf(blocks[..h][k])) {
      ChainTargets(blocks, false, k);
    }
    AverageAtLeast(blocks[..h], h, WINDOW);
    RetargetBounds(blocks[..h], h);
  }

  /** The hashes a target stands for, out of `e` in all. */
  function WorkOver(e: nat, target: nat): (work: nat) {
    if target == 0 then 0 else e / (target + 1)
  }

  const HASH_BYTES: nat := 32

  function BlockWork(bits: Bits): (work: nat) {
    WorkOver(Pow256(HASH_BYTES), CompactToBig(bits))
  }

  /** A smaller target never counts for less work. */
  lemma HarderIsMoreWork(a: Bits, b: Bits)
    requires 1 <= CompactToBig(a) <= CompactToBig(b)
    ensures BlockWork(a) >= BlockWork(b)
  {
    DivAntitone(Pow256(HASH_BYTES), CompactToBig(a), CompactToBig(b));
  }

  lemma DivAntitone(e: nat, x: nat, y: nat)
    requires 1 <= x <= y
    ensures WorkOver(e, x) >= WorkOver(e, y)
  {
    var q := e / (y + 1);
    assert q * (y + 1) <= e;
    MulLe(q, x + 1, y + 1);
    MulLe(e + 1, 1, x + 1);
    DivBounds(e, x + 1, q, e + 1);
  }

  lemma LimitWork(e: nat, p: nat, t: nat)
    requires p >= 1 && e == 0x1_0000_0000 * p && 1 <= t <= 0xf_ffff * p
    ensures WorkOver(e, t) >= 0x1000
  {
    MulLe(e + 1, 1, t + 1);
    DivBounds(e, t + 1, 0x1000, e + 1);
  }

  lemma AllHashes(k: nat)
    ensures Pow256(k + 4) == 0x1_0000_0000 * Pow256(k)
  {
    assert Pow256(k + 4) == 256 * Pow256(k + 3) && Pow256(k + 3) == 256 * Pow256(k + 2);
    assert Pow256(k + 2) == 256 * Pow256(k + 1) && Pow256(k + 1) == 256 * Pow256(k);
  }

  lemma TargetHasWork(bits: Bits)
    requires 1 <= CompactToBig(bits) <= PowLimit()
    ensures BlockWork(bits) >= 0x1000
  {
    var k := 31;
    PowLimitIs(k, Pow256(k - 3));
    AllHashes(k - 3);
    LimitWork(Pow256(k + 1), Pow256(k - 3), CompactToBig(bits));
  }

  /** Every block of a chain adds work, so a longer chain outranks its own prefixes. */
  lemma ChainWorkPositive(blocks: seq<Block>, noRetarget: bool, h: nat)
    requires Retargeted(blocks, noRetarget) && h < |blocks|
    ensures BlockWork(BitsOf(blocks[h])) >= 0x1000
  {
    ChainTargets(blocks, noRetarget, h);
    TargetHasWork(BitsOf(blocks[h]));
  }
}
