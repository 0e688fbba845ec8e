/** The minting schedule: the subsidy halves, and the total minted stays far below 64 bits. */
module Supply {
  import opened Bytes
  import opened Transactions

  const INITIAL_REWARD := 5_000_000_000
  const HALVING_INTERVAL := 210_000
  const MAX_MINTED := 2_100_000_000_000_000

  /** The initial reward shifted right. */
  function Halved(k: nat): (r: nat)
    ensures r <= INITIAL_REWARD
  {
    if k == 0 then INITIAL_REWARD else Halved(k - 1) / 2
  }

  function BlockReward(height: nat): (r: nat)
    ensures r <= INITIAL_REWARD
  {
    var halvings := height / HALVING_INTERVAL;
    if halvings >= 64 then 0 else Halved(halvings)
  }

  lemma HalfAgain(n: nat, p: nat)
    requires p > 0
    ensures n / p / 2 == n / (2 * p)
  {
    var q := n / p;
    var r := n - q * p;
    var h, odd := q / 2, q % 2;
    assert n == h * (2 * p) + (odd * p + r);
    DivModUnique(n, 2 * p, h, odd * p + r);
  }

  lemma {:induction false} HalvedIs(k: nat)
    ensures Halved(k) == 5_000_000_000 / Pow2(k)
  {
    if k > 0 {
      HalvedIs(k - 1);
      HalfAgain(5_000_000_000, Pow2(k - 1));
    }
  }

  /** The reward is five thousand million, halved once for every 210000 heights. */
  lemma RewardIs(height: nat)
    ensures BlockReward(height) == 5_000_000_000 / Pow2(height / 210_000)
  {
    RewardHalves(height);
    HalvedIs(height / 210_000);
  }

  /** The subsidies of heights 1 to `height`, one by one. */
  ghost function Minted(height: nat): (n: nat) {
    if height == 0 then 0 else Minted(height - 1) + BlockReward(height)
  }

  /** Thirty-three halvings leave nothing of a reward below 2^33. */
  lemma {:induction false} HalvedAway(k: nat)
    requires k >= 33
    ensures Halved(k) == 0
    decreases k
  {
    if k == 33 {
      assert Halved(8) == 19531250;
      assert Halved(16) == 76293;
      assert Halved(24) == 298;
      assert Halved(32) == 1;
    } else {
      HalvedAway(k - 1);
    }
  }

  lemma RewardHalves(height: nat)
    ensures BlockReward(height) == Halved(height / HALVING_INTERVAL)
  {
    if height / HALVING_INTERVAL >= 64 {
      HalvedAway(height / HALVING_INTERVAL);
    }
  }

  /** What is minted by the end of `p + 1` heights of the epoch whose reward is `r`, at most. */
  ghost function MintedCap(r: nat, p: nat): (cap: int) {
    HALVING_INTERVAL * (2 * INITIAL_REWARD - 2 * r) + (p + 1) * r
  }

  lemma CapStep(r: nat, p: nat)
    ensures MintedCap(r, p) + r == MintedCap(r, p + 1)
  {
    assert (p + 1) * r + r == (p + 2) * r;
  }

  lemma CapTurn(r: nat, p: nat)
    requires p == HALVING_INTERVAL - 1
    ensures MintedCap(r, p) + r / 2 <= MintedCap(r / 2, 0)
  {
    assert (p + 1) * r == HALVING_INTERVAL * r;
    assert 2 * (r / 2) <= r;
  }

  lemma CapBound(r: nat, p: nat)
    requires p < HALVING_INTERVAL
    ensures MintedCap(r, p) <= MAX_MINTED
  {
    var left := HALVING_INTERVAL - (p + 1);
    assert left * r >= 0;
    assert (p + 1) * r + left * r == HALVING_INTERVAL * r;
  }

  /** The schedule never mints more than 21 million coins. */
  lemma {:induction false} MintedBound(height: nat)
    ensures Minted(height) <= MintedCap(Halved(height / HALVING_INTERVAL), height % HALVING_INTERVAL)
    ensures Minted(height) <= MAX_MINTED
  {
    CapBound(Halved(height / HALVING_INTERVAL), height % HALVING_INTERVAL);
    if height > 0 {
      MintedBound(height - 1);
      RewardHalves(height);
      var r, p := Halved((height - 1) / HALVING_INTERVAL), (height - 1) % HALVING_INTERVAL;
      EpochStep(height);
      if p == HALVING_INTERVAL - 1 {
        CapTurn(r, p);
      } else {
        CapStep(r, p);
      }
    }
  }

  lemma MintedAtMost(height: nat)
    ensures Minted(height) <= MAX_MINTED
  {
    MintedBound(height);
  }

  lemma EpochStep(height: nat)
    requires height > 0
    ensures var e, p := (height - 1) / HALVING_INTERVAL, (height - 1) % HALVING_INTERVAL;
            if p == HALVING_INTERVAL - 1 then height / HALVING_INTERVAL == e + 1 && height % HALVING_INTERVAL == 0
            else height / HALVING_INTERVAL == e && height % HALVING_INTERVAL == p + 1
  {
    var e, p := (height - 1) / HALVING_INTERVAL, (height - 1) % HALVING_INTERVAL;
    if p == HALVING_INTERVAL - 1 {
      DivModUnique(height, HALVING_INTERVAL, e + 1, 0);
    } else {
      DivModUnique(height, HALVING_INTERVAL, e, p + 1);
    }
  }

  lemma MulStep(r: int, n: int)
    ensures r * n == r * (n - 1) + r
  {
  }

  ghost function SumTo(f: nat -> nat, n: nat): (sum: nat) {
    if n == 0 then 0 else SumTo(f, n - 1) + f(n)
  }

  /** A run of equal terms. */
  lemma {:induction false} SumRun(f: nat -> nat, lo: nat, hi: nat, r: nat)
    requires 1 <= lo <= hi && forall i :: lo <= i < hi ==> f(i) == r
    ensures SumTo(f, hi - 1) == SumTo(f, lo - 1) + r * (hi - lo)
    decreases hi
  {
    if hi > lo {
      SumRun(f, lo, hi - 1, r);
      MulStep(r, hi - lo);
    }
  }

  lemma {:induction false} MintedSums(height: nat)
    ensures Minted(height) == SumTo(BlockReward, height)
  {
    if height > 0 {
      MintedSums(height - 1);
    }
  }

  lemma MintedInRun(lo: nat, hi: nat, r: nat)
    requires 1 <= lo <= hi && forall i :: lo <= i < hi ==> BlockReward(i) == r
    ensures Minted(hi - 1) == Minted(lo - 1) + r * (hi - lo)
  {
    MintedSums(hi - 1);
    MintedSums(lo - 1);
    SumRun(BlockReward, lo, hi, r);
  }

  lemma {:induction false} HalvedMonotone(j: nat, k: nat)
    requires j <= k && Halved(j) == 0
    ensures Halved(k) == 0
    decreases k
  {
    if j < k {
      HalvedMonotone(j, k - 1);
    }
  }

  /** Once the subsidy is gone nothing further is minted. */
  lemma {:induction false} MintedStops(from: nat, height: nat)
    requires 1 <= from <= height + 1 && BlockReward(from) == 0
    ensures Minted(height) == Minted(from - 1)
    decreases height
  {
    if height >= from {
      MintedStops(from, height - 1);
      RewardHalves(from);
      RewardHalves(height);
      assert from / HALVING_INTERVAL <= height / HALVING_INTERVAL;
      HalvedMonotone(from / HALVING_INTERVAL, height / HALVING_INTERVAL);
    }
  }

  /** The sum so far and the height it goes on from, both in 64 bits. */
  datatype Sweep = Sweep(h: Word, total: Word)

  /** There are heights left and a reward to sum. */
  predicate Goes(height: Word, s: Sweep) {
    s.h <= height && BlockReward(s.h) != 0
  }

  /** One epoch, or what is left of it. */
  function Round(height: Word, s: Sweep): (r: Sweep) {
    var end, stop := ((s.h / HALVING_INTERVAL + 1) * HALVING_INTERVAL) % U64_LIMIT, (height + 1) % U64_LIMIT;
    var next := if end > stop then stop else end;
    Sweep(next, (s.total + BlockReward(s.h) * ((next - s.h) % U64_LIMIT)) % U64_LIMIT)
  }

  /** The end of an epoch that still pays is far below 64 bits. */
  lemma EpochEnd(h: nat)
    requires BlockReward(h) != 0
    ensures h < (h / HALVING_INTERVAL + 1) * HALVING_INTERVAL <= 64 * HALVING_INTERVAL
  {
  }

  function Until(height: Word, h: nat): (next: nat) {
    var end := (h / HALVING_INTERVAL + 1) * HALVING_INTERVAL;
    if end > height + 1 then height + 1 else end
  }

  lemma FitsWord(n: nat)
    requires n < U64_LIMIT
    ensures n % U64_LIMIT == n
  {
  }

  /** Below the last height nothing wraps around. */
  lemma RoundIs(height: Word, s: Sweep)
    requires height + 1 < U64_LIMIT && Goes(height, s)
    ensures s.h < Until(height, s.h) <= height + 1
    ensures Round(height, s) == Sweep(Until(height, s.h), (s.total + BlockReward(s.h) * (Until(height, s.h) - s.h)) % U64_LIMIT)
  {
    EpochEnd(s.h);
    FitsWord((s.h / HALVING_INTERVAL + 1) * HALVING_INTERVAL);
    FitsWord(height + 1);
    FitsWord(Until(height, s.h) - s.h);
  }

  lemma RewardSame(h: nat, i: nat)
    requires h <= i < (h / HALVING_INTERVAL + 1) * HALVING_INTERVAL
    ensures BlockReward(i) == BlockReward(h)
  {
    SameEpoch(h, i + 1);
  }

  lemma EpochSums(h: nat, next: nat)
    requires 1 <= h < next <= (h / HALVING_INTERVAL + 1) * HALVING_INTERVAL
    ensures Minted(next - 1) == Minted(h - 1) + BlockReward(h) * (next - h)
  {
    var reward := BlockReward(h);
    forall i | h <= i < next ensures BlockReward(i) == reward {
      RewardSame(h, i);
    }
    MintedInRun(h, next, reward);
  }

  lemma RoundSums(height: Word, s: Sweep)
    requires height + 1 < U64_LIMIT && Goes(height, s) && s.h >= 1 && s.total == Minted(s.h - 1)
    ensures var r := Round(height, s); s.h < r.h <= height + 1 && r.total == Minted(r.h - 1)
  {
    var next := Until(height, s.h);
    RoundIs(height, s);
    EpochSums(s.h, next);
    MintedAtMost(next - 1);
    FitsWord(Minted(next - 1));
    assert Round(height, s) == Sweep(next, Minted(next - 1));
  }

  /** The total minted, computed epoch by epoch. */
  method CumulativeSubsidy(height: Word) returns (total: Word)
    requires height + 1 < U64_LIMIT
    ensures total == Minted(height)
  {
    var s := Sweep(1, 0);
    while Goes(height, s)
      invariant 1 <= s.h <= height + 1 && s.total == Minted(s.h - 1)
      decreases height + 1 - s.h
    {
      RoundSums(height, s);
      s := Round(height, s);
    }
    if s.h <= height {
      MintedStops(s.h, height);
    }
    return s.total;
  }

  const LAST_HEIGHT: Word := U64_LIMIT - 1

  function Rounds(height: Word, s: Sweep, n: nat): (r: Sweep) {
    if n == 0 then s else Round(height, Rounds(height, s, n - 1))
  }

  lemma RoundAtLast(h: Word, total: Word)
    requires h <= 1
    ensures Round(LAST_HEIGHT, Sweep(h, total)).h == 0 && Goes(LAST_HEIGHT, Sweep(h, total))
    ensures h == 0 ==> Round(LAST_HEIGHT, Sweep(h, total)) == Sweep(h, total)
  {
    assert h / HALVING_INTERVAL == 0;
  }

  /** At the very last height, where the end of the range wraps around to zero, the sum never comes to an
      end: from the second round on nothing moves, and there is always something left to do. */
  lemma {:induction false} NeverEnds(n: nat)
    ensures Goes(LAST_HEIGHT, Rounds(LAST_HEIGHT, Sweep(1, 0), n))
    ensures n >= 1 ==> Rounds(LAST_HEIGHT, Sweep(1, 0), n) == Rounds(LAST_HEIGHT, Sweep(1, 0), 1)
    ensures Rounds(LAST_HEIGHT, Sweep(1, 0), n).h == if n == 0 then 1 else 0
  {
    if n == 0 {
      RoundAtLast(1, 0);
    } else {
      NeverEnds(n - 1);
      var s := Rounds(LAST_HEIGHT, Sweep(1, 0), n - 1);
      RoundAtLast(s.h, s.total);
      RoundAtLast(0, Round(LAST_HEIGHT, s).total);
    }
  }

  lemma SameEpoch(h: nat, end: nat)
    requires h < end <= (h / HALVING_INTERVAL + 1) * HALVING_INTERVAL
    ensures (end - 1) / HALVING_INTERVAL == h / HALVING_INTERVAL
  {
    var e := h / HALVING_INTERVAL;
    DivModUnique(end - 1, HALVING_INTERVAL, e, end - 1 - e * HALVING_INTERVAL);
  }
}
