/** How the next target answers the clock: later blocks weigh more, slower blocks make it easier. */
module RetargetLaws {
  import opened Bytes
  import opened Transactions
  import opened Target
  import opened Retarget

  /** The window's solve times, the same but for those at `p` and `q`, which are exchanged. */
  ghost predicate Exchanged(a: seq<Block>, b: seq<Block>, height: nat, p: nat, q: nat)
    requires WINDOW < height && height <= |a| && height <= |b|
  {
    && height - 20 <= p < q < height
    && SolveTime(a, p) == SolveTime(b, q) && SolveTime(a, q) == SolveTime(b, p)
    && forall k :: height - 20 <= k < height && k != p && k != q ==> SolveTime(a, k) == SolveTime(b, k)
  }

  lemma {:induction false} ExchangedUpTo(a: seq<Block>, b: seq<Block>, height: nat, p: nat, q: nat, i: nat)
    requires WINDOW < height && height <= |a| && height <= |b| && i <= WINDOW && Exchanged(a, b, height, p, q)
    ensures var d, x, y := Weighted(a, height, i) - Weighted(b, height, i), SolveTime(a, p), SolveTime(a, q);
            d == (if p < height - 20 + i then (p - (height - 21)) * (x - y) else 0)
               + (if q < height - 20 + i then (q - (height - 21)) * (y - x) else 0)
  {
    if i > 0 {
      ExchangedUpTo(a, b, height, p, q, i - 1);
      Scaled(i, SolveTime(a, height - 21 + i), SolveTime(b, height - 21 + i));
    }
  }

  lemma Scaled(i: nat, x: int, y: int)
    ensures i * x - i * y == i * (x - y)
  {
  }

  /** Of two windows that differ in the order of two solve times, the one that has the longer later weighs
      more, by their difference for each block between them. */
  lemma LaterWeighsMore(a: seq<Block>, b: seq<Block>, height: nat, p: nat, q: nat)
    requires WINDOW < height && height <= |a| && height <= |b| && Exchanged(a, b, height, p, q)
    ensures Weighted(a, height, WINDOW) - Weighted(b, height, WINDOW) == (q - p) * (SolveTime(a, q) - SolveTime(a, p))
  {
    ExchangedUpTo(a, b, height, p, q, WINDOW);
    Spread(p - (height - 21), q - (height - 21), SolveTime(a, q) - SolveTime(a, p));
  }

  lemma Spread(m: int, n: int, d: int)
    ensures m * (0 - d) + n * d == (n - m) * d
  {
  }

  lemma {:induction false} SlowerWeighsMore(a: seq<Block>, b: seq<Block>, height: nat, i: nat)
    requires WINDOW < height && height <= |a| && height <= |b| && i <= WINDOW
    requires forall k :: height - 20 <= k < height ==> SolveTime(b, k) <= SolveTime(a, k)
    ensures Weighted(b, height, i) <= Weighted(a, height, i)
  {
    if i > 0 {
      SlowerWeighsMore(a, b, height, i - 1);
      MulLe(i, SolveTime(b, height - 21 + i), SolveTime(a, height - 21 + i));
    }
  }

  /** Of two windows with the same average target, the slower one asks for no harder a target. */
  lemma SlowerIsEasier(a: seq<Block>, b: seq<Block>, height: nat)
    requires WINDOW < height && height <= |a| && height <= |b| && Average(a, height) == Average(b, height)
    requires forall k :: height - 20 <= k < height ==> SolveTime(b, k) <= SolveTime(a, k)
    ensures Wanted(Average(b, height), Weighted(b, height, WINDOW)) <= Wanted(Average(a, height), Weighted(a, height, WINDOW))
  {
    var avg, x, y := Average(a, height), Weighted(b, height, WINDOW), Weighted(a, height, WINDOW);
    SlowerWeighsMore(a, b, height, WINDOW);
    WeightedBounds(b, height, WINDOW);
    MulLe(avg, x, y);
    assert DENOMINATOR == 12_600;
  }

  /** A block's solve time is the difference of the clocks, at least one second and at most six minutes. */
  lemma SolveTimeIs(blocks: seq<Block>, cur: nat)
    requires 1 <= cur < |blocks|
    requires -0x8000_0000_0000_0000 <= blocks[cur].timestamp - blocks[cur - 1].timestamp < 0x8000_0000_0000_0000
    ensures var d := blocks[cur].timestamp - blocks[cur - 1].timestamp;
            SolveTime(blocks, cur) == if d < 1 then 1 else if d > 360 then 360 else d
  {
  }
}
