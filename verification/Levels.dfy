/** Perfect binary trees laid out level by level, over any node type and any way of joining two
    nodes: roots, sibling paths and climbing. */
module Levels {
  import opened Bytes

  /** One level up: the first `n` pairs of neighbours joined. */
  function PairUp<T>(join: (T, T) -> T, level: seq<T>, n: nat): (up: seq<T>)
    requires |level| >= 2 * n
    ensures |up| == n
    ensures forall i :: 0 <= i < n ==> up[i] == join(level[2 * i], level[2 * i + 1])
  {
    if n == 0 then [] else PairUp(join, level, n - 1) + [join(level[2 * n - 2], level[2 * n - 1])]
  }

  /** The root of a perfect level of `2^k` nodes. */
  function LevelRoot<T>(join: (T, T) -> T, level: seq<T>, k: nat): (d: T)
    requires |level| == Pow2(k)
    decreases k
  {
    if k == 0 then level[0] else LevelRoot(join, PairUp(join, level, Pow2(k - 1)), k - 1)
  }

  lemma {:induction false} LevelRootJoins<T>(join: (T, T) -> T, a: seq<T>, b: seq<T>, k: nat)
    requires |a| == |b| == Pow2(k)
    ensures LevelRoot(join, a + b, k + 1) == join(LevelRoot(join, a, k), LevelRoot(join, b, k))
    decreases k
  {
    if k == 0 {
      assert PairUp(join, a + b, 1) == [join(a[0], b[0])];
    } else {
      var n := Pow2(k - 1);
      assert PairUp(join, a + b, 2 * n) == PairUp(join, a, n) + PairUp(join, b, n);
      LevelRootJoins(join, PairUp(join, a, n), PairUp(join, b, n), k - 1);
    }
  }

  function Sibling(idx: nat): (s: nat) {
    if idx % 2 == 0 then idx + 1 else idx - 1
  }

  /** Joins a node with its sibling on the stated side. */
  function Step<T>(join: (T, T) -> T, acc: T, sib: T, right: bool): (d: T) {
    if right then join(acc, sib) else join(sib, acc)
  }

  /** Climbing from position `idx`, checking each stated side against the parity. */
  function Climb<T>(join: (T, T) -> T, acc: T, idx: nat, path: seq<T>, right: seq<bool>): (r: Option<T>)
    requires |path| == |right|
    decreases |path|
  {
    if path == [] then Some(acc)
    else if right[0] != (idx % 2 == 0) then None
    else Climb(join, Step(join, acc, path[0], right[0]), idx / 2, path[1..], right[1..])
  }

  /** The siblings met climbing from `idx`, bottom first. */
  ghost function PathOf<T>(join: (T, T) -> T, level: seq<T>, k: nat, idx: nat): (p: seq<T>)
    requires |level| == Pow2(k) && idx < Pow2(k)
    ensures |p| == k
    decreases k
  {
    if k == 0 then [] else [level[Sibling(idx)]] + PathOf(join, PairUp(join, level, Pow2(k - 1)), k - 1, idx / 2)
  }

  ghost function Sides(idx: nat, k: nat): (s: seq<bool>)
    ensures |s| == k
    decreases k
  {
    if k == 0 then [] else [idx % 2 == 0] + Sides(idx / 2, k - 1)
  }

  /** Joining a node with its sibling gives the parent at half the index. */
  lemma StepUp<T>(join: (T, T) -> T, level: seq<T>, n: nat, idx: nat)
    requires |level| == 2 * n && idx < 2 * n
    ensures Step(join, level[idx], level[Sibling(idx)], idx % 2 == 0) == PairUp(join, level, n)[idx / 2]
  {
    assert idx == 2 * (idx / 2) + idx % 2;
  }

  lemma Pow2Above1(k: nat)
    ensures Pow2(k) > 1 <==> k > 0
    ensures k > 0 ==> Pow2(k) == 2 * Pow2(k - 1)
  {
  }

  /** Builds the next level pair by pair. */
  method NextLevel<T>(join: (T, T) -> T, level: seq<T>, ghost k: nat) returns (up: seq<T>)
    requires k > 0 && |level| == Pow2(k)
    ensures |up| == Pow2(k - 1) && up == PairUp(join, level, Pow2(k - 1))
    ensures LevelRoot(join, up, k - 1) == LevelRoot(join, level, k)
  {
    up := [];
    ghost var want := PairUp(join, level, Pow2(k - 1));
    var i := 0;
    while i < |level|
      invariant i == 2 * |up| && |up| <= |want| && up == want[..|up|]
    {
      assert want[|up|] == join(level[i], level[i + 1]);
      up := up + [join(level[i], level[i + 1])];
      i := i + 2;
    }
  }

  lemma ClimbCons<T>(join: (T, T) -> T, acc: T, idx: nat, sib: T, path: seq<T>, side: bool, right: seq<bool>)
    requires |path| == |right| && side == (idx % 2 == 0)
    ensures Climb(join, acc, idx, [sib] + path, [side] + right)
         == Climb(join, Step(join, acc, sib, side), idx / 2, path, right)
  {
    assert ([sib] + path)[1..] == path && ([side] + right)[1..] == right;
  }

  /** A node's own path climbs to the root. */
  lemma {:induction false} PathClimbs<T>(join: (T, T) -> T, level: seq<T>, k: nat, idx: nat)
    requires |level| == Pow2(k) && idx < Pow2(k)
    ensures Climb(join, level[idx], idx, PathOf(join, level, k, idx), Sides(idx, k)) == Some(LevelRoot(join, level, k))
    decreases k
  {
    if k > 0 {
      var up, half := PairUp(join, level, Pow2(k - 1)), idx / 2;
      PathClimbs(join, up, k - 1, half);
      StepUp(join, level, Pow2(k - 1), idx);
      assert LevelRoot(join, up, k - 1) == LevelRoot(join, level, k);
      ClimbCons(join, level[idx], idx, level[Sibling(idx)], PathOf(join, up, k - 1, half), idx % 2 == 0, Sides(half, k - 1));
    }
  }

  lemma SnocCons<T>(s: seq<T>, x: T, t: seq<T>)
    ensures s + ([x] + t) == (s + [x]) + t
  {
  }

  /** The path from one node of a perfect level to the root, and that root. */
  method PathToRoot<T>(join: (T, T) -> T, whole: seq<T>, start: nat, ghost k: nat)
    returns (path: seq<T>, right: seq<bool>, root: T)
    requires |whole| == Pow2(k) && start < Pow2(k)
    ensures path == PathOf(join, whole, k, start) && right == Sides(start, k)
    ensures root == LevelRoot(join, whole, k)
  {
    var level := whole;
    var idx: nat := start;
    path, right := [], [];
    ghost var j := k;
    while |level| > 1
      invariant |level| == Pow2(j) && idx < Pow2(j)
      invariant path + PathOf(join, level, j, idx) == PathOf(join, whole, k, start)
      invariant right + Sides(idx, j) == Sides(start, k)
      invariant LevelRoot(join, level, j) == LevelRoot(join, whole, k)
      decreases |level|
    {
      Pow2Above1(j);
      var sibling := Sibling(idx);
      var up := NextLevel(join, level, j);
      SnocCons(path, level[sibling], PathOf(join, up, j - 1, idx / 2));
      SnocCons(right, sibling > idx, Sides(idx / 2, j - 1));
      path := path + [level[sibling]];
      right := right + [sibling > idx];
      level, idx, j := up, idx / 2, j - 1;
    }
    root := level[0];
  }

  /** Folds a perfect level into its root. */
  method FoldLevel<T>(join: (T, T) -> T, whole: seq<T>, ghost k: nat) returns (root: T)
    requires |whole| == Pow2(k)
    ensures root == LevelRoot(join, whole, k)
  {
    var level := whole;
    ghost var j := k;
    while |level| > 1
      invariant |level| == Pow2(j) && LevelRoot(join, level, j) == LevelRoot(join, whole, k)
      decreases |level|
    {
      Pow2Above1(j);
      var up := NextLevel(join, level, j);
      level, j := up, j - 1;
    }
    root := level[0];
  }
}
