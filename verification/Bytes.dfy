/** Byte strings, digests and the hash-function parameter shared by every component.

    A hash function is a parameter of the development, never an injective one: fixed-size
    digests of unbounded inputs always collide somewhere.  Theorems that need collision
    resistance either assume it of one stated collection of preimages, or exhibit the two
    distinct preimages that would have to share a digest. */
module Bytes {

  type Byte = x: int | 0 <= x < 256
  type Bytes = seq<Byte>

  const DIGEST_LEN := 64

  /** A digest is the 64-character lower-case hex rendering of a SHA-256 sum. */
  type Digest = d: Bytes | |d| == DIGEST_LEN witness seq(DIGEST_LEN, _ => 0)

  type HashFn = Bytes -> Digest

  ghost predicate Collision(h: HashFn, a: Bytes, b: Bytes) {
    a != b && h(a) == h(b)
  }

  /** No two distinct preimages in `u` share a digest. */
  ghost predicate CollisionFree(h: HashFn, u: iset<Bytes>) {
    forall a, b :: a in u && b in u && h(a) == h(b) ==> a == b
  }

  /** Some preimage in `xs` and a different one in `ys` share a digest. */
  ghost predicate CollisionAcross(h: HashFn, xs: iset<Bytes>, ys: iset<Bytes>) {
    exists a, b :: a in xs && b in ys && Collision(h, a, b)
  }

  lemma CollisionWidens(h: HashFn, xs: iset<Bytes>, ys: iset<Bytes>, xs': iset<Bytes>, ys': iset<Bytes>)
    requires xs <= xs' && ys <= ys' && CollisionAcross(h, xs, ys)
    ensures CollisionAcross(h, xs', ys')
  {
    var a, b :| a in xs && b in ys && Collision(h, a, b);
    assert a in xs' && b in ys';
  }

  lemma CollisionOrEqual(h: HashFn, a: Bytes, b: Bytes, xs: iset<Bytes>, ys: iset<Bytes>)
    requires h(a) == h(b) && a in xs && b in ys
    ensures a == b || CollisionAcross(h, xs, ys)
  {
    assert a == b || Collision(h, a, b);
  }

  datatype Option<+T> = None | Some(value: T) {
    predicate IsFailure() { None? }

    function PropagateFailure<U>(): (r: Option<U>)
      requires None?
    {
      None
    }

    function Extract(): (v: T)
      requires Some?
    {
      value
    }
  }

  datatype Result<+T> = Ok(value: T) | Err

  /** Concatenations whose left halves (or right halves) have equal length split uniquely. */
  lemma SplitUnique<T>(a: seq<T>, b: seq<T>, c: seq<T>, d: seq<T>)
    requires a + b == c + d
    requires |a| == |c| || |b| == |d|
    ensures a == c && b == d
  {
    assert |a| + |b| == |a + b| == |c + d| == |c| + |d|;
    assert (a + b)[..|a|] == a && (c + d)[..|c|] == c;
    assert (a + b)[|a|..] == b && (c + d)[|c|..] == d;
  }

  function Pow2(k: nat): (p: nat)
    ensures p >= 1
  {
    if k == 0 then 1 else 2 * Pow2(k - 1)
  }

  lemma MulBound(a: int, p: nat)
    requires p > 0
    ensures a >= 1 ==> a * p >= p
    ensures a <= -1 ==> a * p + p <= 0
  {
  }

  lemma DivModUnique(n: nat, p: nat, q: nat, r: nat)
    requires p > 0 && n == q * p + r && r < p
    ensures n / p == q && n % p == r
  {
    var a := q - n / p;
    assert a * p == q * p - (n / p) * p;
    assert (n / p) * p == n - n % p;
    MulBound(a, p);
  }

  const U32_LIMIT := 0x1_0000_0000
  const U64_LIMIT := 0x1_0000_0000_0000_0000

  /** The `w` low-order bytes of `n`, big-endian. */
  function BigEndian(n: nat, w: nat): (b: Bytes)
    ensures |b| == w
  {
    if w == 0 then [] else BigEndian(n / 256, w - 1) + [n % 256]
  }

  /** The number big-endian bytes stand for. */
  function Value(b: Bytes): (n: nat) {
    if b == [] then 0 else 256 * Value(b[..|b| - 1]) + b[|b| - 1]
  }

  lemma {:induction false} ValueOfBigEndian(n: nat, w: nat)
    requires n < Pow256(w)
    ensures Value(BigEndian(n, w)) == n
  {
    if w > 0 {
      var high := BigEndian(n / 256, w - 1);
      ValueOfBigEndian(n / 256, w - 1);
      assert (high + [n % 256])[..w - 1] == high;
    }
  }

  function Pow256(w: nat): (p: nat)
    ensures p >= 1
  {
    if w == 0 then 1 else 256 * Pow256(w - 1)
  }

  /** Fixed-width big-endian numbers in range are told apart by their bytes. */
  lemma {:induction false} BigEndianUnique(a: nat, b: nat, w: nat)
    requires a < Pow256(w) && b < Pow256(w) && BigEndian(a, w) == BigEndian(b, w)
    ensures a == b
  {
    if w > 0 {
      SplitUnique(BigEndian(a / 256, w - 1), [a % 256], BigEndian(b / 256, w - 1), [b % 256]);
      assert [a % 256][0] == [b % 256][0];
      BigEndianUnique(a / 256, b / 256, w - 1);
    }
  }

  function U64(n: nat): (b: Bytes)
    ensures |b| == 8
  {
    BigEndian(n, 8)
  }

  lemma U64Unique(a: nat, b: nat)
    requires a < U64_LIMIT && b < U64_LIMIT && U64(a) == U64(b)
    ensures a == b
  {
    assert Pow256(8) == U64_LIMIT by {
      assert Pow256(1) == 256 && Pow256(2) == 0x1_0000 && Pow256(4) == U32_LIMIT;
      assert Pow256(5) == 256 * Pow256(4) && Pow256(6) == 256 * Pow256(5);
      assert Pow256(7) == 256 * Pow256(6) && Pow256(8) == 256 * Pow256(7);
    }
    BigEndianUnique(a, b, 8);
  }
}
