/** Proof-of-work targets in compact form: three significant bytes and a byte count. */
module Target {
  import opened Bytes

  type Bits = x: int | 0 <= x < U32_LIMIT

  const SIGN_BIT := 0x80_0000
  const EXPONENT_UNIT := 0x100_0000

  /** How many bytes a number takes. */
  function ByteLen(n: nat): (k: nat) {
    if n == 0 then 0 else 1 + ByteLen(n / 256)
  }

  /** The target that compact bits stand for. */
  function CompactToBig(bits: Bits): (n: nat) {
    var mantissa, exponent := bits % SIGN_BIT, bits / EXPONENT_UNIT;
    if exponent <= 3 then mantissa / Pow256(3 - exponent) else mantissa * Pow256(exponent - 3)
  }

  /** The three leading bytes of a number, filled up with zero bytes on the right. */
  function Leading(n: nat): (m: int) {
    var k := ByteLen(n);
    if k <= 3 then n * Pow256(3 - k) else n / Pow256(k - 3)
  }

  /** The compact form of a target; a leading byte with its top bit set is moved down. */
  function BigToCompact(n: nat): (bits: Bits) {
    if n == 0 then 0
    else
      var k, m := ByteLen(n), Leading(n);
      if (m / SIGN_BIT) % 2 == 1 then Packed(k + 1, (m / 256) % SIGN_BIT) else Packed(k, m % SIGN_BIT)
  }

  function Packed(exponent: nat, mantissa: nat): (bits: Bits)
    requires mantissa < SIGN_BIT
  {
    (exponent * EXPONENT_UNIT) % U32_LIMIT + mantissa
  }

  lemma Unpacked(exponent: nat, mantissa: nat)
    requires exponent < 256 && mantissa < SIGN_BIT
    ensures Packed(exponent, mantissa) % SIGN_BIT == mantissa && Packed(exponent, mantissa) / EXPONENT_UNIT == exponent
  {
  }

  lemma {:induction false} ByteLenBounds(n: nat)
    requires n > 0
    ensures ByteLen(n) >= 1 && Pow256(ByteLen(n) - 1) <= n < Pow256(ByteLen(n))
  {
    if n >= 256 {
      ByteLenBounds(n / 256);
    } else {
      assert ByteLen(n / 256) == 0;
    }
  }

  lemma {:induction false} Pow256Adds(a: nat, b: nat)
    ensures Pow256(a + b) == Pow256(a) * Pow256(b)
  {
    if a > 0 {
      Pow256Adds(a - 1, b);
      Regrouped(256, Pow256(a - 1), Pow256(b));
    }
  }

  lemma Regrouped(a: nat, b: nat, c: nat)
    ensures (a * b) * c == a * (b * c)
  {
  }

  lemma DivBounds(n: nat, p: nat, lo: nat, hi: nat)
    requires p > 0 && lo * p <= n < hi * p
    ensures lo <= n / p < hi
  {
    MulBound(n / p - lo, p);
    MulBound(n / p - hi, p);
    assert (n / p) * p <= n < (n / p) * p + p;
    assert (n / p - lo) * p == (n / p) * p - lo * p;
    assert (n / p - hi) * p == (n / p) * p - hi * p;
  }

  lemma MulBounds(n: nat, p: nat, lo: nat, hi: nat)
    requires p > 0 && lo <= n < hi
    ensures lo * p <= n * p < hi * p
  {
    MulBound(hi - n, p);
    assert (hi - n) * p == hi * p - n * p;
    if lo < n {
      MulBound(n - lo, p);
      assert (n - lo) * p == n * p - lo * p;
    }
  }

  lemma SmallPowers()
    ensures Pow256(0) == 1 && Pow256(1) == 256 && Pow256(2) == 0x1_0000 && Pow256(3) == EXPONENT_UNIT
  {
    assert Pow256(1) == 256 * Pow256(0) && Pow256(2) == 256 * Pow256(1) && Pow256(3) == 256 * Pow256(2);
  }

  /** The leading bytes are three bytes exactly, the first of them not zero. */
  lemma LeadingBounds(n: nat)
    requires n > 0
    ensures 0x1_0000 <= Leading(n) < EXPONENT_UNIT
  {
    var k := ByteLen(n);
    ByteLenBounds(n);
    SmallPowers();
    if k <= 3 {
      var p := Pow256(3 - k);
      MulBounds(n, p, Pow256(k - 1), Pow256(k));
      Pow256Adds(k - 1, 3 - k);
      Pow256Adds(k, 3 - k);
    } else {
      Pow256Adds(2, k - 3);
      Pow256Adds(3, k - 3);
      DivBounds(n, Pow256(k - 3), 0x1_0000, EXPONENT_UNIT);
    }
  }

  lemma TopBit(m: nat)
    requires m < EXPONENT_UNIT
    ensures (m / SIGN_BIT) % 2 == 1 <==> m >= SIGN_BIT
    ensures (m / 256) % SIGN_BIT == m / 256 && (m < SIGN_BIT ==> m % SIGN_BIT == m)
  {
  }

  /** A number cut down to a multiple of `q` loses less than one part in 2^15, if the quotient is
      that large. */
  lemma CutLoses(n: nat, q: nat)
    requires q > 0 && n / q >= 0x8000
    ensures (n / q) * q <= n && (n - (n / q) * q) * 0x8000 < n
  {
    var d := n / q;
    assert d * q <= n < d * q + q;
    MulBounds(d, q, 0x8000, d + 1);
  }

  lemma DivDiv(n: nat, p: nat)
    requires p > 0
    ensures (n / p) / 256 == n / (256 * p)
  {
    var q, r := n / p, n % p;
    var a, b := q / 256, q % 256;
    assert n == p * q + r && q == 256 * a + b;
    assert p * q == p * (256 * a) + p * b;
    assert p * (256 * a) == (256 * p) * a;
    assert p * b <= p * 255 by { MulLe(p, b, 255); }
    DivModUnique(n, 256 * p, a, p * b + r);
  }

  lemma MulLe(p: nat, b: nat, c: nat)
    requires b <= c
    ensures p * b <= p * c
  {
  }

  lemma DivMul(n: nat, p: nat)
    requires p > 0
    ensures (n * p) / p == n
  {
    DivModUnique(n * p, p, n, 0);
  }

  /** What survives the compact form: the number cut down to a multiple of a power of 256. */
  ghost function Cut(n: nat): (d: int)
    requires n > 0
  {
    var k := ByteLen(n);
    if Leading(n) < SIGN_BIT then (if k <= 3 then n else (n / Pow256(k - 3)) * Pow256(k - 3))
    else (if k <= 2 then n else (n / Pow256(k - 2)) * Pow256(k - 2))
  }

  lemma PlainCut(n: nat)
    requires 0 < n && ByteLen(n) < 256 && Leading(n) < SIGN_BIT
    ensures CompactToBig(BigToCompact(n)) == Cut(n)
  {
    var k := ByteLen(n);
    LeadingBounds(n);
    TopBit(Leading(n));
    Unpacked(k, Leading(n));
    if k <= 3 {
      DivMul(n, Pow256(3 - k));
    }
  }

  lemma MovedCut(n: nat)
    requires 0 < n && ByteLen(n) < 255 && Leading(n) >= SIGN_BIT
    ensures CompactToBig(BigToCompact(n)) == Cut(n)
  {
    var k, m := ByteLen(n), Leading(n);
    LeadingBounds(n);
    TopBit(m);
    Unpacked(k + 1, m / 256);
    if k <= 2 {
      assert n * Pow256(3 - k) == (n * Pow256(2 - k)) * 256 by { Regrouped(n, Pow256(2 - k), 256); }
      DivMul(n * Pow256(2 - k), 256);
      DivMul(n, Pow256(2 - k));
    } else if k == 3 {
      SmallPowers();
      assert m == n * Pow256(0) == n;
    } else {
      DivDiv(n, Pow256(k - 3));
    }
  }

  lemma CutClose(n: nat)
    requires n > 0
    ensures Cut(n) <= n && (n - Cut(n)) * 0x8000 < n
  {
    var k, m := ByteLen(n), Leading(n);
    LeadingBounds(n);
    SmallPowers();
    if m < SIGN_BIT && k > 3 {
      CutLoses(n, Pow256(k - 3));
    } else if m >= SIGN_BIT && k == 3 {
      assert m == n * Pow256(0) == n;
      CutLoses(n, Pow256(1));
    } else if m >= SIGN_BIT && k > 3 {
      DivDiv(n, Pow256(k - 3));
      CutLoses(n, Pow256(k - 2));
    }
  }

  /** Encoding only lowers a target, by less than one part in 2^15, and never to zero. */
  lemma RoundsDown(n: nat)
    requires 0 < n && ByteLen(n) < 255
    ensures 1 <= CompactToBig(BigToCompact(n)) <= n
    ensures (n - CompactToBig(BigToCompact(n))) * 0x8000 < n
  {
    CutClose(n);
    if Leading(n) < SIGN_BIT {
      PlainCut(n);
    } else {
      MovedCut(n);
    }
  }

  lemma {:induction false} ByteLenUnique(n: nat, k: nat)
    requires k >= 1 && Pow256(k - 1) <= n < Pow256(k)
    ensures ByteLen(n) == k
    decreases k
  {
    if k == 1 {
      SmallPowers();
      assert ByteLen(n / 256) == 0;
    } else {
      DivBounds(n, 256, Pow256(k - 2), Pow256(k - 1));
      ByteLenUnique(n / 256, k - 1);
    }
  }

  lemma CutAtLeast(n: nat, q: nat, least: nat)
    requires q > 0 && least * q <= n
    ensures least * q <= (n / q) * q <= n
  {
    DivBounds(n, q, least, n / q + 1);
    MulBounds(n / q, q, least, n / q + 1);
  }

  /** Cutting to a multiple of a lower power keeps the length. */
  lemma CutLength(n: nat, e: nat)
    requires n > 0 && e < ByteLen(n)
    ensures var d := (n / Pow256(e)) * Pow256(e); 0 < d <= n && ByteLen(d) == ByteLen(n)
  {
    var k := ByteLen(n);
    ByteLenBounds(n);
    Pow256Adds(k - 1 - e, e);
    CutAtLeast(n, Pow256(e), Pow256(k - 1 - e));
    ByteLenUnique((n / Pow256(e)) * Pow256(e), k);
  }

  lemma CutTwice(n: nat)
    requires n > 0
    ensures Cut(n) > 0 && ByteLen(Cut(n)) == ByteLen(n)
    ensures if Leading(n) < SIGN_BIT then Leading(Cut(n)) == Leading(n) else Leading(Cut(n)) == (Leading(n) / 256) * 256
  {
    var k, m := ByteLen(n), Leading(n);
    LeadingBounds(n);
    SmallPowers();
    if m < SIGN_BIT && k > 3 {
      CutLength(n, k - 3);
      DivMul(n / Pow256(k - 3), Pow256(k - 3));
    } else if m >= SIGN_BIT && k <= 2 {
      assert n * Pow256(3 - k) == (n * Pow256(2 - k)) * 256 by { Regrouped(n, Pow256(2 - k), 256); }
      DivMul(n * Pow256(2 - k), 256);
    } else if m >= SIGN_BIT && k == 3 {
      CutLength(n, 1);
    } else if m >= SIGN_BIT {
      CutLength(n, k - 2);
      var p := Pow256(k - 3);
      DivDiv(n, p);
      Regrouped(n / (256 * p), 256, p);
      DivMul((n / (256 * p)) * 256, p);
    }
  }

  lemma SameBits(n: nat, d: nat)
    requires n > 0 && d > 0 && ByteLen(d) == ByteLen(n) && 0 <= Leading(n) < EXPONENT_UNIT
    requires if Leading(n) < SIGN_BIT then Leading(d) == Leading(n) else Leading(d) == (Leading(n) / 256) * 256
    ensures BigToCompact(d) == BigToCompact(n)
  {
    LowByteGone(Leading(n));
  }

  lemma LowByteGone(m: nat)
    requires SIGN_BIT <= m < EXPONENT_UNIT || m < SIGN_BIT
    ensures m >= SIGN_BIT ==> (((m / 256) * 256) / SIGN_BIT) % 2 == (m / SIGN_BIT) % 2 && ((m / 256) * 256) / 256 == m / 256
  {
    if m >= SIGN_BIT {
      assert (m / 256) * 256 >= SIGN_BIT;
      TopBit(m);
      TopBit((m / 256) * 256);
    }
  }

  /** So a decoded target is one a header can commit to: encoding it again gives the same bits. */
  lemma Canonical(n: nat)
    requires 0 < n && ByteLen(n) < 255
    ensures BigToCompact(CompactToBig(BigToCompact(n))) == BigToCompact(n)
  {
    LeadingBounds(n);
    CutTwice(n);
    SameBits(n, Cut(n));
    if Leading(n) < SIGN_BIT {
      PlainCut(n);
    } else {
      MovedCut(n);
    }
  }
}
