/** Bit buffers: bytes filled from the most significant bit down, and read back bit by bit. */
module BitStreams {
  import opened Bytes

  /** Bit `k` of `b`, counted from the least significant. */
  predicate BitAt(b: nat, k: nat)
    decreases k
  {
    if k == 0 then b % 2 == 1 else BitAt(b / 2, k - 1)
  }

  /** `b` with bit `k` set. */
  function WithBit(b: nat, k: nat): (r: nat)
    decreases k
  {
    if k == 0 then (if b % 2 == 1 then b else b + 1) else 2 * WithBit(b / 2, k - 1) + b % 2
  }

  lemma {:induction false} WithBitAt(b: nat, k: nat, j: nat)
    ensures BitAt(WithBit(b, k), j) <==> j == k || BitAt(b, j)
    decreases k
  {
    var r := WithBit(b, k);
    if k == 0 {
      assert r / 2 == b / 2;
    } else {
      assert r / 2 == WithBit(b / 2, k - 1) && r % 2 == b % 2;
      if j > 0 {
        WithBitAt(b / 2, k - 1, j - 1);
      }
    }
  }

  lemma {:induction false} WithBitBound(b: nat, k: nat, n: nat)
    requires b < Pow2(n) && k < n
    ensures WithBit(b, k) < Pow2(n)
    decreases k
  {
    var half := Pow2(n - 1);
    assert Pow2(n) == 2 * half && b / 2 < half;
    if k == 0 {
      assert b == 2 * (b / 2) + b % 2;
    } else {
      WithBitBound(b / 2, k - 1, n - 1);
      assert WithBit(b / 2, k - 1) + 1 <= half;
    }
  }

  lemma {:induction false} NoBits(j: nat)
    ensures !BitAt(0, j)
    decreases j
  {
    if j > 0 {
      NoBits(j - 1);
    }
  }

  /** The bit at position `p` of a buffer, most significant bit of the first byte first. */
  predicate BufferBit(buf: Bytes, p: nat)
    requires p < 8 * |buf|
  {
    BitAt(buf[p / 8], 7 - p % 8)
  }

  /** A buffer with the bit at position `p` set. */
  function PutBit(buf: Bytes, p: nat): (r: Bytes)
    requires p < 8 * |buf|
    ensures |r| == |buf|
  {
    assert Pow2(8) == 256;
    WithBitBound(buf[p / 8], 7 - p % 8, 8);
    buf[p / 8 := WithBit(buf[p / 8], 7 - p % 8)]
  }

  lemma PutBitAt(buf: Bytes, p: nat, q: nat)
    requires p < 8 * |buf| && q < 8 * |buf|
    ensures BufferBit(PutBit(buf, p), q) <==> q == p || BufferBit(buf, q)
  {
    if q / 8 == p / 8 {
      WithBitAt(buf[p / 8], 7 - p % 8, 7 - q % 8);
      assert q == 8 * (q / 8) + q % 8 && p == 8 * (p / 8) + p % 8;
    }
  }

  /** All the bits of a buffer. */
  ghost function BitsOf(buf: Bytes): (bits: seq<bool>)
    ensures |bits| == 8 * |buf|
    ensures forall p :: 0 <= p < |bits| ==> bits[p] == BufferBit(buf, p)
  {
    FirstBits(buf, 8 * |buf|)
  }

  ghost function FirstBits(buf: Bytes, n: nat): (bits: seq<bool>)
    requires n <= 8 * |buf|
    ensures |bits| == n
    ensures forall p :: 0 <= p < n ==> bits[p] == BufferBit(buf, p)
  {
    if n == 0 then [] else FirstBits(buf, n - 1) + [BufferBit(buf, n - 1)]
  }

  /** The `n` low-order bits of `v`, most significant first. */
  ghost function Binary(v: nat, n: nat): (bits: seq<bool>)
    ensures |bits| == n && forall i :: 0 <= i < n ==> bits[i] == BitAt(v, n - 1 - i)
  {
    if n == 0 then [] else [BitAt(v, n - 1)] + Binary(v, n - 1)
  }

  class BitWriter {
    var buf: Bytes
    var nbits: nat
    /** The bits written so far. */
    ghost var bits: seq<bool>

    ghost predicate Valid()
      reads this
    {
      && nbits == |bits| && 8 * |buf| < |bits| + 8 && |bits| <= 8 * |buf|
      && forall p :: 0 <= p < 8 * |buf| ==> (BufferBit(buf, p) <==> p < |bits| && bits[p])
    }

    constructor ()
      ensures Valid() && bits == []
    {
      buf, nbits, bits := [], 0, [];
    }

    method WriteBit(b: bool)
      requires Valid()
      modifies this
      ensures Valid() && bits == old(bits) + [b]
    {
      if nbits % 8 == 0 {
        Grow();
      }
      if b {
        forall q: nat | q < 8 * |buf| ensures BufferBit(PutBit(buf, nbits), q) <==> q == nbits || BufferBit(buf, q) {
          PutBitAt(buf, nbits, q);
        }
        buf := PutBit(buf, nbits);
      }
      nbits := nbits + 1;
      bits := bits + [b];
    }

    /** Starts a new byte, all bits clear. */
    method Grow()
      requires Valid() && |bits| == 8 * |buf|
      modifies this`buf
      ensures |buf| == old(|buf|) + 1
      ensures forall p :: 0 <= p < 8 * |buf| ==> (BufferBit(buf, p) <==> p < |bits| && bits[p])
    {
      buf := buf + [0];
      forall p | 0 <= p < 8 * |buf| ensures BufferBit(buf, p) <==> p < |bits| && bits[p] {
        if p >= 8 * (|buf| - 1) {
          NoBits(7 - p % 8);
        } else {
          assert buf[p / 8] == old(buf)[p / 8];
        }
      }
    }

    method WriteBits(v: nat, n: nat)
      requires Valid()
      modifies this
      ensures Valid() && bits == old(bits) + Binary(v, n)
    {
      var i := n;
      while i > 0
        invariant 0 <= i <= n && Valid()
        invariant bits + Binary(v, i) == old(bits) + Binary(v, n)
      {
        i := i - 1;
        ghost var was := bits;
        WriteBit(BitAt(v, i));
        assert was + Binary(v, i + 1) == bits + Binary(v, i);
      }
    }
  }

  class BitReader {
    const buf: Bytes
    var pos: nat

    ghost predicate Valid()
      reads this
    {
      pos <= 8 * |buf|
    }

    constructor (buf: Bytes)
      ensures Valid() && this.buf == buf && pos == 0
    {
      this.buf, pos := buf, 0;
    }

    method ReadBit() returns (b: bool, ok: bool)
      requires Valid()
      modifies this`pos
      ensures Valid() && (ok <==> old(pos) < 8 * |buf|)
      ensures ok ==> b == BitsOf(buf)[old(pos)] && pos == old(pos) + 1
    {
      if pos >= |buf| * 8 {
        return false, false;
      }
      var byteIdx, bitIdx := pos / 8, 7 - pos % 8;
      b := BitAt(buf[byteIdx], bitIdx);
      pos := pos + 1;
      ok := true;
    }

    /** Reads `n` bits as a number, most significant first. */
    method ReadBits(n: nat) returns (v: nat, ok: bool)
      requires Valid()
      modifies this`pos
      ensures Valid() && (ok <==> old(pos) + n <= 8 * |buf|)
      ensures ok ==> pos == old(pos) + n && v == Number(BitsOf(buf), old(pos), n)
    {
      v := 0;
      for i := 0 to n
        invariant Valid() && pos == old(pos) + i && v == Number(BitsOf(buf), old(pos), i)
      {
        var b, okBit := ReadBit();
        if !okBit {
          return 0, false;
        }
        v := 2 * v + if b then 1 else 0;
      }
      return v, true;
    }
  }

  /** The `n` bits from position `p` on, read as a number. */
  ghost function Number(bits: seq<bool>, p: nat, n: nat): (v: nat)
    requires p + n <= |bits|
  {
    if n == 0 then 0 else 2 * Number(bits, p, n - 1) + if bits[p + n - 1] then 1 else 0
  }
}
