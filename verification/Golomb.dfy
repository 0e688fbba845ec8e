/** Golomb-Rice coding of ascending values, and the compact block filters built from it. */
module Golomb {
  import opened Bytes
  import opened BitStreams

  const GCS_P := 19
  const GCS_M := 784931
  const REMAINDERS := 0x8_0000

  /** `code` stands at position `p` of `bits`. */
  ghost predicate StandsAt(bits: seq<bool>, p: nat, code: seq<bool>) {
    p + |code| <= |bits| && forall i :: 0 <= i < |code| ==> bits[p + i] == code[i]
  }

  lemma StandsSplit(bits: seq<bool>, p: nat, a: seq<bool>, b: seq<bool>)
    requires StandsAt(bits, p, a + b)
    ensures StandsAt(bits, p, a) && StandsAt(bits, p + |a|, b)
  {
    assert forall i :: 0 <= i < |a| ==> (a + b)[i] == a[i];
    forall i | 0 <= i < |b| ensures bits[p + |a| + i] == b[i] {
      assert (a + b)[|a| + i] == b[i];
    }
  }

  lemma ModHalves(v: nat, p: nat)
    requires p > 0
    ensures v % (2 * p) == 2 * ((v / 2) % p) + v % 2
  {
    var h := v / 2;
    assert v == 2 * h + v % 2 && h == (h / p) * p + h % p;
    var r := 2 * (h % p) + v % 2;
    assert v == (h / p) * (2 * p) + r && 0 <= r < 2 * p;
    DivModUnique(v, 2 * p, h / p, r);
  }

  /** Reading back the low-order bits of a number gives its remainder. */
  lemma {:induction false} NumberOfBinary(bits: seq<bool>, p: nat, v: nat, n: nat)
    requires StandsAt(bits, p, Binary(v, n))
    ensures Number(bits, p, n) == v % Pow2(n)
    decreases n
  {
    if n > 0 {
      assert StandsAt(bits, p, Binary(v / 2, n - 1)) by {
        var code := Binary(v / 2, n - 1);
        forall i | 0 <= i < |code| ensures bits[p + i] == code[i] {
          assert bits[p + i] == Binary(v, n)[i] == BitAt(v, n - 1 - i);
        }
      }
      NumberOfBinary(bits, p, v / 2, n - 1);
      assert bits[p + n - 1] == Binary(v, n)[n - 1] == BitAt(v, 0);
      ModHalves(v, Pow2(n - 1));
    }
  }

  ghost function Unary(q: nat): (bits: seq<bool>)
    ensures |bits| == q + 1 && bits[q] == false && forall i :: 0 <= i < q ==> bits[i]
  {
    if q == 0 then [false] else [true] + Unary(q - 1)
  }

  ghost function CodeDelta(d: nat): (bits: seq<bool>) {
    Unary(d / REMAINDERS) + Binary(d % REMAINDERS, GCS_P)
  }

  /** The codes of the differences between ascending values. */
  ghost function CodeAll(vals: seq<nat>, last: nat): (bits: seq<bool>)
    requires Ascending(vals, last)
  {
    if vals == [] then [] else CodeDelta(vals[0] - last) + CodeAll(vals[1..], vals[0])
  }

  ghost predicate Ascending(vals: seq<nat>, last: nat) {
    vals != [] ==> last <= vals[0] && Ascending(vals[1..], vals[0])
  }

  datatype Delta = Delta(value: nat, next: nat)

  /** How many ones stand before the next zero, and where the zero ends; none at the buffer's end. */
  ghost function ReadUnary(bits: seq<bool>, p: nat): (r: Option<Delta>)
    requires p <= |bits|
    ensures r.Some? ==> p < r.value.next <= |bits|
    decreases |bits| - p
  {
    if p == |bits| then None
    else if !bits[p] then Some(Delta(0, p + 1))
    else
      var r := ReadUnary(bits, p + 1);
      if r.None? then None else Some(Delta(r.value.value + 1, r.value.next))
  }

  /** One coded difference, with the reader's 64-bit shift. */
  ghost function ReadDelta(bits: seq<bool>, p: nat): (r: Option<Delta>)
    requires p <= |bits|
    ensures r.Some? ==> p < r.value.next <= |bits|
  {
    var q := ReadUnary(bits, p);
    if q.None? || q.value.next + GCS_P > |bits| then None
    else Some(Delta(Shifted(q.value.value) + Number(bits, q.value.next, GCS_P), q.value.next + GCS_P))
  }

  /** A quotient shifted left in 64 bits. */
  function Shifted(q: nat): (n: nat) {
    (q * REMAINDERS) % U64_LIMIT
  }

  lemma ShiftedFits(d: nat)
    requires d < U64_LIMIT
    ensures Shifted(d / REMAINDERS) + d % REMAINDERS == d
  {
  }

  function Wrapped(n: nat): (w: nat) {
    n % U64_LIMIT
  }

  lemma {:induction false} ReadsUnary(bits: seq<bool>, p: nat, q: nat)
    requires StandsAt(bits, p, Unary(q))
    ensures ReadUnary(bits, p) == Some(Delta(q, p + q + 1))
    decreases q
  {
    assert bits[p + 0] == Unary(q)[0];
    if q > 0 {
      assert StandsAt(bits, p + 1, Unary(q - 1)) by {
        var code := Unary(q - 1);
        forall i | 0 <= i < |code| ensures bits[p + 1 + i] == code[i] {
          assert bits[p + (i + 1)] == Unary(q)[i + 1];
        }
      }
      ReadsUnary(bits, p + 1, q - 1);
    }
  }

  /** Reading a difference undoes coding it. */
  lemma ReadsDelta(bits: seq<bool>, p: nat, d: nat)
    requires d < U64_LIMIT && StandsAt(bits, p, CodeDelta(d))
    ensures ReadDelta(bits, p) == Some(Delta(d, p + |CodeDelta(d)|))
  {
    var q, r := d / REMAINDERS, d % REMAINDERS;
    StandsSplit(bits, p, Unary(q), Binary(r, GCS_P));
    ReadsUnary(bits, p, q);
    NumberOfRemainder(bits, p + q + 1, r, GCS_P);
    ShiftedFits(d);
  }

  lemma NumberOfRemainder(bits: seq<bool>, p: nat, r: nat, n: nat)
    requires n == GCS_P && r < REMAINDERS && StandsAt(bits, p, Binary(r, n))
    ensures Number(bits, p, n) == r
  {
    NumberOfBinary(bits, p, r, n);
    RemaindersIsPow2(n);
  }

  lemma RemaindersIsPow2(n: nat)
    requires n == GCS_P
    ensures Pow2(n) == REMAINDERS
  {
    assert Pow2(5) == 32 && Pow2(10) == 1024 && Pow2(15) == 0x8000;
    assert Pow2(19) == 16 * Pow2(15);
  }

  /** What a reader decides: `n` values are read, accumulated in 64 bits, and compared in order. */
  ghost predicate Walk(bits: seq<bool>, p: nat, n: nat, val: nat, target: nat)
    requires p <= |bits|
    decreases n
  {
    if n == 0 then false
    else
      var d := ReadDelta(bits, p);
      if d.None? then false
      else
        var v := Wrapped(val + d.value.value);
        v == target || (v < target && Walk(bits, d.value.next, n - 1, v, target))
  }

  lemma WalkStep(bits: seq<bool>, p: nat, n: nat, val: nat, v: nat, next: nat, target: nat)
    requires p <= |bits| && next <= |bits| && n > 0 && val <= v < U64_LIMIT && ReadDelta(bits, p) == Some(Delta(v - val, next))
    ensures Walk(bits, p, n, val, target) <==> v == target || (v < target && Walk(bits, next, n - 1, v, target))
  {
  }

  /** Against coded values, a walk finds its target exactly when it is one of them. */
  lemma {:induction false} WalkFinds(bits: seq<bool>, p: nat, vals: seq<nat>, last: nat, target: nat)
    requires p <= |bits| && Ascending(vals, last) && StandsAt(bits, p, CodeAll(vals, last))
    requires forall i :: 0 <= i < |vals| ==> vals[i] < U64_LIMIT
    ensures Walk(bits, p, |vals|, last, target) <==> target in vals
    decreases |vals|
  {
    if vals != [] {
      var v, rest := vals[0], vals[1..];
      var code := CodeDelta(v - last);
      StandsSplit(bits, p, code, CodeAll(rest, v));
      ReadsDelta(bits, p, v - last);
      WalkFinds(bits, p + |code|, rest, v, target);
      WalkStep(bits, p, |vals|, last, v, p + |code|, target);
      InRest(vals, v, target);
    }
  }

  lemma InRest(vals: seq<nat>, v: nat, target: nat)
    requires vals != [] && v == vals[0] && Ascending(vals[1..], v)
    ensures target in vals <==> v == target || (v < target && target in vals[1..])
  {
    AscendingBounds(vals[1..], v);
    assert target in vals <==> target == v || target in vals[1..];
  }

  lemma {:induction false} AscendingBounds(vals: seq<nat>, last: nat)
    requires Ascending(vals, last)
    ensures forall i :: 0 <= i < |vals| ==> last <= vals[i]
    decreases |vals|
  {
    if vals != [] {
      AscendingBounds(vals[1..], vals[0]);
      forall i | 0 <= i < |vals| ensures last <= vals[i] {
        if i > 0 {
          assert vals[i] == vals[1..][i - 1];
        }
      }
    }
  }
}
