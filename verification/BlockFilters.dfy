/** Compact block filters: a non-match proves an address absent from a block. */
module BlockFilters {
  import opened Bytes
  import opened Seqs
  import opened Transactions
  import opened BitStreams
  import opened Golomb

  /** The keyed hash, the key digest of committed filters, and from which heights it is used. */
  datatype Keying = Keying(sip: (Bytes, Address) -> Word, derive: (Bytes, Bytes) -> Digest, committed: Word -> bool)

  datatype BlockFilter = BlockFilter(index: Word, n: nat, blockHash: Bytes, data: Bytes, key: Bytes)

  /** The digest a block's filter is keyed from. */
  function KeySeed(k: Keying, b: Block): (seed: Bytes) {
    if k.committed(b.index) then k.derive(b.prevHash, b.merkleRoot) else b.hash
  }

  /** The digest a filter says it is keyed from. */
  function StatedSeed(f: BlockFilter): (seed: Bytes) {
    if f.key != [] then f.key else f.blockHash
  }

  /** A 64-bit hash mapped into a range by its high word. */
  function FastReduce(x: Word, n: Word): (r: Word)
    ensures n > 0 ==> r < n
  {
    ReduceFits(x, n);
    (x * n) / U64_LIMIT
  }

  lemma ReduceFits(x: Word, n: Word)
    ensures 0 <= (x * n) / U64_LIMIT < U64_LIMIT
    ensures n > 0 ==> (x * n) / U64_LIMIT < n
  {
    if n == 0 {
      assert x * n == 0;
    } else {
      assert x * n < U64_LIMIT * n by {
        assert (U64_LIMIT - x) * n > 0;
      }
    }
  }

  /** Where an address falls among the values of a filter of `n` items. */
  function PlaceOf(k: Keying, seed: Bytes, n: nat, addr: Address): (v: Word) {
    FastReduce(k.sip(seed, addr), (n * GCS_M) % U64_LIMIT)
  }

  /** Every recipient and every sender but the coinbase's. */
  ghost function Touched(txs: seq<Tx>): (s: set<Address>) {
    if txs == [] then {} else Touched(txs[..|txs| - 1]) + TxTouched(txs[|txs| - 1])
  }

  function TxTouched(tx: Tx): (s: set<Address>) {
    (if IsCoinbase(tx) then {} else {tx.sender})
    + (if tx.recipient != [] then {tx.recipient} else {})
    + set o | o in tx.outputs && o.recipient != [] :: o.recipient
  }

  method BlockAddresses(b: Block) returns (addrs: seq<Address>)
    ensures forall a :: a in addrs <==> a in Touched(b.txs)
    ensures forall i, j :: 0 <= i < j < |addrs| ==> addrs[i] != addrs[j]
  {
    var left: set<Address> := {};
    for i := 0 to |b.txs|
      invariant left == Touched(b.txs[..i])
    {
      assert b.txs[..i + 1][..i] == b.txs[..i];
      left := left + TxTouched(b.txs[i]);
    }
    assert b.txs[..|b.txs|] == b.txs;
    addrs := [];
    while left != {}
      invariant forall a :: a in Touched(b.txs) <==> a in left || a in addrs
      invariant forall a :: a in addrs ==> a !in left
      invariant forall i, j :: 0 <= i < j < |addrs| ==> addrs[i] != addrs[j]
      decreases |left|
    {
      var a :| a in left;
      addrs, left := addrs + [a], left - {a};
    }
  }

  /** The value inserted where the ascending order puts it. */
  method InsertValue(vals: seq<nat>, v: nat) returns (out: seq<nat>)
    requires Ordered(vals)
    ensures Ordered(out) && multiset(out) == multiset(vals) + multiset{v}
  {
    var i := |vals|;
    while i > 0 && vals[i - 1] > v
      invariant 0 <= i <= |vals| && (i < |vals| ==> v < vals[i])
    {
      i := i - 1;
    }
    out := vals[..i] + [v] + vals[i..];
    InsertKeepsItems(vals, i, v);
    InsertKeepsOrder(vals, i, v);
  }

  lemma InsertKeepsItems(vals: seq<nat>, i: nat, v: nat)
    requires i <= |vals|
    ensures multiset(vals[..i] + [v] + vals[i..]) == multiset(vals) + multiset{v}
  {
    assert vals == vals[..i] + vals[i..];
  }

  lemma InsertKeepsOrder(vals: seq<nat>, i: nat, v: nat)
    requires Ordered(vals) && i <= |vals| && (i > 0 ==> vals[i - 1] <= v) && (i < |vals| ==> v < vals[i])
    ensures Ordered(vals[..i] + [v] + vals[i..])
  {
    var out := vals[..i] + [v] + vals[i..];
    forall a, b | 0 <= a < b < |out| ensures out[a] <= out[b] {
      assert out[a] == if a < i then vals[a] else if a == i then v else vals[a - 1];
      assert out[b] == if b < i then vals[b] else if b == i then v else vals[b - 1];
    }
  }

  ghost predicate Ordered(vals: seq<nat>) {
    forall i, j :: 0 <= i < j < |vals| ==> vals[i] <= vals[j]
  }

  method SortValues(vals: seq<nat>) returns (out: seq<nat>)
    ensures Ordered(out) && multiset(out) == multiset(vals)
  {
    out := [];
    for i := 0 to |vals|
      invariant Ordered(out) && multiset(out) == multiset(vals[..i])
    {
      out := InsertValue(out, vals[i]);
      assert vals[..i + 1] == vals[..i] + [vals[i]];
    }
    assert vals[..|vals|] == vals;
  }

  lemma {:induction false} OrderedAscends(vals: seq<nat>, last: nat)
    requires Ordered(vals) && (vals != [] ==> last <= vals[0])
    ensures Ascending(vals, last)
    decreases |vals|
  {
    if vals != [] {
      OrderedAscends(vals[1..], vals[0]);
    }
  }

  /** One Golomb-Rice code: the quotient in unary, then the remainder. */
  method WriteDelta(bw: BitWriter, delta: nat)
    requires bw.Valid()
    modifies bw
    ensures bw.Valid() && bw.bits == old(bw.bits) + CodeDelta(delta)
  {
    var q := delta / REMAINDERS;
    var j := 0;
    while j < q
      invariant 0 <= j <= q && bw.Valid()
      invariant bw.bits + Unary(q - j) == old(bw.bits) + Unary(q)
    {
      ghost var was := bw.bits;
      bw.WriteBit(true);
      assert was + Unary(q - j) == bw.bits + Unary(q - j - 1);
      j := j + 1;
    }
    bw.WriteBit(false);
    assert bw.bits == old(bw.bits) + Unary(q);
    bw.WriteBits(delta % REMAINDERS, GCS_P);
    assert bw.bits == old(bw.bits) + (Unary(q) + Binary(delta % REMAINDERS, GCS_P));
  }

  /** The differences between ascending values, coded one after another. */
  method WriteValues(vals: seq<nat>) returns (buf: Bytes)
    requires Ascending(vals, 0)
    ensures StandsAt(BitsOf(buf), 0, CodeAll(vals, 0))
  {
    var bw := new BitWriter();
    var last := 0;
    assert vals[0..] == vals;
    for i := 0 to |vals|
      invariant bw.Valid() && Ascending(vals[i..], last)
      invariant bw.bits + CodeAll(vals[i..], last) == CodeAll(vals, 0)
    {
      CodeNext(vals, i, last, bw.bits);
      WriteDelta(bw, vals[i] - last);
      last := vals[i];
    }
    buf := bw.buf;
  }

  lemma CodeNext(vals: seq<nat>, i: nat, last: nat, bits: seq<bool>)
    requires i < |vals| && Ascending(vals[i..], last)
    ensures last <= vals[i] && Ascending(vals[i + 1..], vals[i])
    ensures bits + CodeAll(vals[i..], last) == (bits + CodeDelta(vals[i] - last)) + CodeAll(vals[i + 1..], vals[i])
  {
    assert vals[i..][1..] == vals[i + 1..];
    Regroup(bits, CodeDelta(vals[i] - last), CodeAll(vals[i + 1..], vals[i]));
  }

  /** Builds a block's filter.  It never misses an address the block touches, and matches another
      one exactly when the two share a place. */
  method BuildBlockFilter(k: Keying, b: Block) returns (f: BlockFilter)
    ensures forall addr :: addr in Touched(b.txs) ==> Matches(k, f, addr)
    ensures f.blockHash == b.hash && f.index == b.index
    ensures forall addr :: Matches(k, f, addr) <==>
      exists a :: a in Touched(b.txs) && PlaceOf(k, KeySeed(k, b), f.n, a) == PlaceOf(k, KeySeed(k, b), f.n, addr)
  {
    var addrs := BlockAddresses(b);
    var n := |addrs|;
    if n == 0 {
      return BlockFilter(b.index, 0, b.hash, [], []);
    }
    var seed := KeySeed(k, b);
    var vals := Places(k, seed, addrs);
    var sorted := SortValues(vals);
    OrderedAscends(sorted, 0);
    var data := WriteValues(sorted);
    f := BlockFilter(b.index, n, b.hash, data, if seed != b.hash then seed else []);
    assert |sorted| == n by {
      assert |multiset(sorted)| == |multiset(vals)|;
    }
    forall addr
      ensures Matches(k, f, addr) <==>
        exists a :: a in Touched(b.txs) && PlaceOf(k, seed, n, a) == PlaceOf(k, seed, n, addr)
    {
      MatchesExactly(k, f, addrs, vals, sorted, addr);
    }
  }

  method Places(k: Keying, seed: Bytes, addrs: seq<Address>) returns (vals: seq<nat>)
    ensures |vals| == |addrs|
    ensures forall i :: 0 <= i < |addrs| ==> vals[i] == PlaceOf(k, seed, |addrs|, addrs[i])
  {
    vals := [];
    for i := 0 to |addrs|
      invariant |vals| == i && forall j :: 0 <= j < i ==> vals[j] == PlaceOf(k, seed, |addrs|, addrs[j])
    {
      vals := vals + [PlaceOf(k, seed, |addrs|, addrs[i])];
    }
  }

  /** What matching an address decides. */
  ghost predicate Matches(k: Keying, f: BlockFilter, addr: Address) {
    f.n != 0 && Walk(BitsOf(f.data), 0, f.n, 0, PlaceOf(k, StatedSeed(f), f.n, addr))
  }

  /** A filter over sorted places matches exactly the addresses that share one. */
  lemma MatchesExactly(k: Keying, f: BlockFilter, addrs: seq<Address>, vals: seq<nat>, sorted: seq<nat>, addr: Address)
    requires f.n == |addrs| == |vals| == |sorted| > 0 && multiset(sorted) == multiset(vals)
    requires forall i :: 0 <= i < |addrs| ==> vals[i] == PlaceOf(k, StatedSeed(f), f.n, addrs[i])
    requires Ascending(sorted, 0) && StandsAt(BitsOf(f.data), 0, CodeAll(sorted, 0))
    ensures Matches(k, f, addr) <==>
      exists a :: a in addrs && PlaceOf(k, StatedSeed(f), f.n, a) == PlaceOf(k, StatedSeed(f), f.n, addr)
  {
    var target := PlaceOf(k, StatedSeed(f), f.n, addr);
    forall i | 0 <= i < |sorted| ensures sorted[i] < U64_LIMIT {
      assert sorted[i] in multiset(sorted);
      assert sorted[i] in vals;
    }
    WalkFinds(BitsOf(f.data), 0, sorted, 0, target);
    assert target in sorted <==> target in multiset(sorted);
    assert target in vals <==> target in multiset(vals);
    if target in vals {
      var i :| 0 <= i < |vals| && vals[i] == target;
      assert addrs[i] in addrs;
    }
  }

  /** Reads one coded difference. */
  method NextDelta(br: BitReader) returns (d: nat, ok: bool)
    requires br.Valid()
    modifies br
    ensures br.Valid() && (ok <==> ReadDelta(BitsOf(br.buf), old(br.pos)).Some?)
    ensures ok ==> ReadDelta(BitsOf(br.buf), old(br.pos)) == Some(Delta(d, br.pos))
  {
    ghost var bits := BitsOf(br.buf);
    var q := 0;
    var more := true;
    while more
      invariant br.Valid()
      invariant more ==> Continues(bits, old(br.pos), q, br.pos)
      invariant !more ==> ReadUnary(bits, old(br.pos)) == Some(Delta(q, br.pos))
      decreases |bits| - br.pos, more
    {
      var b, okBit := br.ReadBit();
      if !okBit {
        return 0, false;
      }
      if b {
        q := q + 1;
      } else {
        more := false;
      }
    }
    var rem, okRem := br.ReadBits(GCS_P);
    if !okRem {
      return 0, false;
    }
    return Shifted(q) + rem, true;
  }

  /** Reading on from `p` after `q` ones is reading from `start`. */
  ghost predicate Continues(bits: seq<bool>, start: nat, q: nat, p: nat)
    requires start <= |bits| && p <= |bits|
  {
    var whole, rest := ReadUnary(bits, start), ReadUnary(bits, p);
    if rest.None? then whole.None? else whole == Some(Delta(q + rest.value.value, rest.value.next))
  }

  /** Tests an address; false means it is certainly not in the block. */
  method Match(k: Keying, f: BlockFilter, addr: Address) returns (found: bool)
    ensures found <==> Matches(k, f, addr)
  {
    if f.n == 0 {
      return false;
    }
    var target := PlaceOf(k, StatedSeed(f), f.n, addr);
    var br := new BitReader(f.data);
    var val: nat := 0;
    ghost var bits := BitsOf(f.data);
    for i := 0 to f.n
      invariant br.Valid() && br.buf == f.data
      invariant Walk(bits, br.pos, f.n - i, val, target) == Walk(bits, 0, f.n, 0, target)
    {
      var d, ok := NextDelta(br);
      if !ok {
        return false;
      }
      val := Wrapped(val + d);
      if val == target {
        return true;
      }
      if val > target {
        return false;
      }
    }
    return false;
  }
}
