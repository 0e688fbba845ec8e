/** The rate a transaction is judged by: its own, or that of the package it heads if that pays better. */
module PackageRates {
  import opened Bytes
  import opened Seqs
  import opened Transactions
  import opened PoolIndexes
  import opened Admission
  import opened Packages
  import opened PackageLimits

  /** The sender's transactions after this one. */
  ghost function Later(txs: Txs, tx: Tx): (ds: set<Digest>) {
    set d | d in txs && txs[d].sender == tx.sender && txs[d].nonce > tx.nonce
  }

  function FeeOf(tx: Tx): (n: nat) {
    tx.fee
  }

  function PerByte(fees: nat, size: nat): (rate: real) {
    if size > 0 then fees as real / size as real else 0.0
  }

  ghost function Fees(txs: Txs, ds: set<Digest>): (n: nat) {
    Sum(Only(txs, ds), FeeOf)
  }

  ghost function Size(txs: Txs, ds: set<Digest>, size: Measure): (n: nat) {
    Sum(Only(txs, ds), size)
  }

  /** The better of a transaction's own rate and its rate together with these, fees summed in 64 bits. */
  ghost function RateWith(txs: Txs, tx: Tx, size: Measure, ds: set<Digest>): (rate: real) {
    var own := PerByte(tx.fee, size(tx));
    var all := PerByte((tx.fee + Fees(txs, ds)) % U64_LIMIT, size(tx) + Size(txs, ds, size));
    if all > own then all else own
  }

  /** What a transaction is priced with: what was found to depend on it, and its sender's later ones. */
  ghost function Priced(v: View, h: Digest, below: set<Digest>): (ds: set<Digest>)
    requires h in v.s.txs
  {
    below + Later(v.s.txs, v.s.txs[h]) - {h}
  }

  /** The sender's slots above this one. */
  method LaterOf(s: Shelf, tx: Tx) returns (ds: set<Digest>)
    requires SendersExact(s.txs, s.bySender)
    ensures ds == Later(s.txs, tx)
  {
    var queue := Others(s, tx.sender, None);
    ds := {};
    for i := 0 to |queue|
      invariant ds <= Later(s.txs, tx)
      invariant forall j :: 0 <= j < i && s.txs[queue[j]].nonce > tx.nonce ==> queue[j] in ds
    {
      assert queue[i] in queue;
      if s.txs[queue[i]].nonce > tx.nonce {
        ds := ds + {queue[i]};
      }
    }
    forall d | d in Later(s.txs, tx) ensures d in ds {
      assert d in queue;
    }
  }

  /** Adds these to a transaction's fee, in 64 bits, and to its size. */
  method AddPackage(txs: Txs, tx: Tx, size: Measure, ds: set<Digest>) returns (fees: Word, bytes: nat)
    requires ds <= txs.Keys
    ensures fees == (tx.fee + Fees(txs, ds)) % U64_LIMIT && bytes == size(tx) + Size(txs, ds, size)
  {
    fees, bytes := tx.fee, size(tx);
    var left := ds;
    ghost var total := tx.fee + Fees(txs, ds);
    while left != {}
      invariant left <= ds && (fees + Fees(txs, left)) % U64_LIMIT == total % U64_LIMIT
      invariant bytes + Size(txs, left, size) == size(tx) + Size(txs, ds, size)
      decreases left
    {
      var d :| d in left;
      BytesSplit(txs, left, FeeOf, d);
      BytesSplit(txs, left, size, d);
      NextWord(fees, txs[d].fee, Fees(txs, left - {d}), total);
      fees := (fees + txs[d].fee) % U64_LIMIT;
      bytes := bytes + size(txs[d]);
      left := left - {d};
    }
    assert Only(txs, {}) == map[];
  }

  method Judge(txs: Txs, tx: Tx, size: Measure, ds: set<Digest>) returns (rate: real)
    requires ds <= txs.Keys
    ensures rate == RateWith(txs, tx, size, ds)
  {
    var fees, bytes := AddPackage(txs, tx, size, ds);
    var own, all := PerByte(tx.fee, size(tx)), PerByte(fees, bytes);
    rate := if all > own then all else own;
  }

  method PackageRate(v: View, size: Measure, h: Digest) returns (rate: real, ghost below: set<Digest>)
    requires SendersExact(v.s.txs, v.s.bySender) && h in v.s.txs
    ensures Found(v, h, below) && rate == RateWith(v.s.txs, v.s.txs[h], size, Priced(v, h, below))
  {
    var tx := v.s.txs[h];
    var ds := Descendants(v, h);
    below := ds;
    var later := LaterOf(v.s, tx);
    PricedKnown(v, h, below);
    rate := Judge(v.s.txs, tx, size, ds + later - {h});
  }

  lemma PricedKnown(v: View, h: Digest, below: set<Digest>)
    requires h in v.s.txs && Found(v, h, below)
    ensures Priced(v, h, below) <= v.s.txs.Keys
  {
  }

  lemma Cross(a: real, b: real, c: real, d: real)
    requires b > 0.0 && d > 0.0
    ensures a / b > c / d <==> a * d > c * b
  {
    var x, y := a / b, c / d;
    assert x * b == a && y * d == c;
    Scaled(x, y, b * d);
    assert a * d == x * (b * d) && c * b == y * (b * d);
  }

  lemma Scaled(x: real, y: real, k: real)
    requires k > 0.0
    ensures x > y <==> x * k > y * k
  {
  }

  lemma Mediant(f: nat, s: nat, g: nat, r: nat)
    requires s > 0 && r > 0
    ensures PerByte(f + g, s + r) > PerByte(f, s) <==> PerByte(g, r) > PerByte(f, s)
  {
    Cross((f + g) as real, (s + r) as real, f as real, s as real);
    Cross(g as real, r as real, f as real, s as real);
  }

  /** A package raises a transaction's rate exactly when what rides on it pays more per byte than it
      does; it never lowers it. */
  lemma RaisedByBetter(txs: Txs, tx: Tx, size: Measure, ds: set<Digest>)
    requires size(tx) > 0 && Size(txs, ds, size) > 0 && tx.fee + Fees(txs, ds) < U64_LIMIT
    ensures RateWith(txs, tx, size, ds) >= PerByte(tx.fee, size(tx))
    ensures RateWith(txs, tx, size, ds) > PerByte(tx.fee, size(tx)) <==>
      PerByte(Fees(txs, ds), Size(txs, ds, size)) > PerByte(tx.fee, size(tx))
  {
    Mediant(tx.fee, size(tx), Fees(txs, ds), Size(txs, ds, size));
  }

  /** Where fewer depend on it than the walk has steps, every walk gives it the same rate. */
  lemma RateDetermined(v: View, size: Measure, h: Digest, below: set<Digest>)
    requires h in v.s.txs && Found(v, h, below) && |Dependents(v, v.s.txs[h]) - {h}| < MAX_DEPTH
    ensures RateWith(v.s.txs, v.s.txs[h], size, Priced(v, h, below)) ==
      RateWith(v.s.txs, v.s.txs[h], size, Priced(v, h, Dependents(v, v.s.txs[h])))
  {
    SubsetSmaller(below, Dependents(v, v.s.txs[h]) - {h});
    assert Priced(v, h, below) == Priced(v, h, Dependents(v, v.s.txs[h]));
  }
}
