/** The pool's secondary indexes, each determined by the transactions it holds. */
module PoolIndexes {
  import opened Bytes
  import opened Seqs
  import opened Transactions

  type Txs = map<Digest, Tx>
  type Queue = map<Word, Digest>

  type Measure = Tx -> nat

  ghost function Sum(txs: Txs, w: Measure): (n: nat)
    decreases |txs|
  {
    if txs == map[] then 0
    else
      var h :| h in txs;
      w(txs[h]) + Sum(txs - {h}, w)
  }

  lemma {:induction false} SumTakes(txs: Txs, w: Measure, h: Digest)
    requires h in txs
    ensures Sum(txs, w) == w(txs[h]) + Sum(txs - {h}, w)
    decreases |txs|
  {
    var g :| g in txs && Sum(txs, w) == w(txs[g]) + Sum(txs - {g}, w);
    if g != h {
      SumTakes(txs - {g}, w, h);
      SumTakes(txs - {h}, w, g);
      assert txs - {g} - {h} == txs - {h} - {g};
    }
  }

  lemma SumGains(txs: Txs, w: Measure, h: Digest, tx: Tx)
    requires h !in txs
    ensures Sum(txs[h := tx], w) == Sum(txs, w) + w(tx)
  {
    SumTakes(txs[h := tx], w, h);
    assert txs[h := tx] - {h} == txs;
  }

  /** Dropping transactions never raises a total. */
  lemma {:induction false} SumShrinks(less: Txs, more: Txs, w: Measure)
    requires forall h :: h in less ==> h in more && more[h] == less[h]
    ensures Sum(less, w) <= Sum(more, w)
    decreases |more|
  {
    if less == map[] {
    } else {
      var h :| h in less;
      SumTakes(less, w, h);
      SumTakes(more, w, h);
      SumShrinks(less - {h}, more - {h}, w);
    }
  }

  /** The fees one sponsor has agreed to pay. */
  function Promised(payer: Address): (w: Measure) {
    (tx: Tx) => if IsSponsored(tx) && tx.feePayer == payer then tx.fee else 0
  }

  function Count(sponsored: map<Address, Word>, payer: Address): (n: Word) {
    if payer in sponsored then sponsored[payer] else 0
  }

  /** Everyone a coin transfer pays. */
  function Recipients(tx: Tx): (s: set<Address>) {
    (set o | o in Outputs(tx) :: o.recipient) - {[]}
  }

  predicate MovesNoCoin(tx: Tx) {
    IsAssetTransfer(tx) || tx.issue.Some?
  }

  /** The addresses whose lists a transaction goes on, and those it is taken off. */
  function Credited(tx: Tx): (s: set<Address>) {
    if MovesNoCoin(tx) then {} else Recipients(tx) - {tx.sender}
  }

  function Uncredited(tx: Tx): (s: set<Address>) {
    if MovesNoCoin(tx) then {} else Recipients(tx)
  }

  /** Being paid by somebody else's queued transaction. */
  predicate Credits(tx: Tx, a: Address) {
    !MovesNoCoin(tx) && a in Recipients(tx) && a != tx.sender
  }

  function Crediting(credited: map<Address, seq<Digest>>, a: Address): (list: seq<Digest>) {
    if a in credited then credited[a] else []
  }

  /** The five fields of the pool. */
  datatype Shelf = Shelf(
    txs: Txs,
    bySender: map<Address, Queue>,
    sponsored: map<Address, Word>,
    bytes: int,
    credited: map<Address, seq<Digest>>)

  function QueueOf(bySender: map<Address, Queue>, a: Address): (q: Queue) {
    if a in bySender then bySender[a] else map[]
  }

  ghost predicate Keyed(id: Tx -> Digest, txs: Txs) {
    forall h :: h in txs ==> id(txs[h]) == h
  }

  /** A slot names a transaction exactly when the pool holds it for that sender and nonce. */
  ghost predicate SlotExact(txs: Txs, bySender: map<Address, Queue>, a: Address, n: Word) {
    var q := QueueOf(bySender, a);
    && (n in q ==> q[n] in txs && txs[q[n]].sender == a && txs[q[n]].nonce == n)
    && (forall h :: h in txs && txs[h].sender == a && txs[h].nonce == n ==> n in q && q[n] == h)
  }

  ghost predicate SendersExact(txs: Txs, bySender: map<Address, Queue>) {
    && (forall a, n :: SlotExact(txs, bySender, a, n))
    && (forall a :: a in bySender ==> bySender[a] != map[])
  }

  ghost predicate PromiseExact(txs: Txs, sponsored: map<Address, Word>, payer: Address) {
    Count(sponsored, payer) == Sum(txs, Promised(payer)) % U64_LIMIT
  }

  ghost predicate CreditExact(txs: Txs, credited: map<Address, seq<Digest>>, a: Address) {
    var list := Crediting(credited, a);
    && NoRepeats(list) && (forall h :: h in list <==> h in txs && Credits(txs[h], a))
    && (a in credited ==> list != [])
  }

  /** Every index says exactly what the transactions say. */
  ghost predicate Exact(id: Tx -> Digest, size: Measure, s: Shelf) {
    && Keyed(id, s.txs) && SendersExact(s.txs, s.bySender)
    && (forall payer :: PromiseExact(s.txs, s.sponsored, payer))
    && s.bytes == Sum(s.txs, size)
    && (forall a :: CreditExact(s.txs, s.credited, a))
  }

  lemma SlotInserted(txs: Txs, bySender: map<Address, Queue>, h: Digest, tx: Tx)
    requires SendersExact(txs, bySender) && h !in txs && tx.nonce !in QueueOf(bySender, tx.sender)
    ensures SendersExact(txs[h := tx], bySender[tx.sender := QueueOf(bySender, tx.sender)[tx.nonce := h]])
  {
    var next := bySender[tx.sender := QueueOf(bySender, tx.sender)[tx.nonce := h]];
    var more := txs[h := tx];
    forall a, n ensures SlotExact(more, next, a, n) {
      assert SlotExact(txs, bySender, a, n);
    }
  }

  /** The slot is cleared, and a sender without slots is dropped. */
  function Cleared(bySender: map<Address, Queue>, tx: Tx): (r: map<Address, Queue>) {
    var q := QueueOf(bySender, tx.sender) - {tx.nonce};
    if q == map[] then bySender - {tx.sender} else bySender[tx.sender := q]
  }

  lemma ClearedQueue(bySender: map<Address, Queue>, tx: Tx, a: Address)
    ensures QueueOf(Cleared(bySender, tx), a) == if a == tx.sender then QueueOf(bySender, a) - {tx.nonce} else QueueOf(bySender, a)
  {
  }

  lemma SlotDeleted(txs: Txs, bySender: map<Address, Queue>, h: Digest)
    requires SendersExact(txs, bySender) && h in txs
    ensures SendersExact(txs - {h}, Cleared(bySender, txs[h]))
    ensures var tx := txs[h]; tx.nonce in QueueOf(bySender, tx.sender) && QueueOf(bySender, tx.sender)[tx.nonce] == h
  {
    var tx := txs[h];
    assert SlotExact(txs, bySender, tx.sender, tx.nonce);
    forall a, n ensures SlotExact(txs - {h}, Cleared(bySender, tx), a, n) {
      assert SlotExact(txs, bySender, a, n);
      ClearedQueue(bySender, tx, a);
    }
  }

  function Raised(sponsored: map<Address, Word>, tx: Tx): (r: map<Address, Word>) {
    if IsSponsored(tx) then sponsored[tx.feePayer := (Count(sponsored, tx.feePayer) + tx.fee) % U64_LIMIT] else sponsored
  }

  /** A sponsor whose total reads zero is dropped. */
  function Lowered(sponsored: map<Address, Word>, tx: Tx): (r: map<Address, Word>) {
    if !IsSponsored(tx) then sponsored
    else
      var n := (Count(sponsored, tx.feePayer) - tx.fee) % U64_LIMIT;
      if n == 0 then sponsored - {tx.feePayer} else sponsored[tx.feePayer := n]
  }

  lemma PromiseInserted(txs: Txs, sponsored: map<Address, Word>, h: Digest, tx: Tx, payer: Address)
    requires PromiseExact(txs, sponsored, payer) && h !in txs
    ensures PromiseExact(txs[h := tx], Raised(sponsored, tx), payer)
  {
    SumGains(txs, Promised(payer), h, tx);
    WordPlus(Sum(txs, Promised(payer)), tx.fee);
  }

  lemma PromiseDeleted(txs: Txs, sponsored: map<Address, Word>, h: Digest, payer: Address)
    requires PromiseExact(txs, sponsored, payer) && h in txs
    ensures PromiseExact(txs - {h}, Lowered(sponsored, txs[h]), payer)
  {
    SumTakes(txs, Promised(payer), h);
    WordMinus(Sum(txs - {h}, Promised(payer)), Promised(payer)(txs[h]));
  }

  lemma WordPlus(rest: nat, fee: nat)
    ensures (rest % U64_LIMIT + fee) % U64_LIMIT == (rest + fee) % U64_LIMIT
  {
  }

  lemma WordMinus(rest: nat, fee: nat)
    ensures ((rest + fee) % U64_LIMIT - fee) % U64_LIMIT == rest % U64_LIMIT
  {
  }

  lemma DistinctCons(x: Digest, list: seq<Digest>)
    requires NoRepeats(list) && x !in list
    ensures NoRepeats([x] + list)
  {
  }

  /** A list without its first `h`. */
  function Without(list: seq<Digest>, h: Digest): (r: seq<Digest>)
    ensures h !in list ==> r == list
    ensures NoRepeats(list) ==> NoRepeats(r) && forall g :: g in r <==> g in list && g != h
  {
    if list == [] then []
    else if list[0] == h then
      assert list == [h] + list[1..];
      list[1..]
    else
      assert list == [list[0]] + list[1..];
      var rest := Without(list[1..], h);
      assert NoRepeats(list) ==> NoRepeats([list[0]] + rest) by {
        if NoRepeats(list) {
          DistinctCons(list[0], rest);
        }
      }
      [list[0]] + rest
  }

  /** The address's list once the transaction is on it. */
  ghost predicate CreditPlaced(was: map<Address, seq<Digest>>, now: map<Address, seq<Digest>>, h: Digest, todo: set<Address>, a: Address) {
    && Crediting(now, a) == Crediting(was, a) + (if a in todo then [h] else [])
    && (a in now <==> a in was || a in todo)
  }

  /** A new transaction goes on the list of everyone it pays but its sender. */
  method IndexCredits(credited: map<Address, seq<Digest>>, h: Digest, tx: Tx) returns (r: map<Address, seq<Digest>>)
    ensures forall a :: CreditPlaced(credited, r, h, Credited(tx), a)
  {
    r := credited;
    var payees := Credited(tx);
    var left := payees;
    while left != {}
      invariant left <= payees
      invariant forall a :: CreditPlaced(credited, r, h, payees - left, a)
      decreases left
    {
      var a :| a in left;
      assert CreditPlaced(credited, r, h, payees - left, a);
      var next := r[a := Crediting(r, a) + [h]];
      forall k ensures CreditPlaced(credited, next, h, payees - (left - {a}), k) {
        assert CreditPlaced(credited, r, h, payees - left, k);
      }
      r, left := next, left - {a};
    }
    assert payees - {} == payees;
  }

  ghost predicate CreditRemoved(was: map<Address, seq<Digest>>, now: map<Address, seq<Digest>>, h: Digest, todo: set<Address>, a: Address) {
    && Crediting(now, a) == (if a in todo then Without(Crediting(was, a), h) else Crediting(was, a))
    && (a in now ==> if a in todo then Crediting(now, a) != [] else a in was)
  }

  /** And comes off the list of everyone it pays. */
  method UnindexCredits(credited: map<Address, seq<Digest>>, h: Digest, tx: Tx) returns (r: map<Address, seq<Digest>>)
    ensures forall a :: CreditRemoved(credited, r, h, Uncredited(tx), a)
  {
    r := credited;
    var payees := Uncredited(tx);
    var left := payees;
    while left != {}
      invariant left <= payees
      invariant forall a :: CreditRemoved(credited, r, h, payees - left, a)
      decreases left
    {
      var a :| a in left;
      assert CreditRemoved(credited, r, h, payees - left, a);
      var list := Without(Crediting(r, a), h);
      var next := if list == [] then r - {a} else r[a := list];
      forall k ensures CreditRemoved(credited, next, h, payees - (left - {a}), k) {
        assert CreditRemoved(credited, r, h, payees - left, k);
      }
      r, left := next, left - {a};
    }
    assert payees - {} == payees;
  }

  lemma CreditInserted(txs: Txs, was: map<Address, seq<Digest>>, now: map<Address, seq<Digest>>, h: Digest, tx: Tx, a: Address)
    requires CreditExact(txs, was, a) && h !in txs
    requires CreditPlaced(was, now, h, Credited(tx), a)
    ensures CreditExact(txs[h := tx], now, a)
  {
  }

  lemma CreditDeleted(txs: Txs, was: map<Address, seq<Digest>>, now: map<Address, seq<Digest>>, h: Digest, a: Address)
    requires CreditExact(txs, was, a) && h in txs
    requires CreditRemoved(was, now, h, Uncredited(txs[h]), a)
    ensures CreditExact(txs - {h}, now, a)
  {
  }
}
