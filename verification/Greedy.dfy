/** Greedy choice of a block's transactions: per-sender queues in nonce order, one cursor each,
    and the best-paying head that fits. */
module Greedy {
  import opened Bytes
  import opened Seqs
  import opened Transactions
  import opened ByteOrder

  const MAX_BLOCK_BYTES := 1_000_000
  const MAX_BLOCK_VERIFY_OPS := 8000
  const LAST_NONCE: Word := U64_LIMIT - 1

  /** What choosing looks at, over a simulated ledger of type `C`. */
  datatype Desk<!C> = Desk(
    admissible: Tx -> bool,
    nonce: (C, Address) -> Word,
    affordable: (C, Tx) -> bool,
    picked: (C, Tx) -> C,
    size: Tx -> nat,
    ops: Tx -> nat,
    rate: Tx -> real,
    hash: Tx -> Digest)

  /** Picking a sender's next transaction moves that sender's nonce and nobody else's. */
  ghost predicate Orderly<C(!new)>(d: Desk<C>) {
    forall c, tx, a {:trigger d.nonce(d.picked(c, tx), a)} ::
      d.nonce(d.picked(c, tx), a) == if a == tx.sender then (d.nonce(c, a) + 1) % U64_LIMIT else d.nonce(c, a)
  }

  /** A block being filled: the simulated ledger, the budgets spent, the names acted on. */
  datatype Draft<C> = Draft(cache: C, weight: nat, ops: nat, claimed: set<Bytes>)

  function Add<C>(d: Desk<C>, p: Draft<C>, tx: Tx): (q: Draft<C>) {
    Draft(d.picked(p.cache, tx), p.weight + d.size(tx), p.ops + d.ops(tx),
          if tx.name.Some? then p.claimed + {tx.name.value.name} else p.claimed)
  }

  function AddAll<C>(d: Desk<C>, start: C, chosen: seq<Tx>): (p: Draft<C>) {
    if chosen == [] then Draft(start, 0, 0, {})
    else Add(d, AddAll(d, start, chosen[..|chosen| - 1]), chosen[|chosen| - 1])
  }

  predicate Fits<C>(d: Desk<C>, p: Draft<C>, tx: Tx) {
    && d.nonce(p.cache, tx.sender) == tx.nonce
    && p.weight + d.size(tx) <= MAX_BLOCK_BYTES && p.ops + d.ops(tx) <= MAX_BLOCK_VERIFY_OPS
    && d.affordable(p.cache, tx)
    && (tx.name.Some? ==> tx.name.value.name !in p.claimed)
  }

  /** A sender's transactions go in by rising nonce. */
  ghost predicate Rises(chosen: seq<Tx>, tx: Tx) {
    forall x :: x in chosen && x.sender == tx.sender ==> x.nonce < tx.nonce
  }

  ghost predicate Eligible<C>(d: Desk<C>, start: C, chosen: seq<Tx>, tx: Tx) {
    d.admissible(tx) && Fits(d, AddAll(d, start, chosen), tx) && Rises(chosen, tx)
  }

  /** More per byte first; between equals the smaller hash. */
  predicate Outbids<C>(d: Desk<C>, a: Tx, b: Tx) {
    d.rate(a) > d.rate(b) || (d.rate(a) == d.rate(b) && Before(d.hash(a), d.hash(b)))
  }

  ghost predicate BestPick<C>(d: Desk<C>, start: C, pool: seq<Tx>, chosen: seq<Tx>, tx: Tx) {
    && tx in pool && Eligible(d, start, chosen, tx)
    && forall y :: y in pool && Eligible(d, start, chosen, y) ==> !Outbids(d, y, tx)
  }

  /** Every choice was the best one open at its turn. */
  ghost predicate ChosenGreedily<C>(d: Desk<C>, start: C, pool: seq<Tx>, chosen: seq<Tx>) {
    forall k :: 0 <= k < |chosen| ==> BestPick(d, start, pool, chosen[..k], chosen[k])
  }

  ghost predicate Exhausted<C>(d: Desk<C>, start: C, pool: seq<Tx>, chosen: seq<Tx>) {
    forall y :: y in pool ==> !Eligible(d, start, chosen, y)
  }

  /** One transaction for each sender and nonce. */
  ghost predicate SlotKeyed(pool: seq<Tx>) {
    forall x, y :: x in pool && y in pool && x.sender == y.sender && x.nonce == y.nonce ==> x == y
  }

  ghost predicate HashKeyed<C>(d: Desk<C>, pool: seq<Tx>) {
    forall x, y :: x in pool && y in pool && d.hash(x) == d.hash(y) ==> x == y
  }

  /** What is fixed about a transaction while a block is chosen, computed once. */
  datatype Candidate = Candidate(tx: Tx, hash: Digest, size: nat, ops: nat, rate: real)

  function CandidateOf<C>(d: Desk<C>, tx: Tx): (c: Candidate) {
    Candidate(tx, d.hash(tx), d.size(tx), d.ops(tx), d.rate(tx))
  }

  predicate ByNonce(cs: seq<Candidate>) {
    forall i, j :: 0 <= i < j < |cs| ==> cs[i].tx.nonce <= cs[j].tx.nonce
  }

  function Inserted(c: Candidate, cs: seq<Candidate>): (r: seq<Candidate>)
    requires ByNonce(cs)
    ensures ByNonce(r) && forall x :: x in r <==> x == c || x in cs
  {
    if cs == [] || c.tx.nonce <= cs[0].tx.nonce then [c] + cs
    else
      var rest := Inserted(c, cs[1..]);
      FirstLowest(cs[0], c, cs, rest);
      [cs[0]] + rest
  }

  lemma FirstLowest(low: Candidate, c: Candidate, cs: seq<Candidate>, rest: seq<Candidate>)
    requires cs != [] && low == cs[0] && ByNonce(cs) && ByNonce(rest) && low.tx.nonce <= c.tx.nonce
    requires forall x :: x in rest <==> x == c || x in cs[1..]
    ensures ByNonce([low] + rest) && forall x :: x in [low] + rest <==> x == c || x in cs
  {
    assert cs == [low] + cs[1..];
    forall j | 0 <= j < |rest| ensures low.tx.nonce <= rest[j].tx.nonce {
      assert rest[j] in rest;
    }
  }

  function InNonceOrder(cs: seq<Candidate>): (r: seq<Candidate>)
    ensures ByNonce(r) && forall x :: x in r <==> x in cs
  {
    if cs == [] then [] else Inserted(cs[0], InNonceOrder(cs[1..]))
  }

  type Queues = map<Address, seq<Candidate>>

  predicate QueueOf<C>(d: Desk<C>, pool: seq<Tx>, from: Address, cs: seq<Candidate>) {
    forall c :: c in cs ==> c == CandidateOf(d, c.tx) && c.tx in pool && d.admissible(c.tx) && c.tx.sender == from
  }

  ghost predicate Queued<C>(d: Desk<C>, queues: Queues, tx: Tx) {
    tx.sender in queues && CandidateOf(d, tx) in queues[tx.sender]
  }

  /** The queues hold the admissible part of the pool. */
  ghost predicate Sorted<C>(d: Desk<C>, pool: seq<Tx>, queues: Queues) {
    && (forall from :: from in queues ==> QueueOf(d, pool, from, queues[from]))
    && (forall tx :: tx in pool && d.admissible(tx) ==> Queued(d, queues, tx))
  }

  lemma Dropped<C>(d: Desk<C>, pool: seq<Tx>, queues: Queues, tx: Tx)
    requires Sorted(d, pool, queues) && !d.admissible(tx)
    ensures Sorted(d, pool + [tx], queues)
  {
    forall from | from in queues ensures QueueOf(d, pool + [tx], from, queues[from]) {
      assert QueueOf(d, pool, from, queues[from]);
    }
  }

  lemma Grouped<C>(d: Desk<C>, pool: seq<Tx>, queues: Queues, tx: Tx, line: seq<Candidate>)
    requires Sorted(d, pool, queues) && d.admissible(tx)
    requires line == if tx.sender in queues then queues[tx.sender] else []
    ensures Sorted(d, pool + [tx], queues[tx.sender := line + [CandidateOf(d, tx)]])
  {
    var next := queues[tx.sender := line + [CandidateOf(d, tx)]];
    forall from | from in next ensures QueueOf(d, pool + [tx], from, next[from]) {
      if from in queues {
        assert QueueOf(d, pool, from, queues[from]);
      }
    }
    forall x | x in pool + [tx] && d.admissible(x) ensures Queued(d, next, x) {
      if x in pool {
        assert Queued(d, queues, x);
      }
    }
  }

  lemma Reordered<C>(d: Desk<C>, pool: seq<Tx>, queues: Queues, from: Address, line: seq<Candidate>)
    requires Sorted(d, pool, queues) && from in queues && forall x :: x in line <==> x in queues[from]
    ensures Sorted(d, pool, queues[from := line])
  {
    var next := queues[from := line];
    forall a | a in next ensures QueueOf(d, pool, a, next[a]) {
      assert QueueOf(d, pool, a, queues[a]);
    }
    forall x | x in pool && d.admissible(x) ensures Queued(d, next, x) {
      assert Queued(d, queues, x);
    }
  }

  /** One pass over the pool drops what can never go in and groups the rest by sender. */
  method Group<C>(d: Desk<C>, pool: seq<Tx>) returns (queues: Queues, senders: seq<Address>)
    ensures Sorted(d, pool, queues) && (forall from :: from in senders <==> from in queues)
  {
    queues, senders := map[], [];
    for i := 0 to |pool|
      invariant Sorted(d, pool[..i], queues) && (forall from :: from in senders <==> from in queues)
    {
      var tx := pool[i];
      SnocSlice(pool, i);
      if d.admissible(tx) {
        var line := if tx.sender in queues then queues[tx.sender] else [];
        Grouped(d, pool[..i], queues, tx, line);
        if tx.sender !in queues {
          senders := senders + [tx.sender];
        }
        queues := queues[tx.sender := line + [CandidateOf(d, tx)]];
      } else {
        Dropped(d, pool[..i], queues, tx);
      }
    }
    WholeSlice(pool);
  }

  /** Every queue in nonce order. */
  method OrderQueues<C>(d: Desk<C>, ghost pool: seq<Tx>, grouped: Queues, senders: seq<Address>) returns (queues: Queues)
    requires Sorted(d, pool, grouped) && forall from :: from in senders <==> from in grouped
    ensures Sorted(d, pool, queues) && queues.Keys == grouped.Keys
    ensures forall from :: from in queues ==> ByNonce(queues[from])
  {
    queues := grouped;
    for i := 0 to |senders|
      invariant Sorted(d, pool, queues) && queues.Keys == grouped.Keys
      invariant forall j :: 0 <= j < i ==> ByNonce(queues[senders[j]])
    {
      var line := InNonceOrder(queues[senders[i]]);
      Reordered(d, pool, queues, senders[i], line);
      queues := queues[senders[i] := line];
    }
  }

  /** The queues a block is chosen from, and their senders in the order they are scanned. */
  method Prepare<C>(d: Desk<C>, pool: seq<Tx>) returns (queues: Queues, senders: seq<Address>)
    ensures Sorted(d, pool, queues) && senders == SortedOf(queues.Keys) && (forall from :: from in senders <==> from in queues)
    ensures forall from :: from in queues ==> ByNonce(queues[from])
  {
    var grouped, found := Group(d, pool);
    senders := Sort(found);
    assert Members(found) == grouped.Keys;
    queues := OrderQueues(d, pool, grouped, senders);
  }

  /** A transaction behind its sender's simulated nonce, or no later than one already chosen. */
  ghost predicate Passed<C>(d: Desk<C>, p: Draft<C>, chosen: seq<Tx>, tx: Tx) {
    tx.nonce < d.nonce(p.cache, tx.sender) || !Rises(chosen, tx)
  }

  /** Where one sender's cursor stands: everything before it has had its turn, and nothing chosen
      of this sender comes after what is left. */
  ghost predicate Cursor<C>(d: Desk<C>, p: Draft<C>, chosen: seq<Tx>, from: Address, cs: seq<Candidate>, i: nat) {
    && i <= |cs|
    && (forall j :: 0 <= j < i ==> Passed(d, p, chosen, cs[j].tx))
    && (forall j, x :: i <= j < |cs| && x in chosen && x.sender == from ==> x.nonce <= cs[j].tx.nonce)
  }

  ghost predicate Wrapped(chosen: seq<Tx>, from: Address) {
    exists y :: y in chosen && y.sender == from && y.nonce == LAST_NONCE
  }

  ghost predicate EachEligible<C>(d: Desk<C>, start: C, chosen: seq<Tx>) {
    forall k :: 0 <= k < |chosen| ==> Eligible(d, start, chosen[..k], chosen[k])
  }

  lemma EligiblePrefix<C>(d: Desk<C>, start: C, chosen: seq<Tx>, n: nat)
    requires EachEligible(d, start, chosen) && n <= |chosen|
    ensures EachEligible(d, start, chosen[..n])
  {
    forall k | 0 <= k < n ensures Eligible(d, start, chosen[..n][..k], chosen[..n][k]) {
      assert chosen[..n][..k] == chosen[..k];
    }
  }

  lemma NonceMoves<C(!new)>(d: Desk<C>, p: Draft<C>, tx: Tx, a: Address)
    requires Orderly(d)
    ensures d.nonce(Add(d, p, tx).cache, a) == if a == tx.sender then (d.nonce(p.cache, a) + 1) % U64_LIMIT else d.nonce(p.cache, a)
  {
  }

  ghost predicate Outrun<C>(d: Desk<C>, p: Draft<C>, chosen: seq<Tx>, x: Tx) {
    var want := d.nonce(p.cache, x.sender);
    x.nonce < want || (want == 0 && Wrapped(chosen, x.sender))
  }

  lemma AboveLast<C(!new)>(d: Desk<C>, p: Draft<C>, rest: seq<Tx>, last: Tx, x: Tx)
    requires Orderly(d) && Rises(rest, last) && d.nonce(p.cache, last.sender) == last.nonce
    requires x in rest + [last] && (x in rest ==> Outrun(d, p, rest, x))
    ensures Outrun(d, Add(d, p, last), rest + [last], x)
  {
    NonceMoves(d, p, last, x.sender);
    assert last in rest + [last];
    if x.sender != last.sender && Wrapped(rest, x.sender) {
      var y :| y in rest && y.sender == x.sender && y.nonce == LAST_NONCE;
      assert y in rest + [last];
    }
  }

  /** The simulated nonce is above everything chosen of the sender, unless it wrapped to zero. */
  lemma {:induction false} NonceAbove<C(!new)>(d: Desk<C>, start: C, chosen: seq<Tx>, x: Tx)
    requires Orderly(d) && EachEligible(d, start, chosen) && x in chosen
    ensures Outrun(d, AddAll(d, start, chosen), chosen, x)
    decreases |chosen|
  {
    var n := |chosen| - 1;
    var rest, last := chosen[..n], chosen[n];
    SnocSlice(chosen, n);
    WholeSlice(chosen);
    EligiblePrefix(d, start, chosen, n);
    assert Eligible(d, start, rest, last);
    if x in rest {
      NonceAbove(d, start, rest, x);
    }
    AboveLast(d, AddAll(d, start, rest), rest, last, x);
  }

  /** So a queue's head that carries the simulated nonce comes after all that was chosen. */
  lemma HeadRises<C(!new)>(d: Desk<C>, start: C, chosen: seq<Tx>, from: Address, cs: seq<Candidate>, i: nat)
    requires Orderly(d) && EachEligible(d, start, chosen)
    requires i < |cs| && Cursor(d, AddAll(d, start, chosen), chosen, from, cs, i)
    requires cs[i].tx.sender == from && cs[i].tx.nonce == d.nonce(AddAll(d, start, chosen).cache, from)
    ensures Rises(chosen, cs[i].tx)
  {
    forall x | x in chosen && x.sender == from ensures x.nonce < cs[i].tx.nonce {
      NonceAbove(d, start, chosen, x);
      if Wrapped(chosen, from) {
        var y :| y in chosen && y.sender == from && y.nonce == LAST_NONCE;
        assert y.nonce <= cs[i].tx.nonce;
      }
    }
  }

  /** The cursor skips what the simulation has moved past. */
  method Skip<C>(d: Desk<C>, p: Draft<C>, ghost chosen: seq<Tx>, from: Address, cs: seq<Candidate>, i: nat) returns (k: nat)
    requires Cursor(d, p, chosen, from, cs, i) && forall j :: 0 <= j < |cs| ==> cs[j].tx.sender == from
    ensures Cursor(d, p, chosen, from, cs, k)
    ensures k < |cs| ==> cs[k].tx.nonce >= d.nonce(p.cache, from)
  {
    var want := d.nonce(p.cache, from);
    k := i;
    while k < |cs| && cs[k].tx.nonce < want
      invariant Cursor(d, p, chosen, from, cs, k)
    {
      k := k + 1;
    }
  }

  /** The cached fields decide as the transaction itself would. */
  predicate FitsCached<C>(d: Desk<C>, p: Draft<C>, c: Candidate) {
    && p.weight + c.size <= MAX_BLOCK_BYTES && p.ops + c.ops <= MAX_BLOCK_VERIFY_OPS
    && d.affordable(p.cache, c.tx)
    && (c.tx.name.Some? ==> c.tx.name.value.name !in p.claimed)
  }

  predicate OutbidsCached(a: Candidate, b: Candidate) {
    a.rate > b.rate || (a.rate == b.rate && Before(a.hash, b.hash))
  }

  lemma OutbidsOrder<C>(d: Desk<C>, a: Tx, b: Tx, c: Tx)
    ensures !Outbids(d, a, a)
    ensures Outbids(d, a, b) && Outbids(d, b, c) ==> Outbids(d, a, c)
    ensures d.hash(a) == d.hash(b) || Outbids(d, a, b) || Outbids(d, b, a)
  {
    BeforeIrreflexive(d.hash(a));
    BeforeTotal(d.hash(a), d.hash(b));
    if Before(d.hash(a), d.hash(b)) && Before(d.hash(b), d.hash(c)) {
      BeforeTransitive(d.hash(a), d.hash(b), d.hash(c));
    }
  }

  /** Only the head of a queue can be eligible. */
  lemma OnlyHead<C>(d: Desk<C>, start: C, chosen: seq<Tx>, pool: seq<Tx>, from: Address, cs: seq<Candidate>, i: nat, j: nat)
    requires SlotKeyed(pool) && QueueOf(d, pool, from, cs) && ByNonce(cs) && j < |cs| && i <= |cs|
    requires Cursor(d, AddAll(d, start, chosen), chosen, from, cs, i)
    requires i < |cs| ==> cs[i].tx.nonce >= d.nonce(AddAll(d, start, chosen).cache, from)
    requires Eligible(d, start, chosen, cs[j].tx)
    ensures i < |cs| && cs[i].tx == cs[j].tx
  {
    assert cs[j] in cs;
    if j >= i {
      assert cs[i] in cs;
      assert cs[i].tx.nonce <= cs[j].tx.nonce;
    }
  }

  lemma {:induction false} GreedyEligible<C>(d: Desk<C>, start: C, pool: seq<Tx>, chosen: seq<Tx>)
    requires ChosenGreedily(d, start, pool, chosen)
    ensures EachEligible(d, start, chosen)
  {
    forall k | 0 <= k < |chosen| ensures Eligible(d, start, chosen[..k], chosen[k]) {
      assert BestPick(d, start, pool, chosen[..k], chosen[k]);
    }
  }

  /** The best choice is unique, so a pool decides its block whatever order it is read in. */
  lemma BestUnique<C>(d: Desk<C>, start: C, xs: seq<Tx>, ys: seq<Tx>, chosen: seq<Tx>, a: Tx, b: Tx)
    requires HashKeyed(d, xs) && (forall x :: x in xs <==> x in ys)
    requires BestPick(d, start, xs, chosen, a) && BestPick(d, start, ys, chosen, b)
    ensures a == b
  {
    OutbidsOrder(d, a, b, a);
  }

  ghost predicate Selected<C>(d: Desk<C>, start: C, pool: seq<Tx>, limit: int, chosen: seq<Tx>) {
    && ChosenGreedily(d, start, pool, chosen)
    && (chosen == [] || |chosen| <= limit)
    && (|chosen| >= limit || Exhausted(d, start, pool, chosen))
  }

  lemma PickAt<C>(d: Desk<C>, start: C, pool: seq<Tx>, chosen: seq<Tx>, k: nat)
    requires ChosenGreedily(d, start, pool, chosen) && k < |chosen|
    ensures BestPick(d, start, pool, chosen[..k], chosen[k])
  {
  }

  lemma {:induction false} PrefixesAgree<C>(d: Desk<C>, start: C, xs: seq<Tx>, ys: seq<Tx>, a: seq<Tx>, b: seq<Tx>, k: nat)
    requires HashKeyed(d, xs) && (forall x :: x in xs <==> x in ys)
    requires ChosenGreedily(d, start, xs, a) && ChosenGreedily(d, start, ys, b) && k <= |a| && k <= |b|
    ensures a[..k] == b[..k]
  {
    if k > 0 {
      PrefixesAgree(d, start, xs, ys, a, b, k - 1);
      PickAt(d, start, xs, a, k - 1);
      PickAt(d, start, ys, b, k - 1);
      BestUnique(d, start, xs, ys, a[..k - 1], a[k - 1], b[k - 1]);
      SnocSlice(a, k - 1);
      SnocSlice(b, k - 1);
    }
  }

  lemma LongerOpen<C>(d: Desk<C>, start: C, xs: seq<Tx>, ys: seq<Tx>, a: seq<Tx>, b: seq<Tx>)
    requires HashKeyed(d, xs) && (forall x :: x in xs <==> x in ys)
    requires ChosenGreedily(d, start, xs, a) && ChosenGreedily(d, start, ys, b) && |a| < |b|
    ensures !Exhausted(d, start, xs, a)
  {
    PrefixesAgree(d, start, xs, ys, a, b, |a|);
    WholeSlice(a);
    PickAt(d, start, ys, b, |a|);
  }

  /** Two nodes with the same pool and the same tip choose the same transactions in the same
      order. */
  lemma SameTemplate<C>(d: Desk<C>, start: C, xs: seq<Tx>, ys: seq<Tx>, limit: int, a: seq<Tx>, b: seq<Tx>)
    requires HashKeyed(d, xs) && (forall x :: x in xs <==> x in ys)
    requires Selected(d, start, xs, limit, a) && Selected(d, start, ys, limit, b)
    ensures a == b
  {
    if |a| < |b| {
      LongerOpen(d, start, xs, ys, a, b);
    } else if |b| < |a| {
      LongerOpen(d, start, ys, xs, b, a);
    } else {
      PrefixesAgree(d, start, xs, ys, a, b, |a|);
      WholeSlice(a);
      WholeSlice(b);
    }
  }
}
