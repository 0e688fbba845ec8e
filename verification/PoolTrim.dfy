/** One sender's queue cut back to the affordable run that starts at the confirmed nonce. */
module PoolTrim {
  import opened Bytes
  import opened Transactions
  import opened PoolIndexes
  import opened Mempool
  import opened Admission

  /** What the slots from `n` up to `end` cost. */
  ghost function RunTotal(cost: Tx -> Word, txs: Txs, q: Queue, n: nat, end: nat): (total: nat)
    decreases end
  {
    if end <= n then 0
    else RunTotal(cost, txs, q, n, end - 1) + SlotCost(cost, txs, q, end - 1)
  }

  ghost function SlotCost(cost: Tx -> Word, txs: Txs, q: Queue, k: nat): (c: Word) {
    if k < U64_LIMIT && k in q && q[k] in txs then cost(txs[q[k]]) else 0
  }

  /** The slots from `n` up to `end` are those of sender `a`, and all it has. */
  ghost predicate Enumerates(txs: Txs, q: Queue, a: Address, n: nat, end: nat) {
    && (forall k: Word :: n <= k < end ==> k in q && q[k] in txs && txs[q[k]].sender == a && txs[q[k]].nonce == k)
    && (forall h :: h in txs && txs[h].sender == a ==> n <= txs[h].nonce < end && q[txs[h].nonce] == h)
  }

  lemma {:induction false} RunIsQueue(cost: Tx -> Word, txs: Txs, q: Queue, a: Address, n: nat, end: nat)
    requires n <= end <= U64_LIMIT && Enumerates(txs, q, a, n, end)
    ensures QueueCost(cost, txs, a) == RunTotal(cost, txs, q, n, end)
    decreases end
  {
    if end == n {
      SumNothing(txs, CostTo(cost, a));
    } else {
      var k: Word := end - 1;
      CostTakes(cost, txs, a, q[k]);
      var less := txs - {q[k]};
      RunIsQueue(cost, less, q, a, n, end - 1);
      RunTotalSame(cost, less, txs, q, n, end - 1);
    }
  }

  lemma {:induction false} RunTotalSame(cost: Tx -> Word, less: Txs, txs: Txs, q: Queue, n: nat, end: nat)
    requires end <= U64_LIMIT && forall k: Word :: n <= k < end && k in q && q[k] in txs ==> q[k] in less && less[q[k]] == txs[q[k]]
    requires forall h :: h in less ==> h in txs
    ensures RunTotal(cost, less, q, n, end) == RunTotal(cost, txs, q, n, end)
    decreases end
  {
    if end > n {
      RunTotalSame(cost, less, txs, q, n, end - 1);
    }
  }

  ghost predicate Ascending(ns: seq<Word>) {
    forall i, j :: 0 <= i < j < |ns| ==> ns[i] < ns[j]
  }

  function WithNonce(n: Word, ns: seq<Word>): (r: seq<Word>)
    ensures forall m :: m in r <==> m == n || m in ns
    ensures Ascending(ns) && n !in ns ==> Ascending(r)
  {
    if ns == [] || n < ns[0] then [n] + ns
    else
      assert ns == [ns[0]] + ns[1..];
      var rest := WithNonce(n, ns[1..]);
      assert Ascending(ns) && n !in ns ==> Ascending([ns[0]] + rest) by {
        if Ascending(ns) && n !in ns {
          LowestFirst(ns[0], n, ns, rest);
        }
      }
      [ns[0]] + rest
  }

  lemma LowestFirst(low: Word, n: Word, ns: seq<Word>, rest: seq<Word>)
    requires ns != [] && low == ns[0] && Ascending(ns) && Ascending(rest) && low < n
    requires forall m :: m in rest <==> m == n || m in ns[1..]
    ensures Ascending([low] + rest)
  {
    forall j | 0 <= j < |rest| ensures low < rest[j] {
      assert rest[j] in rest;
    }
  }

  method SortedNonces(q: Queue) returns (ns: seq<Word>)
    ensures Ascending(ns) && forall n :: n in ns <==> n in q
  {
    ns := [];
    var left := q.Keys;
    while left != {}
      invariant left <= q.Keys && Ascending(ns) && forall n :: n in ns <==> n in q && n !in left
      decreases left
    {
      var n :| n in left;
      ns := WithNonce(n, ns);
      left := left - {n};
    }
  }

  /** The coin spent on the slots up to and with `k`, counted in 64 bits, is there. */
  ghost predicate PaidUpTo(cost: Tx -> Word, txs: Txs, q: Queue, confirmed: Word, spendable: Word, k: nat) {
    RunTotal(cost, txs, q, confirmed, k + 1) % U64_LIMIT <= spendable
  }

  /** How far a sender's run is kept: every slot before `end` is taken and paid for, and the one at
      `end` is free or one too many. */
  ghost predicate RunEnd(cost: Tx -> Word, txs: Txs, q: Queue, confirmed: Word, spendable: Word, end: nat) {
    && confirmed <= end <= U64_LIMIT
    && (forall k: Word :: confirmed <= k < end ==> k in q && PaidUpTo(cost, txs, q, confirmed, spendable, k))
    && (end < U64_LIMIT && end in q ==> !PaidUpTo(cost, txs, q, confirmed, spendable, end))
  }

  /** A queue has one such end. */
  lemma OneRunEnd(cost: Tx -> Word, txs: Txs, q: Queue, confirmed: Word, spendable: Word, end: nat, other: nat)
    requires RunEnd(cost, txs, q, confirmed, spendable, end) && RunEnd(cost, txs, q, confirmed, spendable, other)
    ensures end == other
  {
    var low := if end < other then end else other;
    assert low < U64_LIMIT && end != other ==> low in q;
  }

  /** What is kept fits what its sender can spend, as long as its total fits 64 bits. */
  lemma RunPaid(cost: Tx -> Word, txs: Txs, q: Queue, confirmed: Word, spendable: Word, end: nat)
    requires RunEnd(cost, txs, q, confirmed, spendable, end) && RunTotal(cost, txs, q, confirmed, end) < U64_LIMIT
    ensures RunTotal(cost, txs, q, confirmed, end) <= spendable
  {
    if end > confirmed {
      var k: Word := end - 1;
      assert PaidUpTo(cost, txs, q, confirmed, spendable, k);
    }
  }

  /** The cut as a walk over the sorted nonces: `end` is the nonce wanted next, `total` the coin
      spent so far, and `over` says that the wanted one was there but cost too much. */
  datatype Walk = Walk(end: nat, total: Word, over: bool)

  function Step(spendable: Word, w: Walk, n: Word, c: Word): (r: Walk) {
    if n != w.end % U64_LIMIT then w
    else
      var total := (w.total + c) % U64_LIMIT;
      if total > spendable then Walk(w.end, total, true) else Walk(w.end + 1, total, w.over)
  }

  /** Where the walk stands after the first `i` nonces. */
  ghost predicate Walked(cost: Tx -> Word, txs: Txs, q: Queue, confirmed: Word, spendable: Word, ns: seq<Word>, i: nat, w: Walk) {
    && i <= |ns| && confirmed <= w.end <= U64_LIMIT
    && (forall k: Word :: confirmed <= k < w.end ==> k in q && PaidUpTo(cost, txs, q, confirmed, spendable, k))
    && (w.end > confirmed ==> forall j :: i <= j < |ns| ==> ns[j] >= w.end)
    && (if w.over then TooMuch(cost, txs, q, confirmed, spendable, w.end) && forall j :: i <= j < |ns| ==> ns[j] > w.end
        else w.total == RunTotal(cost, txs, q, confirmed, w.end) % U64_LIMIT && forall j :: 0 <= j < i ==> ns[j] != w.end)
  }

  /** The slot at `end` is taken and would make the total too much. */
  ghost predicate TooMuch(cost: Tx -> Word, txs: Txs, q: Queue, confirmed: Word, spendable: Word, end: nat) {
    end < U64_LIMIT && end in q && !PaidUpTo(cost, txs, q, confirmed, spendable, end)
  }

  lemma WalkStarts(cost: Tx -> Word, txs: Txs, q: Queue, confirmed: Word, spendable: Word, ns: seq<Word>)
    ensures Walked(cost, txs, q, confirmed, spendable, ns, 0, Walk(confirmed, 0, false))
  {
  }

  lemma TotalStep(cost: Tx -> Word, txs: Txs, q: Queue, confirmed: Word, spendable: Word, end: Word, total: Word)
    requires confirmed <= end && end in q && q[end] in txs && total == RunTotal(cost, txs, q, confirmed, end) % U64_LIMIT
    ensures (total + cost(txs[q[end]])) % U64_LIMIT == RunTotal(cost, txs, q, confirmed, end + 1) % U64_LIMIT
  {
  }

  /** Another nonce than the wanted one is passed over. */
  lemma WalkSkips(cost: Tx -> Word, txs: Txs, q: Queue, confirmed: Word, spendable: Word, ns: seq<Word>, i: nat, w: Walk)
    requires Walked(cost, txs, q, confirmed, spendable, ns, i, w) && i < |ns| && Ascending(ns) && ns[i] != w.end % U64_LIMIT
    ensures Walked(cost, txs, q, confirmed, spendable, ns, i + 1, w) && (w.end < U64_LIMIT ==> ns[i] != w.end)
    ensures !(confirmed <= ns[i] < w.end)
  {
  }

  lemma WantedIsEnd(cost: Tx -> Word, txs: Txs, q: Queue, confirmed: Word, spendable: Word, ns: seq<Word>, i: nat, w: Walk)
    requires Walked(cost, txs, q, confirmed, spendable, ns, i, w) && i < |ns| && Ascending(ns) && ns[i] == w.end % U64_LIMIT
    ensures w.end < U64_LIMIT && ns[i] == w.end && !w.over
  {
  }

  /** The wanted nonce is taken if it can be paid for. */
  lemma WalkTakes(cost: Tx -> Word, txs: Txs, q: Queue, confirmed: Word, spendable: Word, ns: seq<Word>, i: nat, w: Walk)
    requires Walked(cost, txs, q, confirmed, spendable, ns, i, w) && i < |ns| && Ascending(ns)
    requires ns[i] == w.end && !w.over && ns[i] in q && q[ns[i]] in txs
    ensures Walked(cost, txs, q, confirmed, spendable, ns, i + 1, Step(spendable, w, ns[i], cost(txs[q[ns[i]]])))
  {
    TotalStep(cost, txs, q, confirmed, spendable, w.end, w.total);
  }

  lemma WalkSteps(cost: Tx -> Word, txs: Txs, q: Queue, confirmed: Word, spendable: Word, ns: seq<Word>, i: nat, w: Walk)
    requires Walked(cost, txs, q, confirmed, spendable, ns, i, w) && i < |ns| && Ascending(ns)
    requires ns[i] in q && q[ns[i]] in txs
    ensures var next := Step(spendable, w, ns[i], cost(txs[q[ns[i]]]));
            && Walked(cost, txs, q, confirmed, spendable, ns, i + 1, next)
            && (if next.end == w.end then !(confirmed <= ns[i] < w.end) else next.end == w.end + 1 && ns[i] == w.end >= confirmed)
  {
    if ns[i] == w.end % U64_LIMIT {
      WantedIsEnd(cost, txs, q, confirmed, spendable, ns, i, w);
      WalkTakes(cost, txs, q, confirmed, spendable, ns, i, w);
    } else {
      WalkSkips(cost, txs, q, confirmed, spendable, ns, i, w);
    }
  }

  lemma WalkEnds(cost: Tx -> Word, txs: Txs, q: Queue, confirmed: Word, spendable: Word, ns: seq<Word>, w: Walk)
    requires Walked(cost, txs, q, confirmed, spendable, ns, |ns|, w) && forall n :: n in ns <==> n in q
    ensures RunEnd(cost, txs, q, confirmed, spendable, w.end)
  {
  }

  /** Some of one sender's transactions are gone: those with a nonce listed and outside the run. */
  ghost predicate CutTo(was: Txs, now: Txs, a: Address, seen: seq<Word>, confirmed: Word, end: nat) {
    forall h :: (h in now <==> h in was && (was[h].sender == a && was[h].nonce in seen ==> confirmed <= was[h].nonce < end))
             && (h in now ==> h in was && now[h] == was[h])
  }

  lemma CutStarts(was: Txs, a: Address, confirmed: Word, end: nat)
    ensures CutTo(was, was, a, [], confirmed, end)
  {
  }

  /** The next nonce stays, and with it the run grows by one. */
  lemma CutKeeps(was: Txs, now: Txs, a: Address, seen: seq<Word>, confirmed: Word, end: Word)
    requires CutTo(was, now, a, seen, confirmed, end) && confirmed <= end && forall n :: n in seen ==> n < end
    ensures CutTo(was, now, a, seen + [end], confirmed, end + 1)
  {
  }

  /** Or its transaction goes. */
  lemma CutDrops(was: Txs, now: Txs, a: Address, seen: seq<Word>, confirmed: Word, end: nat, n: Word, h: Digest)
    requires CutTo(was, now, a, seen, confirmed, end) && !(confirmed <= n < end)
    requires forall g :: g in was && was[g].sender == a && was[g].nonce == n <==> g == h
    ensures CutTo(was, now - {h}, a, seen + [n], confirmed, end)
  {
  }

  lemma SlotOwner(txs: Txs, bySender: map<Address, Queue>, a: Address, n: Word)
    requires SendersExact(txs, bySender) && n in QueueOf(bySender, a)
    ensures var h := QueueOf(bySender, a)[n]; h in txs && forall g :: g in txs && txs[g].sender == a && txs[g].nonce == n <==> g == h
  {
    assert SlotExact(txs, bySender, a, n);
  }

  /** All that one sender keeps is its run up to `end`, and nobody else loses anything. */
  ghost predicate Trimmed(was: Txs, now: Txs, a: Address, confirmed: Word, end: nat) {
    forall h :: (h in now <==> h in was && (was[h].sender == a ==> confirmed <= was[h].nonce < end))
             && (h in now ==> h in was && now[h] == was[h])
  }

  lemma AllSeen(was: Shelf, now: Txs, a: Address, ns: seq<Word>, confirmed: Word, end: nat)
    requires SendersExact(was.txs, was.bySender) && CutTo(was.txs, now, a, ns, confirmed, end)
    requires forall n :: n in ns <==> n in QueueOf(was.bySender, a)
    ensures Trimmed(was.txs, now, a, confirmed, end)
  {
    forall h | h in was.txs && was.txs[h].sender == a ensures was.txs[h].nonce in ns {
      assert SlotExact(was.txs, was.bySender, a, was.txs[h].nonce);
    }
  }

  /** What holds between two steps of the cut. */
  ghost predicate Trimming(p: Policy, was: Shelf, now: Txs, a: Address, confirmed: Word, spendable: Word, ns: seq<Word>, i: nat, w: Walk) {
    && i <= |ns| && Walked(p.cost, was.txs, QueueOf(was.bySender, a), confirmed, spendable, ns, i, w)
    && CutTo(was.txs, now, a, ns[..i], confirmed, w.end)
  }

  lemma CutStep(was: Txs, now: Txs, a: Address, ns: seq<Word>, i: nat, confirmed: Word, end: nat, next: nat, h: Digest)
    requires i < |ns| && Ascending(ns) && CutTo(was, now, a, ns[..i], confirmed, end)
    requires if next == end then !(confirmed <= ns[i] < end) else next == end + 1 && ns[i] == end >= confirmed
    requires forall g :: g in was && was[g].sender == a && was[g].nonce == ns[i] <==> g == h
    ensures CutTo(was, if next == end then now - {h} else now, a, ns[..i + 1], confirmed, next)
  {
    assert ns[..i + 1] == ns[..i] + [ns[i]];
    if next == end {
      CutDrops(was, now, a, ns[..i], confirmed, end, ns[i], h);
    } else {
      SeenBelow(ns, i);
      CutKeeps(was, now, a, ns[..i], confirmed, ns[i]);
    }
  }

  lemma TrimStep(p: Policy, was: Shelf, now: Txs, a: Address, confirmed: Word, spendable: Word, ns: seq<Word>, i: nat, w: Walk, h: Digest)
    requires Trimming(p, was, now, a, confirmed, spendable, ns, i, w) && i < |ns| && Ascending(ns)
    requires SendersExact(was.txs, was.bySender) && ns[i] in QueueOf(was.bySender, a) && h == QueueOf(was.bySender, a)[ns[i]]
    ensures h in now && h in was.txs && now[h] == was.txs[h]
    ensures var next := Step(spendable, w, ns[i], p.cost(was.txs[h]));
            Trimming(p, was, if next.end == w.end then now - {h} else now, a, confirmed, spendable, ns, i + 1, next)
  {
    SlotOwner(was.txs, was.bySender, a, ns[i]);
    StillThere(was.txs, now, a, ns, i, confirmed, w.end, h);
    WalkSteps(p.cost, was.txs, QueueOf(was.bySender, a), confirmed, spendable, ns, i, w);
    CutStep(was.txs, now, a, ns, i, confirmed, w.end, Step(spendable, w, ns[i], p.cost(was.txs[h])).end, h);
  }

  /** Cuts one sender's queue back; everything behind a gap or past the money goes. */
  method TrimSender(pool: Pool, p: Policy, src: Source, a: Address) returns (dropped: nat, ghost end: nat)
    requires Exact(p.id, p.size, pool.Now())
    modifies pool
    ensures Exact(p.id, p.size, pool.Now())
    ensures RunEnd(p.cost, old(pool.txs), QueueOf(old(pool.bySender), a), src.nonce(a), src.spendable(a), end)
    ensures Trimmed(old(pool.txs), pool.txs, a, src.nonce(a), end)
    ensures |pool.txs| + dropped == |old(pool.txs)|
  {
    ghost var was := pool.Now();
    var q, confirmed, spendable := QueueOf(pool.bySender, a), src.nonce(a), src.spendable(a);
    var ns := SortedNonces(q);
    var w := Walk(confirmed, 0, false);
    dropped := 0;
    WalkStarts(p.cost, was.txs, q, confirmed, spendable, ns);
    CutStarts(was.txs, a, confirmed, confirmed);
    for i := 0 to |ns|
      invariant Exact(p.id, p.size, pool.Now()) && Trimming(p, was, pool.txs, a, confirmed, spendable, ns, i, w)
      invariant |pool.txs| + dropped == |was.txs|
    {
      assert ns[i] in ns;
      var h := q[ns[i]];
      TrimStep(p, was, pool.txs, a, confirmed, spendable, ns, i, w, h);
      var next := Step(spendable, w, ns[i], p.cost(pool.txs[h]));
      if next.end == w.end {
        OneLess(pool.txs, h);
        pool.Delete(p, h);
        dropped := dropped + 1;
      }
      w := next;
    }
    assert ns[..|ns|] == ns;
    AllSeen(was, pool.txs, a, ns, confirmed, w.end);
    WalkEnds(p.cost, was.txs, q, confirmed, spendable, ns, w);
    end := w.end;
  }

  lemma OneLess(txs: Txs, h: Digest)
    requires h in txs
    ensures |txs - {h}| + 1 == |txs|
  {
    assert (txs - {h}).Keys == txs.Keys - {h};
  }

  lemma SeenBelow(ns: seq<Word>, i: nat)
    requires Ascending(ns) && i < |ns|
    ensures forall n :: n in ns[..i] ==> n < ns[i]
  {
  }

  /** The next nonce has not been touched yet. */
  lemma StillThere(was: Txs, now: Txs, a: Address, ns: seq<Word>, i: nat, confirmed: Word, end: nat, h: Digest)
    requires Ascending(ns) && i < |ns| && CutTo(was, now, a, ns[..i], confirmed, end) && h in was && was[h].nonce == ns[i]
    ensures h in now && now[h] == was[h]
  {
    SeenBelow(ns, i);
  }
}
