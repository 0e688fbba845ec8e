/** The whole clean-up: exactly what it keeps, and what the pool looks like after it. */
module PoolSettle {
  import opened Bytes
  import opened Seqs
  import opened Transactions
  import opened PoolIndexes
  import opened Mempool
  import opened Admission
  import opened PoolTrim
  import opened PoolReconcile

  /** What weighs nothing may go without moving a total. */
  lemma {:induction false} SumSame(was: Txs, now: Txs, w: Measure)
    requires Shrunk(was, now) && forall h :: h in was && h !in now ==> w(was[h]) == 0
    ensures Sum(now, w) == Sum(was, w)
    decreases |was|
  {
    if was == map[] {
      assert now == map[];
    } else {
      var h :| h in was;
      SumTakes(was, w, h);
      if h in now {
        SumTakes(now, w, h);
        SumSame(was - {h}, now - {h}, w);
      } else {
        SumSame(was - {h}, now, w);
      }
    }
  }

  ghost predicate PayerFits(src: Source, sponsored: map<Address, Word>, payer: Address) {
    Count(sponsored, payer) <= src.spendable(payer)
  }

  function Payers(txs: Txs): (s: set<Address>) {
    set h | h in txs && IsSponsored(txs[h]) :: txs[h].feePayer
  }

  /** What each payer let go of. */
  type Releases = map<Address, seq<Digest>>

  ghost function GoneOf(gone: Releases, payer: Address): (list: seq<Digest>) {
    if payer in gone then gone[payer] else []
  }

  ghost predicate IsReleased(gone: Releases, h: Digest, tx: Tx) {
    IsSponsored(tx) && h in GoneOf(gone, tx.feePayer)
  }

  /** Everything stays but what its payer let go of. */
  ghost predicate OnlyReleased(was: Txs, now: Txs, gone: Releases) {
    Shrunk(was, now) && forall h :: h in was ==> (h in now <==> !IsReleased(gone, h, was[h]))
  }

  /** Every payer let go of what it had to, and nothing else is gone. */
  ghost predicate SponsorsSettled(p: Policy, src: Source, was: Txs, now: Txs, gone: Releases) {
    OnlyReleased(was, now, gone) && forall payer :: LetGo(p, src, was, payer, GoneOf(gone, payer))
  }

  /** The payer's own sponsorships are as they were. */
  ghost predicate SameSponsorships(was: Txs, now: Txs, payer: Address) {
    Shrunk(was, now) && forall h :: h in was && SponsoredBy(was[h], payer) ==> h in now
  }

  lemma OwedSame(was: Txs, now: Txs, payer: Address, list: seq<Digest>)
    requires SameSponsorships(was, now, payer)
    ensures Owed(Less(was, list), payer) == Owed(Less(now, list), payer)
  {
    SumSame(Less(was, list), Less(now, list), Promised(payer));
  }

  /** What others let go of makes no difference to a payer. */
  lemma LetGoSame(p: Policy, src: Source, was: Txs, now: Txs, payer: Address, gone: seq<Digest>)
    requires SameSponsorships(was, now, payer) && LetGo(p, src, now, payer, gone)
    ensures LetGo(p, src, was, payer, gone)
  {
    OwedSame(was, now, payer, gone);
    forall i | 0 <= i < |gone| ensures TooMuchAt(src, was, payer, gone, i) {
      assert TooMuchAt(src, now, payer, gone, i);
      OwedSame(was, now, payer, gone[..i]);
    }
  }

  lemma OnlyReleasedMore(p: Policy, src: Source, was: Txs, now: Txs, gone: Releases, payer: Address, list: seq<Digest>)
    requires OnlyReleased(was, now, gone) && payer !in gone && LetGo(p, src, now, payer, list)
    ensures OnlyReleased(was, Less(now, list), gone[payer := list])
    ensures SameSponsorships(was, now, payer)
  {
  }

  lemma NothingToRelease(p: Policy, src: Source, txs: Txs, payer: Address)
    requires payer !in Payers(txs)
    ensures LetGo(p, src, txs, payer, [])
  {
    SumNothing(Less(txs, []), Promised(payer));
  }

  /** After the pass the payer owes what is left of its own list. */
  lemma PayerSettled(p: Policy, src: Source, was: Txs, now: Shelf, gone: Releases, payer: Address)
    requires SponsorsSettled(p, src, was, now.txs, gone) && PromiseExact(now.txs, now.sponsored, payer)
    ensures PayerFits(src, now.sponsored, payer)
  {
    var list := GoneOf(gone, payer);
    assert LetGo(p, src, was, payer, list);
    StaysAre(was, now.txs, gone, payer);
    SumSame(Less(was, list), Less(now.txs, list), Promised(payer));
    LessOfGone(p, src, was, now.txs, gone, payer);
  }

  lemma StaysAre(was: Txs, now: Txs, gone: Releases, payer: Address)
    requires OnlyReleased(was, now, gone)
    ensures Shrunk(Less(was, GoneOf(gone, payer)), Less(now, GoneOf(gone, payer)))
    ensures forall h :: h in Less(was, GoneOf(gone, payer)) && h !in Less(now, GoneOf(gone, payer)) ==> Promised(payer)(was[h]) == 0
  {
  }

  lemma LessOfGone(p: Policy, src: Source, was: Txs, now: Txs, gone: Releases, payer: Address)
    requires SponsorsSettled(p, src, was, now, gone)
    ensures Less(now, GoneOf(gone, payer)) == now
  {
    assert LetGo(p, src, was, payer, GoneOf(gone, payer));
  }

  /** Every sponsor is brought within what it can spend, and one that is loses nothing. */
  method ReconcileSponsors(pool: Pool, p: Policy, src: Source) returns (dropped: nat, ghost gone: Releases)
    requires Exact(p.id, p.size, pool.Now())
    modifies pool
    ensures Exact(p.id, p.size, pool.Now()) && SponsorsSettled(p, src, old(pool.txs), pool.txs, gone)
    ensures forall payer :: PayerFits(src, pool.sponsored, payer)
    ensures forall payer :: PayerFits(src, old(pool.sponsored), payer) ==> GoneOf(gone, payer) == []
    ensures |pool.txs| + dropped == |old(pool.txs)|
  {
    ghost var was := pool.Now();
    dropped, gone := 0, map[];
    var left := Payers(pool.txs);
    while left != {}
      invariant Exact(p.id, p.size, pool.Now()) && ReleasedSoFar(p, src, was.txs, pool.txs, gone)
      invariant left !! gone.Keys && Payers(was.txs) <= left + gone.Keys
      invariant |pool.txs| + dropped == |was.txs|
      decreases left
    {
      var payer :| payer in left;
      ghost var mid := pool.txs;
      ghost var list;
      var n;
      n, list := ReleaseSponsor(pool, p, src, payer);
      ReleasedMore(p, src, was.txs, mid, gone, payer, list);
      gone := gone[payer := list];
      left, dropped := left - {payer}, dropped + n;
    }
    ReleasedAll(p, src, was, pool.Now(), gone);
  }

  ghost predicate ReleasedSoFar(p: Policy, src: Source, was: Txs, now: Txs, gone: Releases) {
    OnlyReleased(was, now, gone) && forall payer :: payer in gone ==> LetGo(p, src, was, payer, gone[payer])
  }

  lemma ReleasedMore(p: Policy, src: Source, was: Txs, now: Txs, gone: Releases, payer: Address, list: seq<Digest>)
    requires ReleasedSoFar(p, src, was, now, gone) && payer !in gone && LetGo(p, src, now, payer, list)
    ensures ReleasedSoFar(p, src, was, Less(now, list), gone[payer := list])
  {
    OnlyReleasedMore(p, src, was, now, gone, payer, list);
    LetGoSame(p, src, was, now, payer, list);
  }

  lemma ReleasedAll(p: Policy, src: Source, was: Shelf, now: Shelf, gone: Releases)
    requires Exact(p.id, p.size, was) && Exact(p.id, p.size, now) && ReleasedSoFar(p, src, was.txs, now.txs, gone)
    requires Payers(was.txs) <= gone.Keys
    ensures SponsorsSettled(p, src, was.txs, now.txs, gone)
    ensures forall payer :: PayerFits(src, now.sponsored, payer)
    ensures forall payer :: PayerFits(src, was.sponsored, payer) ==> GoneOf(gone, payer) == []
  {
    forall payer ensures LetGo(p, src, was.txs, payer, GoneOf(gone, payer)) {
      if payer !in gone {
        NothingToRelease(p, src, was.txs, payer);
      }
    }
    forall payer ensures PayerFits(src, now.sponsored, payer) {
      assert PromiseExact(now.txs, now.sponsored, payer);
      PayerSettled(p, src, was.txs, now, gone, payer);
    }
    forall payer | PayerFits(src, was.sponsored, payer) ensures GoneOf(gone, payer) == [] {
      assert PromiseExact(was.txs, was.sponsored, payer);
      FitsLosesNothing(p, src, was.txs, payer, GoneOf(gone, payer));
    }
  }

  lemma FitsLosesNothing(p: Policy, src: Source, txs: Txs, payer: Address, gone: seq<Digest>)
    requires LetGo(p, src, txs, payer, gone) && Owed(txs, payer) <= src.spendable(payer)
    ensures gone == []
  {
    assert gone != [] ==> TooMuchAt(src, txs, payer, gone, 0);
    LessNone(txs, gone);
  }

  /** No two of one payer's sponsorships pay the same per byte. */
  ghost predicate RankedBy(p: Policy, txs: Txs, payer: Address) {
    forall g, h :: g in txs && h in txs && SponsoredBy(txs[g], payer) && SponsoredBy(txs[h], payer) && g != h ==>
      p.rate(txs[g]) != p.rate(txs[h])
  }

  lemma NotBefore(v: seq<Digest>, w: seq<Digest>, i: nat)
    requires NoRepeats(w) && i < |v| && i < |w| && v[..i] == w[..i]
    ensures forall k :: 0 <= k < i ==> v[k] != w[i]
  {
    forall k | 0 <= k < i ensures v[k] != w[i] {
      assert v[..i][k] == v[k] && w[..i][k] == w[k];
    }
  }

  lemma NextGone(p: Policy, src: Source, txs: Txs, payer: Address, v: seq<Digest>, w: seq<Digest>, i: nat)
    requires LetGo(p, src, txs, payer, v) && LetGo(p, src, txs, payer, w) && i < |v| && i < |w| && v[..i] == w[..i]
    ensures p.rate(txs[v[i]]) <= p.rate(txs[w[i]])
  {
    assert v[i] in v && w[i] in w;
    NotBefore(v, w, i);
    if w[i] in v {
      var k :| 0 <= k < |v| && v[k] == w[i];
      assert k >= i;
    }
  }

  lemma NextGoneSame(p: Policy, src: Source, txs: Txs, payer: Address, v: seq<Digest>, w: seq<Digest>, i: nat)
    requires LetGo(p, src, txs, payer, v) && LetGo(p, src, txs, payer, w) && RankedBy(p, txs, payer)
    requires i < |v| && i < |w| && v[..i] == w[..i]
    ensures v[i] == w[i]
  {
    NextGone(p, src, txs, payer, v, w, i);
    NextGone(p, src, txs, payer, w, v, i);
    assert v[i] in v && w[i] in w;
  }

  /** Where one list of releases ends, no other goes on. */
  lemma NoMoreGone(p: Policy, src: Source, txs: Txs, payer: Address, v: seq<Digest>, i: nat, w: seq<Digest>)
    requires LetGo(p, src, txs, payer, v) && i < |v| && w == v[..i]
    ensures Owed(Less(txs, w), payer) > src.spendable(payer)
  {
    assert TooMuchAt(src, txs, payer, v, i);
  }

  /** Without ties in rate, what a payer lets go of does not depend on how its list was sorted. */
  lemma {:induction false} SameGone(p: Policy, src: Source, txs: Txs, payer: Address, v: seq<Digest>, w: seq<Digest>, i: nat)
    requires LetGo(p, src, txs, payer, v) && LetGo(p, src, txs, payer, w) && RankedBy(p, txs, payer)
    requires i <= |v| && i <= |w| && v[..i] == w[..i]
    ensures v == w
    decreases |v| - i
  {
    if i < |v| && i < |w| {
      NextGoneSame(p, src, txs, payer, v, w, i);
      SameSoFar(v, w, i);
      SameGone(p, src, txs, payer, v, w, i + 1);
    } else if i < |v| {
      assert w == v[..i];
      NoMoreGone(p, src, txs, payer, v, i, w);
    } else if i < |w| {
      assert v == w[..i];
      NoMoreGone(p, src, txs, payer, w, i, v);
    } else {
      assert v == v[..i] && w == w[..i];
    }
  }

  /** Where each sender's run ends. */
  type Ends = map<Address, nat>

  ghost function EndOf(src: Source, ends: Ends, a: Address): (end: nat) {
    if a in ends then ends[a] else src.nonce(a)
  }

  /** Of one sender's transactions exactly those of the run stay. */
  ghost predicate KeepsRun(was: Txs, now: Txs, a: Address, confirmed: Word, end: nat) {
    forall h :: h in was && was[h].sender == a ==> (h in now <==> confirmed <= was[h].nonce < end)
  }

  /** The end of the sender's run in this pool. */
  ghost predicate EndsAt(p: Policy, src: Source, s: Shelf, a: Address, end: nat) {
    RunEnd(p.cost, s.txs, QueueOf(s.bySender, a), src.nonce(a), src.spendable(a), end)
  }

  /** Every sender keeps exactly its affordable run from the confirmed nonce. */
  ghost predicate SendersTrimmed(p: Policy, src: Source, was: Shelf, now: Txs, ends: Ends) {
    && Shrunk(was.txs, now)
    && forall a :: EndsAt(p, src, was, a, EndOf(src, ends, a)) && KeepsRun(was.txs, now, a, src.nonce(a), EndOf(src, ends, a))
  }

  /** A sender's queue is a run from the confirmed nonce that it can pay for, as long as the total
      fits 64 bits. */
  ghost predicate SenderFits(p: Policy, src: Source, s: Shelf, a: Address) {
    && RunFrom(src.nonce(a), QueueOf(s.bySender, a))
    && (QueueCost(p.cost, s.txs, a) < U64_LIMIT ==> QueueCost(p.cost, s.txs, a) <= src.spendable(a))
  }

  lemma TrimEnumerates(p: Policy, was: Shelf, now: Txs, a: Address, confirmed: Word, end: nat)
    requires SendersExact(was.txs, was.bySender) && Shrunk(was.txs, now) && KeepsRun(was.txs, now, a, confirmed, end)
    requires forall k: Word :: confirmed <= k < end ==> k in QueueOf(was.bySender, a)
    ensures Enumerates(now, QueueOf(was.bySender, a), a, confirmed, end)
  {
    var q := QueueOf(was.bySender, a);
    forall k: Word | confirmed <= k < end ensures k in q && q[k] in now && now[q[k]].sender == a && now[q[k]].nonce == k {
      assert SlotExact(was.txs, was.bySender, a, k);
    }
    forall h | h in now && now[h].sender == a ensures confirmed <= now[h].nonce < end && q[now[h].nonce] == h {
      assert SlotExact(was.txs, was.bySender, a, now[h].nonce);
    }
  }

  lemma TrimRun(was: Shelf, now: Shelf, a: Address, confirmed: Word, end: nat)
    requires SendersExact(was.txs, was.bySender) && SendersExact(now.txs, now.bySender)
    requires Shrunk(was.txs, now.txs) && KeepsRun(was.txs, now.txs, a, confirmed, end)
    requires forall k: Word :: confirmed <= k < end ==> k in QueueOf(was.bySender, a)
    ensures RunFrom(confirmed, QueueOf(now.bySender, a))
  {
    var q, r := QueueOf(was.bySender, a), QueueOf(now.bySender, a);
    forall m | m in r ensures confirmed <= m < end {
      assert SlotExact(now.txs, now.bySender, a, m);
    }
    forall m, k: Word | m in r && confirmed <= k <= m ensures k in r {
      assert SlotExact(was.txs, was.bySender, a, k);
      assert SlotExact(now.txs, now.bySender, a, k);
    }
  }

  /** A sender that was cut back fits. */
  lemma TrimFits(p: Policy, src: Source, was: Shelf, now: Shelf, a: Address, end: nat)
    requires Exact(p.id, p.size, was) && Exact(p.id, p.size, now)
    requires Shrunk(was.txs, now.txs) && KeepsRun(was.txs, now.txs, a, src.nonce(a), end) && EndsAt(p, src, was, a, end)
    ensures SenderFits(p, src, now, a)
  {
    var q, confirmed := QueueOf(was.bySender, a), src.nonce(a);
    TrimRun(was, now, a, confirmed, end);
    TrimEnumerates(p, was, now.txs, a, confirmed, end);
    RunIsQueue(p.cost, now.txs, q, a, confirmed, end);
    RunTotalSame(p.cost, now.txs, was.txs, q, confirmed, end);
    if QueueCost(p.cost, now.txs, a) < U64_LIMIT {
      RunPaid(p.cost, was.txs, q, confirmed, src.spendable(a), end);
    }
  }

  /** A sender whose queue is in order and paid for. */
  ghost predicate InOrder(p: Policy, src: Source, s: Shelf, a: Address) {
    RunFrom(src.nonce(a), QueueOf(s.bySender, a)) && QueueCost(p.cost, s.txs, a) <= src.spendable(a)
  }

  lemma {:induction false} RunWithin(cost: Tx -> Word, txs: Txs, q: Queue, a: Address, n: nat, end: nat)
    requires end <= U64_LIMIT
    requires forall k: Word :: n <= k < end && k in q && q[k] in txs ==> txs[q[k]].sender == a && txs[q[k]].nonce == k
    ensures RunTotal(cost, txs, q, n, end) <= QueueCost(cost, txs, a)
    decreases end
  {
    if n < end {
      var k: Word := end - 1;
      if k in q && q[k] in txs {
        CostTakes(cost, txs, a, q[k]);
        var less := txs - {q[k]};
        RunWithin(cost, less, q, a, n, end - 1);
        RunTotalSame(cost, less, txs, q, n, end - 1);
      } else {
        RunWithin(cost, txs, q, a, n, end - 1);
      }
    }
  }

  /** None of one sender's transactions is gone. */
  ghost predicate LosesNothing(was: Txs, now: Txs, a: Address) {
    forall h :: h in was && was[h].sender == a ==> h in now
  }

  /** Such a sender loses nothing to the cut. */
  lemma NothingCut(p: Policy, src: Source, s: Shelf, now: Txs, a: Address, end: nat)
    requires Exact(p.id, p.size, s) && InOrder(p, src, s, a) && KeepsRun(s.txs, now, a, src.nonce(a), end)
    requires EndsAt(p, src, s, a, end)
    ensures LosesNothing(s.txs, now, a)
  {
    var q := QueueOf(s.bySender, a);
    forall k: Word | k in q ensures q[k] in s.txs && s.txs[q[k]].sender == a && s.txs[q[k]].nonce == k {
      assert SlotExact(s.txs, s.bySender, a, k);
    }
    if end < U64_LIMIT {
      RunWithin(p.cost, s.txs, q, a, src.nonce(a), end + 1);
    }
    var e: Word := if end < U64_LIMIT then end else LAST_WORD;
    assert end < U64_LIMIT ==> e !in q;
    forall h | h in s.txs && s.txs[h].sender == a ensures src.nonce(a) <= s.txs[h].nonce < end {
      assert SlotExact(s.txs, s.bySender, a, s.txs[h].nonce);
    }
  }

  /** A sender's queue is as it was. */
  lemma SameQueue(p: Policy, was: Shelf, now: Shelf, a: Address)
    requires Exact(p.id, p.size, was) && Exact(p.id, p.size, now) && Shrunk(was.txs, now.txs) && LosesNothing(was.txs, now.txs, a)
    ensures QueueOf(now.bySender, a) == QueueOf(was.bySender, a)
    ensures forall k :: k in QueueOf(was.bySender, a) ==> QueueOf(was.bySender, a)[k] in now.txs
  {
    var q, r := QueueOf(was.bySender, a), QueueOf(now.bySender, a);
    forall n: Word ensures n in r <==> n in q {
      assert SlotExact(was.txs, was.bySender, a, n) && SlotExact(now.txs, now.bySender, a, n);
    }
    forall n: Word | n in q ensures r[n] == q[n] && q[n] in now.txs {
      assert SlotExact(was.txs, was.bySender, a, n) && SlotExact(now.txs, now.bySender, a, n);
    }
  }

  /** And so is the end of its run. */
  lemma EndSame(p: Policy, src: Source, was: Shelf, now: Shelf, a: Address, end: nat)
    requires Exact(p.id, p.size, was) && Exact(p.id, p.size, now) && Shrunk(was.txs, now.txs) && LosesNothing(was.txs, now.txs, a)
    requires EndsAt(p, src, now, a, end)
    ensures EndsAt(p, src, was, a, end)
  {
    var q, confirmed := QueueOf(was.bySender, a), src.nonce(a);
    SameQueue(p, was, now, a);
    forall k: Word ensures PaidUpTo(p.cost, was.txs, q, confirmed, src.spendable(a), k)
                       <==> PaidUpTo(p.cost, now.txs, q, confirmed, src.spendable(a), k) {
      RunTotalSame(p.cost, now.txs, was.txs, q, confirmed, k + 1);
    }
  }

  /** So far exactly the senders listed are cut back. */
  ghost predicate CutSoFar(p: Policy, src: Source, was: Shelf, now: Txs, ends: Ends) {
    && Shrunk(was.txs, now)
    && (forall a :: a !in ends ==> LosesNothing(was.txs, now, a))
    && (forall a :: a in ends ==> EndsAt(p, src, was, a, ends[a]) && KeepsRun(was.txs, now, a, src.nonce(a), ends[a]))
  }

  lemma CutOneMore(p: Policy, src: Source, was: Shelf, mid: Shelf, now: Txs, ends: Ends, a: Address, end: nat)
    requires Exact(p.id, p.size, was) && Exact(p.id, p.size, mid) && CutSoFar(p, src, was, mid.txs, ends) && a !in ends
    requires EndsAt(p, src, mid, a, end) && Trimmed(mid.txs, now, a, src.nonce(a), end)
    ensures CutSoFar(p, src, was, now, ends[a := end])
  {
    EndSame(p, src, was, mid, a, end);
    CutOthers(p, src, was, mid.txs, now, ends, a, end);
  }

  lemma CutOthers(p: Policy, src: Source, was: Shelf, mid: Txs, now: Txs, ends: Ends, a: Address, end: nat)
    requires CutSoFar(p, src, was, mid, ends) && a !in ends && Trimmed(mid, now, a, src.nonce(a), end)
    ensures Shrunk(was.txs, now) && KeepsRun(was.txs, now, a, src.nonce(a), end)
    ensures forall b :: b !in ends && b != a ==> LosesNothing(was.txs, now, b)
    ensures forall b :: b in ends ==> KeepsRun(was.txs, now, b, src.nonce(b), ends[b])
  {
    forall b | b !in ends && b != a ensures LosesNothing(was.txs, now, b) {
      assert LosesNothing(was.txs, mid, b);
    }
    forall b | b in ends ensures KeepsRun(was.txs, now, b, src.nonce(b), ends[b]) {
      assert KeepsRun(was.txs, mid, b, src.nonce(b), ends[b]);
    }
    assert LosesNothing(was.txs, mid, a);
  }

  lemma CutAll(p: Policy, src: Source, was: Shelf, now: Txs, ends: Ends)
    requires Exact(p.id, p.size, was) && CutSoFar(p, src, was, now, ends) && was.bySender.Keys <= ends.Keys
    ensures SendersTrimmed(p, src, was, now, ends)
  {
    forall a ensures EndsAt(p, src, was, a, EndOf(src, ends, a)) && KeepsRun(was.txs, now, a, src.nonce(a), EndOf(src, ends, a)) {
      if a !in ends {
        NoQueue(p, was, a);
      }
    }
  }

  lemma NoQueue(p: Policy, s: Shelf, a: Address)
    requires Exact(p.id, p.size, s) && a !in s.bySender
    ensures forall h :: h in s.txs ==> s.txs[h].sender != a
  {
    forall h | h in s.txs ensures s.txs[h].sender != a {
      assert SlotExact(s.txs, s.bySender, a, s.txs[h].nonce);
    }
  }

  /** Every sender's queue is cut back. */
  method TrimSenders(pool: Pool, p: Policy, src: Source) returns (dropped: nat, ghost ends: Ends)
    requires Exact(p.id, p.size, pool.Now())
    modifies pool
    ensures Exact(p.id, p.size, pool.Now()) && SendersTrimmed(p, src, old(pool.Now()), pool.txs, ends)
    ensures |pool.txs| + dropped == |old(pool.txs)|
  {
    ghost var was := pool.Now();
    dropped, ends := 0, map[];
    var left := pool.bySender.Keys;
    while left != {}
      invariant Exact(p.id, p.size, pool.Now()) && CutSoFar(p, src, was, pool.txs, ends)
      invariant left !! ends.Keys && was.bySender.Keys <= left + ends.Keys
      invariant |pool.txs| + dropped == |was.txs|
      decreases left
    {
      var a :| a in left;
      ghost var mid, end := pool.Now(), 0;
      var n;
      n, end := TrimSender(pool, p, src, a);
      CutOneMore(p, src, was, mid, pool.txs, ends, a, end);
      ends := ends[a := end];
      left, dropped := left - {a}, dropped + n;
    }
    CutAll(p, src, was, pool.txs, ends);
  }

  /** What no expiry rule keeps out of the next block. */
  ghost function Unexpired(src: Source, txs: Txs): (r: Txs) {
    map h | h in txs && !src.expired(txs[h]) :: txs[h]
  }

  /** Exactly what the clean-up keeps: without the expired, and without what the payers let go of to be
      able to keep their word, of every sender the affordable run from the confirmed nonce. */
  ghost predicate Settles(p: Policy, src: Source, was: Txs, mid: Shelf, now: Txs, gone: Releases, ends: Ends) {
    && Exact(p.id, p.size, mid) && SponsorsSettled(p, src, Unexpired(src, was), mid.txs, gone)
    && SendersTrimmed(p, src, mid, now, ends)
  }

  /** A sender with nothing to fear: its queue is in order, nothing in it expired, and whoever sponsors
      a part of it can pay for everything it promised. */
  ghost predicate Undisturbed(p: Policy, src: Source, s: Shelf, a: Address) {
    && InOrder(p, src, s, a)
    && forall h :: h in s.txs && s.txs[h].sender == a ==>
         !src.expired(s.txs[h]) && (IsSponsored(s.txs[h]) ==> Sum(s.txs, Promised(s.txs[h].feePayer)) <= src.spendable(s.txs[h].feePayer))
  }

  lemma UnreleasedStay(p: Policy, src: Source, was: Txs, mid: Txs, gone: Releases, h: Digest)
    requires SponsorsSettled(p, src, Unexpired(src, was), mid, gone) && h in was && !src.expired(was[h])
    requires IsSponsored(was[h]) ==> Sum(was, Promised(was[h].feePayer)) <= src.spendable(was[h].feePayer)
    ensures h in mid && mid[h] == was[h]
  {
    var payer, left := was[h].feePayer, Unexpired(src, was);
    if IsSponsored(was[h]) {
      SumShrinks(left, was, Promised(payer));
      OwedWithin(left, payer, src.spendable(payer));
      assert LetGo(p, src, left, payer, GoneOf(gone, payer));
      FitsLosesNothing(p, src, left, payer, GoneOf(gone, payer));
    }
    assert h in left && !IsReleased(gone, h, left[h]);
  }

  lemma OwedWithin(txs: Txs, payer: Address, n: Word)
    requires Sum(txs, Promised(payer)) <= n
    ensures Owed(txs, payer) <= n
  {
  }

  /** It loses nothing, whatever the others lose. */
  lemma UndisturbedStays(p: Policy, src: Source, was: Shelf, mid: Shelf, now: Txs, gone: Releases, ends: Ends, a: Address)
    requires Exact(p.id, p.size, was) && Settles(p, src, was.txs, mid, now, gone, ends) && Undisturbed(p, src, was, a)
    ensures LosesNothing(was.txs, now, a)
  {
    forall h | h in was.txs && was.txs[h].sender == a ensures h in mid.txs && mid.txs[h] == was.txs[h] {
      UnreleasedStay(p, src, was.txs, mid.txs, gone, h);
    }
    assert Shrunk(was.txs, mid.txs);
    SameQueue(p, was, mid, a);
    SumSame(was.txs, mid.txs, CostTo(p.cost, a));
    NothingCut(p, src, mid, now, a, EndOf(src, ends, a));
  }

  /** A pool with nothing to clean up. */
  ghost predicate Settled(p: Policy, src: Source, s: Shelf) {
    && (forall h :: h in s.txs ==> !src.expired(s.txs[h]))
    && (forall payer :: PayerFits(src, s.sponsored, payer))
    && (forall a :: InOrder(p, src, s, a))
  }

  ghost predicate PromiseKept(src: Source, was: Txs, now: Txs, payer: Address) {
    Sum(was, Promised(payer)) < U64_LIMIT ==> Sum(now, Promised(payer)) <= src.spendable(payer)
  }

  lemma PromisesKept(p: Policy, src: Source, was: Txs, mid: Shelf, now: Txs, payer: Address)
    requires Shrunk(was, mid.txs) && Shrunk(mid.txs, now) && PromiseExact(mid.txs, mid.sponsored, payer)
    requires PayerFits(src, mid.sponsored, payer)
    ensures PromiseKept(src, was, now, payer)
  {
    SumShrinks(mid.txs, was, Promised(payer));
    SumShrinks(now, mid.txs, Promised(payer));
  }

  /** The clean-up: whatever the pool held, it ends with gap-free runs from the confirmed nonces
      that their senders can pay for, promises their sponsors can keep, and nothing expired; what it
      keeps is exactly that, and a sender with nothing to fear loses nothing. */
  method Reconcile(pool: Pool, p: Policy, src: Source)
    returns (dropped: nat, ghost mid: Shelf, ghost gone: Releases, ghost ends: Ends)
    requires Exact(p.id, p.size, pool.Now())
    modifies pool
    ensures Exact(p.id, p.size, pool.Now()) && Shrunk(old(pool.txs), pool.txs)
    ensures Settles(p, src, old(pool.txs), mid, pool.txs, gone, ends)
    ensures |pool.txs| + dropped == |old(pool.txs)|
    ensures Runs(src, pool.bySender)
    ensures forall a :: SenderFits(p, src, pool.Now(), a)
    ensures forall payer :: PromiseKept(src, old(pool.txs), pool.txs, payer)
    ensures forall h :: h in pool.txs ==> !src.expired(pool.txs[h])
    ensures forall a :: Undisturbed(p, src, old(pool.Now()), a) ==> LosesNothing(old(pool.txs), pool.txs, a)
    ensures Settled(p, src, old(pool.Now())) ==> pool.txs == old(pool.txs)
  {
    ghost var was := pool.Now();
    dropped := PruneExpired(pool, p, src);
    PrunedIs(src, was.txs, pool.txs);
    ghost var pruned := pool.Now();
    var n;
    n, gone := ReconcileSponsors(pool, p, src);
    mid := pool.Now();
    var m;
    m, ends := TrimSenders(pool, p, src);
    dropped := dropped + n + m;
    Cleaned(p, src, was, pruned, mid, pool.Now(), gone, ends);
  }

  lemma PrunedIs(src: Source, was: Txs, now: Txs)
    requires Pruned(src, was, now)
    ensures now == Unexpired(src, was)
  {
  }

  /** What follows for the pool as a whole. */
  lemma Cleaned(p: Policy, src: Source, was: Shelf, pruned: Shelf, mid: Shelf, now: Shelf, gone: Releases, ends: Ends)
    requires Exact(p.id, p.size, was) && Exact(p.id, p.size, pruned) && Exact(p.id, p.size, now)
    requires Settles(p, src, was.txs, mid, now.txs, gone, ends) && pruned.txs == Unexpired(src, was.txs)
    requires forall payer :: PayerFits(src, mid.sponsored, payer)
    ensures Shrunk(was.txs, now.txs) && Runs(src, now.bySender)
    ensures forall a :: SenderFits(p, src, now, a)
    ensures forall payer :: PromiseKept(src, was.txs, now.txs, payer)
    ensures forall h :: h in now.txs ==> !src.expired(now.txs[h])
    ensures forall a :: Undisturbed(p, src, was, a) ==> LosesNothing(was.txs, now.txs, a)
    ensures Settled(p, src, was) ==> now.txs == was.txs
  {
    Chained(was.txs, pruned.txs, mid.txs, now.txs);
    forall payer ensures PromiseKept(src, was.txs, now.txs, payer) {
      assert PromiseExact(mid.txs, mid.sponsored, payer) && PayerFits(src, mid.sponsored, payer);
      PromisesKept(p, src, was.txs, mid, now.txs, payer);
    }
    forall a ensures SenderFits(p, src, now, a) && RunFrom(src.nonce(a), QueueOf(now.bySender, a)) {
      TrimFits(p, src, mid, now, a, EndOf(src, ends, a));
    }
    forall a | Undisturbed(p, src, was, a) ensures LosesNothing(was.txs, now.txs, a) {
      UndisturbedStays(p, src, was, mid, now.txs, gone, ends, a);
    }
    if Settled(p, src, was) {
      SettledStays(p, src, was, mid, now.txs, gone, ends);
    }
  }

  lemma Chained(a: Txs, b: Txs, c: Txs, d: Txs)
    requires Shrunk(a, b) && Shrunk(b, c) && Shrunk(c, d)
    ensures Shrunk(a, c) && Shrunk(a, d) && Shrunk(b, d)
  {
  }

  lemma SettledStays(p: Policy, src: Source, was: Shelf, mid: Shelf, now: Txs, gone: Releases, ends: Ends)
    requires Exact(p.id, p.size, was) && Settles(p, src, was.txs, mid, now, gone, ends) && Settled(p, src, was)
    ensures now == was.txs
  {
    assert Unexpired(src, was.txs) == was.txs;
    forall payer ensures GoneOf(gone, payer) == [] {
      assert PayerFits(src, was.sponsored, payer) && PromiseExact(was.txs, was.sponsored, payer);
      FitsLosesNothing(p, src, was.txs, payer, GoneOf(gone, payer));
    }
    assert mid.txs == was.txs;
    forall a ensures LosesNothing(was.txs, now, a) {
      assert InOrder(p, src, was, a);
      SameQueue(p, was, mid, a);
      NothingCut(p, src, mid, now, a, EndOf(src, ends, a));
    }
    forall h | h in was.txs ensures h in now {
      assert LosesNothing(was.txs, now, was.txs[h].sender);
    }
    assert now == was.txs;
  }

  /** Without ties in rate, what the clean-up keeps does not depend on the order it goes through
      payers and senders in. */
  lemma SettlesOnce(p: Policy, src: Source, was: Txs, mid: Shelf, now: Txs, gone: Releases, ends: Ends,
                    mid': Shelf, now': Txs, gone': Releases, ends': Ends)
    requires Settles(p, src, was, mid, now, gone, ends) && Settles(p, src, was, mid', now', gone', ends')
    requires forall payer :: RankedBy(p, was, payer)
    ensures now == now'
  {
    var left := Unexpired(src, was);
    forall payer ensures GoneOf(gone, payer) == GoneOf(gone', payer) {
      assert RankedBy(p, was, payer);
      assert RankedBy(p, left, payer);
      SameGone(p, src, left, payer, GoneOf(gone, payer), GoneOf(gone', payer), 0);
    }
    SameLeft(left, mid.txs, gone, mid'.txs, gone');
    forall a ensures EndOf(src, ends, a) == EndOf(src, ends', a) {
      EndSame(p, src, mid, mid', a, EndOf(src, ends', a));
      OneRunEnd(p.cost, mid.txs, QueueOf(mid.bySender, a), src.nonce(a), src.spendable(a), EndOf(src, ends, a), EndOf(src, ends', a));
    }
    SameRuns(p, src, mid, now, ends, mid', now', ends');
  }

  lemma SameLeft(was: Txs, now: Txs, gone: Releases, now': Txs, gone': Releases)
    requires OnlyReleased(was, now, gone) && OnlyReleased(was, now', gone')
    requires forall payer :: GoneOf(gone, payer) == GoneOf(gone', payer)
    ensures now == now'
  {
    forall h ensures h in now <==> h in now' {
      assert h in was ==> (IsReleased(gone, h, was[h]) <==> IsReleased(gone', h, was[h]));
    }
  }

  lemma SameRuns(p: Policy, src: Source, was: Shelf, now: Txs, ends: Ends, was': Shelf, now': Txs, ends': Ends)
    requires SendersTrimmed(p, src, was, now, ends) && SendersTrimmed(p, src, was', now', ends') && was.txs == was'.txs
    requires forall a :: EndOf(src, ends, a) == EndOf(src, ends', a)
    ensures now == now'
  {
    forall h ensures h in now <==> h in now' {
      if h in was.txs {
        var a := was.txs[h].sender;
        assert KeepsRun(was.txs, now, a, src.nonce(a), EndOf(src, ends, a)) && KeepsRun(was'.txs, now', a, src.nonce(a), EndOf(src, ends', a));
      }
    }
  }
}
