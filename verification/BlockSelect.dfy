/** The selection loop, proved to choose greedily and to stop only when nothing more fits. */
module BlockSelect {
  import opened Bytes
  import opened Seqs
  import opened Transactions
  import opened ByteOrder
  import opened Greedy

  type Cursors = map<Address, nat>

  ghost predicate Placed<C>(d: Desk<C>, p: Draft<C>, chosen: seq<Tx>, queues: Queues, cursors: Cursors, from: Address) {
    from in cursors && from in queues && Cursor(d, p, chosen, from, queues[from], cursors[from])
  }

  ghost predicate AllPlaced<C>(d: Desk<C>, p: Draft<C>, chosen: seq<Tx>, queues: Queues, cursors: Cursors) {
    forall from :: from in queues ==> Placed(d, p, chosen, queues, cursors, from)
  }

  ghost predicate Lined<C>(d: Desk<C>, pool: seq<Tx>, queues: Queues) {
    && SlotKeyed(pool) && Sorted(d, pool, queues)
    && forall from :: from in queues ==> ByNonce(queues[from])
  }

  /** The best so far beats every eligible transaction of the senders seen. */
  ghost predicate Scanned<C>(d: Desk<C>, start: C, pool: seq<Tx>, chosen: seq<Tx>, seen: seq<Address>, best: Option<Candidate>) {
    forall y :: y in pool && y.sender in seen && Eligible(d, start, chosen, y) ==> best.Some? && !Outbids(d, y, best.value.tx)
  }

  /** A best candidate is eligible and is the head of its sender's queue. */
  ghost predicate IsHead<C>(d: Desk<C>, start: C, pool: seq<Tx>, chosen: seq<Tx>, queues: Queues, cursors: Cursors, c: Candidate) {
    && c == CandidateOf(d, c.tx) && c.tx in pool && Eligible(d, start, chosen, c.tx)
    && c.tx.sender in queues && c.tx.sender in cursors
    && cursors[c.tx.sender] < |queues[c.tx.sender]| && queues[c.tx.sender][cursors[c.tx.sender]] == c
  }

  /** The head of a queue, if it may go in now. */
  function OpenHead<C>(d: Desk<C>, p: Draft<C>, from: Address, cs: seq<Candidate>, i: nat): (r: Option<Candidate>) {
    if i >= |cs| || cs[i].tx.nonce != d.nonce(p.cache, from) || !FitsCached(d, p, cs[i]) then None else Some(cs[i])
  }

  /** An open head is exactly what its sender has to offer. */
  lemma HeadOffers<C(!new)>(d: Desk<C>, start: C, pool: seq<Tx>, chosen: seq<Tx>, from: Address, cs: seq<Candidate>, i: nat)
    requires Orderly(d) && EachEligible(d, start, chosen) && SlotKeyed(pool) && QueueOf(d, pool, from, cs) && ByNonce(cs)
    requires Cursor(d, AddAll(d, start, chosen), chosen, from, cs, i)
    requires i < |cs| ==> cs[i].tx.nonce >= d.nonce(AddAll(d, start, chosen).cache, from)
    ensures var head := OpenHead(d, AddAll(d, start, chosen), from, cs, i);
            && (head.Some? ==> Eligible(d, start, chosen, cs[i].tx))
            && (forall j :: 0 <= j < |cs| && Eligible(d, start, chosen, cs[j].tx) ==> head.Some? && cs[i].tx == cs[j].tx)
  {
    var p := AddAll(d, start, chosen);
    var head := OpenHead(d, p, from, cs, i);
    if head.Some? {
      assert cs[i] in cs;
      HeadRises(d, start, chosen, from, cs, i);
    }
    forall j | 0 <= j < |cs| && Eligible(d, start, chosen, cs[j].tx) ensures head.Some? && cs[i].tx == cs[j].tx {
      OnlyHead(d, start, chosen, pool, from, cs, i, j);
      assert cs[i] in cs && cs[j] in cs;
    }
  }

  function Preferred(best: Option<Candidate>, head: Option<Candidate>): (r: Option<Candidate>) {
    if head.None? then best
    else if best.None? || OutbidsCached(head.value, best.value) then head
    else best
  }

  lemma InQueue<C>(d: Desk<C>, pool: seq<Tx>, queues: Queues, y: Tx) returns (j: nat)
    requires Sorted(d, pool, queues) && y in pool && d.admissible(y)
    ensures y.sender in queues && j < |queues[y.sender]| && queues[y.sender][j].tx == y
  {
    assert Queued(d, queues, y);
    j :| 0 <= j < |queues[y.sender]| && queues[y.sender][j] == CandidateOf(d, y);
  }

  lemma ScanNext<C>(d: Desk<C>, start: C, pool: seq<Tx>, chosen: seq<Tx>, queues: Queues, seen: seq<Address>, from: Address,
                    best: Option<Candidate>, head: Option<Candidate>)
    requires Sorted(d, pool, queues) && from in queues && Scanned(d, start, pool, chosen, seen, best)
    requires best.Some? ==> best.value == CandidateOf(d, best.value.tx)
    requires head.Some? ==> head.value == CandidateOf(d, head.value.tx)
    requires forall j :: 0 <= j < |queues[from]| && Eligible(d, start, chosen, queues[from][j].tx) ==>
      head.Some? && head.value.tx == queues[from][j].tx
    ensures Scanned(d, start, pool, chosen, seen + [from], Preferred(best, head))
  {
    var next := Preferred(best, head);
    forall y | y in pool && y.sender in seen + [from] && Eligible(d, start, chosen, y)
      ensures next.Some? && !Outbids(d, y, next.value.tx)
    {
      if y.sender == from {
        var j := InQueue(d, pool, queues, y);
        OutbidsOrder(d, y, y, y);
      } else {
        assert best.Some? && !Outbids(d, y, best.value.tx);
        if head.Some? && OutbidsCached(head.value, best.value) {
          NotOutbid(d, y, head.value.tx, best.value.tx);
        }
      }
    }
  }

  lemma NotOutbid<C>(d: Desk<C>, y: Tx, head: Tx, best: Tx)
    requires !Outbids(d, y, best) && Outbids(d, head, best)
    ensures !Outbids(d, y, head)
  {
    OutbidsOrder(d, y, head, best);
  }

  /** One round over the senders finds the best open head. */
  method Scan<C(!new)>(d: Desk<C>, ghost start: C, ghost pool: seq<Tx>, ghost chosen: seq<Tx>, p: Draft<C>, queues: Queues,
                       senders: seq<Address>, before: Cursors) returns (best: Option<Candidate>, cursors: Cursors)
    requires Orderly(d) && EachEligible(d, start, chosen) && p == AddAll(d, start, chosen) && Lined(d, pool, queues)
    requires (forall from :: from in senders <==> from in queues) && AllPlaced(d, p, chosen, queues, before)
    ensures AllPlaced(d, p, chosen, queues, cursors)
    ensures best.None? ==> Exhausted(d, start, pool, chosen)
    ensures best.Some? ==> BestPick(d, start, pool, chosen, best.value.tx)
    ensures best.Some? ==> IsHead(d, start, pool, chosen, queues, cursors, best.value)
  {
    best, cursors := None, before;
    for k := 0 to |senders|
      invariant AllPlaced(d, p, chosen, queues, cursors)
      invariant Scanned(d, start, pool, chosen, senders[..k], best)
      invariant best.Some? ==> IsHead(d, start, pool, chosen, queues, cursors, best.value)
    {
      best, cursors := ScanSender(d, start, pool, chosen, p, queues, senders[..k], senders[k], best, cursors);
      SnocSlice(senders, k);
    }
    WholeSlice(senders);
    AllScanned(d, start, pool, chosen, queues, senders, best);
  }

  lemma AllScanned<C>(d: Desk<C>, start: C, pool: seq<Tx>, chosen: seq<Tx>, queues: Queues, senders: seq<Address>, best: Option<Candidate>)
    requires Scanned(d, start, pool, chosen, senders, best) && Sorted(d, pool, queues)
    requires forall from :: from in senders <==> from in queues
    ensures forall y :: y in pool && Eligible(d, start, chosen, y) ==> best.Some? && !Outbids(d, y, best.value.tx)
  {
    forall y | y in pool && Eligible(d, start, chosen, y) ensures best.Some? && !Outbids(d, y, best.value.tx) {
      assert Queued(d, queues, y);
    }
  }

  method ScanSender<C(!new)>(d: Desk<C>, ghost start: C, ghost pool: seq<Tx>, ghost chosen: seq<Tx>, p: Draft<C>, queues: Queues,
                             ghost seen: seq<Address>, from: Address, was: Option<Candidate>, before: Cursors)
    returns (best: Option<Candidate>, cursors: Cursors)
    requires Orderly(d) && EachEligible(d, start, chosen) && p == AddAll(d, start, chosen) && Lined(d, pool, queues)
    requires from in queues && AllPlaced(d, p, chosen, queues, before)
    requires Scanned(d, start, pool, chosen, seen, was)
    requires was.Some? ==> IsHead(d, start, pool, chosen, queues, before, was.value)
    ensures AllPlaced(d, p, chosen, queues, cursors)
    ensures Scanned(d, start, pool, chosen, seen + [from], best)
    ensures best.Some? ==> IsHead(d, start, pool, chosen, queues, cursors, best.value)
  {
    var cs := queues[from];
    assert Placed(d, p, chosen, queues, before, from) && QueueOf(d, pool, from, cs);
    assert forall j :: 0 <= j < |cs| ==> cs[j] in cs;
    var i := Skip(d, p, chosen, from, cs, before[from]);
    cursors := before[from := i];
    var head := OpenHead(d, p, from, cs, i);
    HeadOffers(d, start, pool, chosen, from, cs, i);
    ScanNext(d, start, pool, chosen, queues, seen, from, was, head);
    best := Preferred(was, head);
    Replaced(d, p, chosen, queues, before, from, i);
  }

  lemma Replaced<C>(d: Desk<C>, p: Draft<C>, chosen: seq<Tx>, queues: Queues, cursors: Cursors, from: Address, i: nat)
    requires AllPlaced(d, p, chosen, queues, cursors) && from in queues && Cursor(d, p, chosen, from, queues[from], i)
    ensures AllPlaced(d, p, chosen, queues, cursors[from := i])
  {
    forall a | a in queues ensures Placed(d, p, chosen, queues, cursors[from := i], a) {
      assert Placed(d, p, chosen, queues, cursors, a);
    }
  }

  /** Cursors still stand right once a head has been chosen. */
  lemma CursorAfter<C(!new)>(d: Desk<C>, p: Draft<C>, chosen: seq<Tx>, from: Address, cs: seq<Candidate>, i: nat, tx: Tx)
    requires Orderly(d) && Cursor(d, p, chosen, from, cs, i) && ByNonce(cs) && d.nonce(p.cache, tx.sender) == tx.nonce
    requires forall j :: 0 <= j < |cs| ==> cs[j].tx.sender == from
    requires tx.sender == from ==> i < |cs| && cs[i].tx == tx
    ensures Cursor(d, Add(d, p, tx), chosen + [tx], from, cs, i)
  {
    forall j | 0 <= j < i ensures Passed(d, Add(d, p, tx), chosen + [tx], cs[j].tx) {
      assert Passed(d, p, chosen, cs[j].tx);
      PassedStays(d, p, chosen, cs[j].tx, tx);
    }
  }

  lemma PassedStays<C(!new)>(d: Desk<C>, p: Draft<C>, chosen: seq<Tx>, x: Tx, tx: Tx)
    requires Orderly(d) && Passed(d, p, chosen, x) && d.nonce(p.cache, tx.sender) == tx.nonce
    ensures Passed(d, Add(d, p, tx), chosen + [tx], x)
  {
    NonceMoves(d, p, tx, x.sender);
    assert tx in chosen + [tx];
    if !Rises(chosen, x) {
      var y :| y in chosen && y.sender == x.sender && y.nonce >= x.nonce;
      assert y in chosen + [tx];
    }
  }

  lemma PlacedAfter<C(!new)>(d: Desk<C>, start: C, pool: seq<Tx>, chosen: seq<Tx>, queues: Queues, cursors: Cursors, c: Candidate)
    requires Orderly(d) && Lined(d, pool, queues) && AllPlaced(d, AddAll(d, start, chosen), chosen, queues, cursors)
    requires IsHead(d, start, pool, chosen, queues, cursors, c)
    ensures AllPlaced(d, Add(d, AddAll(d, start, chosen), c.tx), chosen + [c.tx], queues, cursors)
  {
    var p := AddAll(d, start, chosen);
    forall a | a in queues ensures Placed(d, Add(d, p, c.tx), chosen + [c.tx], queues, cursors, a) {
      assert Placed(d, p, chosen, queues, cursors, a) && QueueOf(d, pool, a, queues[a]);
      var cs := queues[a];
      assert forall j :: 0 <= j < |cs| ==> cs[j] in cs;
      CursorAfter(d, p, chosen, a, cs, cursors[a], c.tx);
    }
  }

  lemma ChosenMore<C>(d: Desk<C>, start: C, pool: seq<Tx>, chosen: seq<Tx>, tx: Tx)
    requires ChosenGreedily(d, start, pool, chosen) && BestPick(d, start, pool, chosen, tx)
    ensures ChosenGreedily(d, start, pool, chosen + [tx])
    ensures AddAll(d, start, chosen + [tx]) == Add(d, AddAll(d, start, chosen), tx)
  {
    var more := chosen + [tx];
    assert more[..|chosen|] == chosen;
    forall k | 0 <= k < |more| ensures BestPick(d, start, pool, more[..k], more[k]) {
      if k < |chosen| {
        PickAt(d, start, pool, chosen, k);
        assert more[..k] == chosen[..k];
      }
    }
  }

  lemma NothingPlaced<C>(d: Desk<C>, p: Draft<C>, queues: Queues, cursors: Cursors)
    requires forall from :: from in queues ==> from in cursors && cursors[from] == 0
    ensures AllPlaced(d, p, [], queues, cursors)
  {
    forall from | from in queues ensures Placed(d, p, [], queues, cursors, from) {
    }
  }

  /** Where the loop stands between rounds. */
  ghost predicate Choosing<C>(d: Desk<C>, start: C, pool: seq<Tx>, queues: Queues, cursors: Cursors, p: Draft<C>, chosen: seq<Tx>) {
    && p == AddAll(d, start, chosen) && ChosenGreedily(d, start, pool, chosen)
    && AllPlaced(d, p, chosen, queues, cursors)
  }

  function AddCandidate<C>(d: Desk<C>, p: Draft<C>, c: Candidate): (q: Draft<C>) {
    Draft(d.picked(p.cache, c.tx), p.weight + c.size, p.ops + c.ops,
          if c.tx.name.Some? then p.claimed + {c.tx.name.value.name} else p.claimed)
  }

  lemma CachedDraft<C>(d: Desk<C>, p: Draft<C>, c: Candidate)
    requires c == CandidateOf(d, c.tx)
    ensures AddCandidate(d, p, c) == Add(d, p, c.tx)
  {
  }

  lemma RoundKeeps<C(!new)>(d: Desk<C>, start: C, pool: seq<Tx>, queues: Queues, cursors: Cursors, p: Draft<C>, chosen: seq<Tx>, c: Candidate)
    requires Orderly(d) && Lined(d, pool, queues) && Choosing(d, start, pool, queues, cursors, p, chosen)
    requires BestPick(d, start, pool, chosen, c.tx) && IsHead(d, start, pool, chosen, queues, cursors, c)
    ensures Choosing(d, start, pool, queues, cursors, AddCandidate(d, p, c), chosen + [c.tx])
  {
    CachedDraft(d, p, c);
    ChosenMore(d, start, pool, chosen, c.tx);
    PlacedAfter(d, start, pool, chosen, queues, cursors, c);
  }

  /** One round: the best open head, or none when nothing fits. */
  method Round<C(!new)>(d: Desk<C>, ghost start: C, ghost pool: seq<Tx>, queues: Queues, senders: seq<Address>, before: Cursors,
                        p: Draft<C>, chosen: seq<Tx>) returns (best: Option<Candidate>, cursors: Cursors)
    requires Orderly(d) && Lined(d, pool, queues) && Choosing(d, start, pool, queues, before, p, chosen)
    requires forall from :: from in senders <==> from in queues
    ensures best.None? ==> Exhausted(d, start, pool, chosen)
    ensures best.Some? ==> Choosing(d, start, pool, queues, cursors, AddCandidate(d, p, best.value), chosen + [best.value.tx])
  {
    GreedyEligible(d, start, pool, chosen);
    best, cursors := Scan(d, start, pool, chosen, p, queues, senders, before);
    if best.Some? {
      RoundKeeps(d, start, pool, queues, cursors, p, chosen, best.value);
    }
  }

  /** The block's transactions: the best open head each round, until the count is reached or
      nothing more fits. */
  method Select<C(!new)>(d: Desk<C>, start: C, pool: seq<Tx>, limit: int) returns (chosen: seq<Tx>)
    requires Orderly(d) && SlotKeyed(pool)
    ensures Selected(d, start, pool, limit, chosen)
  {
    var queues, senders := Prepare(d, pool);
    var cursors: Cursors := map from | from in queues :: 0;
    var p := Draft(start, 0, 0, {});
    chosen := [];
    NothingPlaced(d, p, queues, cursors);
    while |chosen| < limit
      invariant chosen == [] || |chosen| <= limit
      invariant Choosing(d, start, pool, queues, cursors, p, chosen)
      decreases limit - |chosen|
    {
      var best, moved := Round(d, start, pool, queues, senders, cursors, p, chosen);
      if best.None? {
        return;
      }
      p, chosen, cursors := AddCandidate(d, p, best.value), chosen + [best.value.tx], moved;
    }
  }
}
