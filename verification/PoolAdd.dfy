/** Adding to the pool: replace by fee, evict from the ends of runs, keep every index exact and
    every run free of gaps, even when the newcomer is refused after all. */
module PoolAdd {
  import opened Bytes
  import opened Seqs
  import opened Transactions
  import opened PoolIndexes
  import opened Mempool
  import opened Admission

  /** The highest nonce of a queue. */
  method TopOf(q: Queue) returns (top: Word)
    requires q != map[]
    ensures top in q && forall n :: n in q ==> n <= top
  {
    var left := q.Keys;
    top :| top in left;
    while left != {}
      invariant left <= q.Keys && top in q && forall n :: n in q && n !in left ==> n <= top
      decreases left
    {
      var n :| n in left;
      if n > top {
        top := n;
      }
      left := left - {n};
    }
  }

  /** A victim and its rate are the cheapest of the runs' ends among some senders. */
  ghost predicate Cheapest(p: Policy, s: Shelf, senders: set<Address>, victim: Option<Digest>, rate: real) {
    && (victim.Some? ==> victim.value in s.txs && IsTop(s.bySender, s.txs[victim.value]) && rate == p.rate(s.txs[victim.value]))
    && (forall h :: h in s.txs && s.txs[h].sender in senders && IsTop(s.bySender, s.txs[h]) ==>
          victim.Some? && rate <= p.rate(s.txs[h]))
  }

  lemma EndOfRun(s: Shelf, a: Address, top: Word)
    requires SendersExact(s.txs, s.bySender) && top in QueueOf(s.bySender, a) && forall n :: n in QueueOf(s.bySender, a) ==> n <= top
    ensures var h := QueueOf(s.bySender, a)[top]; h in s.txs && s.txs[h].sender == a && IsTop(s.bySender, s.txs[h])
    ensures forall h :: h in s.txs && s.txs[h].sender == a && IsTop(s.bySender, s.txs[h]) ==> h == QueueOf(s.bySender, a)[top]
  {
    assert SlotExact(s.txs, s.bySender, a, top);
    forall h | h in s.txs && s.txs[h].sender == a && IsTop(s.bySender, s.txs[h]) ensures h == QueueOf(s.bySender, a)[top] {
      assert SlotExact(s.txs, s.bySender, a, s.txs[h].nonce);
    }
  }

  lemma CheapestNext(p: Policy, s: Shelf, senders: set<Address>, victim: Option<Digest>, rate: real, a: Address, top: Word)
    requires SendersExact(s.txs, s.bySender) && Cheapest(p, s, senders, victim, rate)
    requires top in QueueOf(s.bySender, a) && forall n :: n in QueueOf(s.bySender, a) ==> n <= top
    ensures var h := QueueOf(s.bySender, a)[top];
            && h in s.txs
            && (if victim.None? || p.rate(s.txs[h]) < rate then Cheapest(p, s, senders + {a}, Some(h), p.rate(s.txs[h]))
                else Cheapest(p, s, senders + {a}, victim, rate))
  {
    EndOfRun(s, a, top);
  }

  /** The cheapest transaction that may be dropped without leaving a gap. */
  method EvictionCandidate(p: Policy, s: Shelf) returns (victim: Option<Digest>, rate: real)
    requires SendersExact(s.txs, s.bySender)
    ensures victim.None? <==> s.bySender == map[]
    ensures Cheapest(p, s, s.bySender.Keys, victim, rate)
  {
    victim, rate := None, 0.0;
    var left := s.bySender.Keys;
    while left != {}
      invariant left <= s.bySender.Keys && Cheapest(p, s, s.bySender.Keys - left, victim, rate)
      invariant victim.None? <==> left == s.bySender.Keys
      decreases left
    {
      var a :| a in left;
      var top := TopOf(s.bySender[a]);
      var h := s.bySender[a][top];
      CheapestNext(p, s, s.bySender.Keys - left, victim, rate, a, top);
      var r := p.rate(s.txs[h]);
      if victim.None? || r < rate {
        victim, rate := Some(h), r;
      }
      assert s.bySender.Keys - left + {a} == s.bySender.Keys - (left - {a});
      left := left - {a};
    }
    assert s.bySender.Keys - {} == s.bySender.Keys;
  }

  predicate OverBudget(p: Policy, s: Shelf, size: nat) {
    |s.txs| >= p.max || s.bytes + size > p.maxBytes
  }

  /** A transaction that may take the slot of another: it pays more, or the other cannot be mined
      now and it can. */
  predicate Replaces(src: Option<Source>, tx: Tx, other: Tx) {
    tx.fee > other.fee || (src.Some? && !src.value.mineable(other) && src.value.mineable(tx))
  }

  /** Everything that is gone made room: it was cheaper per byte, or gave up its slot. */
  ghost predicate MadeRoom(p: Policy, src: Option<Source>, tx: Tx, was: Txs, now: Txs, added: bool) {
    && (forall h :: h in now ==> (h == p.id(tx) && added) || (h in was && was[h] == now[h]))
    && (forall h :: h in was && h !in now ==>
          || p.rate(was[h]) < p.rate(tx)
          || (added && was[h].sender == tx.sender && was[h].nonce == tx.nonce && Replaces(src, tx, was[h])))
  }

  /** The run below the newcomer is queued and its own slot is free. */
  ghost predicate Awaits(src: Option<Source>, bySender: map<Address, Queue>, tx: Tx) {
    && tx.nonce !in QueueOf(bySender, tx.sender)
    && (src.Some? ==>
          && src.value.nonce(tx.sender) <= tx.nonce
          && forall k: Word :: src.value.nonce(tx.sender) <= k < tx.nonce ==> k in QueueOf(bySender, tx.sender))
  }

  lemma AwaitsStill(src: Option<Source>, bySender: map<Address, Queue>, tx: Tx, victim: Tx)
    requires Awaits(src, bySender, tx) && !(victim.sender == tx.sender && victim.nonce < tx.nonce)
    ensures Awaits(src, Cleared(bySender, victim), tx)
  {
    ClearedQueue(bySender, victim, tx.sender);
  }

  /** What holds of the pool between its operations. */
  ghost predicate Sound(p: Policy, src: Option<Source>, s: Shelf) {
    Exact(p.id, p.size, s) && (src.Some? ==> Runs(src.value, s.bySender))
  }

  /** The last transaction of its sender's run, as the transactions alone tell. */
  ghost predicate IsEnd(txs: Txs, h: Digest) {
    h in txs && forall g :: g in txs && txs[g].sender == txs[h].sender ==> txs[g].nonce <= txs[h].nonce
  }

  /** The end of a run, and no end of a run pays less per byte. */
  ghost predicate IsCheapest(p: Policy, txs: Txs, h: Digest) {
    IsEnd(txs, h) && forall g :: IsEnd(txs, g) ==> p.rate(txs[h]) <= p.rate(txs[g])
  }

  /** A cheapest end that has to give way: it pays less per byte and is no predecessor of the newcomer. */
  ghost predicate GivesWay(p: Policy, txs: Txs, tx: Tx, h: Digest) {
    IsCheapest(p, txs, h) && p.rate(txs[h]) < p.rate(tx) && !(txs[h].sender == tx.sender && txs[h].nonce < tx.nonce)
  }

  /** Over budget with the newcomer, as the transactions alone tell. */
  ghost predicate Crowded(p: Policy, txs: Txs, tx: Tx) {
    |txs| >= p.max || Sum(txs, p.size) + p.size(tx) > p.maxBytes
  }

  /** The pool was over budget when this victim's turn came, and it was a cheapest end that had to
      give way. */
  ghost predicate VictimAt(p: Policy, txs: Txs, tx: Tx, victims: seq<Digest>, i: nat) {
    i < |victims| && Crowded(p, Less(txs, victims[..i]), tx) && GivesWay(p, Less(txs, victims[..i]), tx, victims[i])
  }

  /** Evictions in turn, none without need. */
  ghost predicate EvictedFor(p: Policy, txs: Txs, tx: Tx, victims: seq<Digest>) {
    forall i :: 0 <= i < |victims| ==> VictimAt(p, txs, tx, victims, i)
  }

  /** Nothing may be evicted for the newcomer: the pool is empty, or a cheapest end does not have to
      give way. */
  ghost predicate NoRoom(p: Policy, txs: Txs, tx: Tx) {
    Crowded(p, txs, tx) && (txs == map[] || exists h :: IsCheapest(p, txs, h) && !GivesWay(p, txs, tx, h))
  }

  lemma EndIsTop(s: Shelf, h: Digest)
    requires SendersExact(s.txs, s.bySender) && h in s.txs
    ensures IsEnd(s.txs, h) <==> IsTop(s.bySender, s.txs[h])
    ensures s.txs[h].sender in s.bySender
  {
    var q := QueueOf(s.bySender, s.txs[h].sender);
    assert SlotExact(s.txs, s.bySender, s.txs[h].sender, s.txs[h].nonce);
    if IsEnd(s.txs, h) {
      forall n | n in q ensures n <= s.txs[h].nonce {
        assert SlotExact(s.txs, s.bySender, s.txs[h].sender, n);
      }
    } else {
      var g :| g in s.txs && s.txs[g].sender == s.txs[h].sender && s.txs[g].nonce > s.txs[h].nonce;
      assert SlotExact(s.txs, s.bySender, s.txs[g].sender, s.txs[g].nonce);
    }
  }

  /** The candidate found by way of the sender index is a cheapest end. */
  lemma CandidateIsCheapest(p: Policy, s: Shelf, victim: Option<Digest>, rate: real)
    requires SendersExact(s.txs, s.bySender) && Cheapest(p, s, s.bySender.Keys, victim, rate) && (victim.None? <==> s.bySender == map[])
    ensures if victim.None? then s.txs == map[] else IsCheapest(p, s.txs, victim.value) && rate == p.rate(s.txs[victim.value])
  {
    forall h | h in s.txs ensures (IsEnd(s.txs, h) <==> IsTop(s.bySender, s.txs[h])) && s.txs[h].sender in s.bySender {
      EndIsTop(s, h);
    }
  }

  lemma OneMoreVictim(p: Policy, txs: Txs, tx: Tx, victims: seq<Digest>, h: Digest)
    requires EvictedFor(p, txs, tx, victims) && Crowded(p, Less(txs, victims), tx) && GivesWay(p, Less(txs, victims), tx, h)
    ensures EvictedFor(p, txs, tx, victims + [h]) && Less(txs, victims + [h]) == Less(txs, victims) - {h}
  {
    var all := victims + [h];
    forall i | 0 <= i < |all| ensures VictimAt(p, txs, tx, all, i) {
      assert i < |victims| ==> VictimAt(p, txs, tx, victims, i);
      assert all[..i] == victims[..i];
    }
    LessMore(txs, victims, h);
  }

  lemma LessMore(txs: Txs, victims: seq<Digest>, h: Digest)
    ensures Less(txs, victims + [h]) == Less(txs, victims) - {h}
  {
  }

  /** One eviction, from the end of the cheapest run. */
  method EvictOne(pool: Pool, p: Policy, src: Option<Source>, tx: Tx) returns (victim: Option<Digest>)
    requires Sound(p, src, pool.Now()) && Awaits(src, pool.bySender, tx) && OverBudget(p, pool.Now(), p.size(tx))
    modifies pool
    ensures Sound(p, src, pool.Now()) && Awaits(src, pool.bySender, tx)
    ensures victim.None? ==> NoRoom(p, pool.txs, tx) && pool.Now() == old(pool.Now())
    ensures victim.Some? ==> GivesWay(p, old(pool.txs), tx, victim.value) && pool.txs == old(pool.txs) - {victim.value}
  {
    var candidate, rate := EvictionCandidate(p, pool.Now());
    CandidateIsCheapest(p, pool.Now(), candidate, rate);
    if candidate.None? || p.rate(tx) <= rate {
      return None;
    }
    var other := pool.txs[candidate.value];
    if other.sender == tx.sender && other.nonce < tx.nonce {
      return None;
    }
    AwaitsStill(src, pool.bySender, tx, other);
    EndIsTop(pool.Now(), candidate.value);
    if src.Some? {
      RunsLoseTop(src.value, pool.bySender, other);
    }
    pool.Delete(p, candidate.value);
    return candidate;
  }

  lemma RoomMore(p: Policy, src: Option<Source>, tx: Tx, was: Txs, now: Txs, h: Digest)
    requires MadeRoom(p, src, tx, was, now, false) && h in now && p.rate(now[h]) < p.rate(tx)
    ensures MadeRoom(p, src, tx, was, now - {h}, false) && |now - {h}| < |now|
  {
    assert (now - {h}).Keys == now.Keys - {h};
  }

  /** Room for a newcomer, taken from the ends of runs that pay less per byte, and no more than it needs. */
  method MakeRoom(pool: Pool, p: Policy, src: Option<Source>, tx: Tx) returns (ok: bool, ghost victims: seq<Digest>)
    requires Sound(p, src, pool.Now()) && Awaits(src, pool.bySender, tx)
    modifies pool
    ensures Sound(p, src, pool.Now()) && Awaits(src, pool.bySender, tx)
    ensures EvictedFor(p, old(pool.txs), tx, victims) && pool.txs == Less(old(pool.txs), victims)
    ensures victims == [] ==> pool.Now() == old(pool.Now())
    ensures MadeRoom(p, src, tx, old(pool.txs), pool.txs, false)
    ensures if ok then !OverBudget(p, pool.Now(), p.size(tx)) else NoRoom(p, pool.txs, tx)
    ensures !OverBudget(p, old(pool.Now()), p.size(tx)) ==> ok && victims == []
  {
    victims := [];
    assert Less(pool.txs, []) == pool.txs;
    while OverBudget(p, pool.Now(), p.size(tx))
      invariant Sound(p, src, pool.Now()) && Awaits(src, pool.bySender, tx)
      invariant EvictedFor(p, old(pool.txs), tx, victims) && pool.txs == Less(old(pool.txs), victims)
      invariant MadeRoom(p, src, tx, old(pool.txs), pool.txs, false)
      invariant victims == [] ==> pool.Now() == old(pool.Now())
      invariant !OverBudget(p, old(pool.Now()), p.size(tx)) ==> victims == []
      decreases |pool.txs|
    {
      ghost var before := pool.txs;
      var victim := EvictOne(pool, p, src, tx);
      if victim.None? {
        return false, victims;
      }
      OneMoreVictim(p, old(pool.txs), tx, victims, victim.value);
      RoomMore(p, src, tx, old(pool.txs), before, victim.value);
      victims := victims + [victim.value];
    }
    return true, victims;
  }

  /** The first to go was a cheapest end of the pool as it was. */
  lemma FirstVictim(p: Policy, txs: Txs, tx: Tx, victims: seq<Digest>)
    requires EvictedFor(p, txs, tx, victims) && victims != []
    ensures Crowded(p, txs, tx) && GivesWay(p, txs, tx, victims[0]) && Less(txs, victims) != txs
  {
    assert VictimAt(p, txs, tx, victims, 0);
    assert Less(txs, victims[..0]) == txs;
    assert victims[0] in txs && victims[0] !in Less(txs, victims);
  }

  /** Somebody has to give way for the newcomer, whichever cheapest end is looked at first. */
  ghost predicate MustGive(p: Policy, txs: Txs, tx: Tx) {
    MayGive(p, txs, tx) && forall h :: IsCheapest(p, txs, h) ==> GivesWay(p, txs, tx, h)
  }

  ghost predicate MayGive(p: Policy, txs: Txs, tx: Tx) {
    Crowded(p, txs, tx) && exists h :: GivesWay(p, txs, tx, h)
  }

  /** A newcomer that found no room has moved the pool only if it could, and has if it had to. */
  ghost predicate MovedAsItMust(p: Policy, was: Txs, now: Txs, tx: Tx) {
    (now != was ==> MayGive(p, was, tx)) && (MustGive(p, was, tx) ==> now != was)
  }

  lemma MovedExactly(p: Policy, was: Txs, tx: Tx, victims: seq<Digest>)
    requires EvictedFor(p, was, tx, victims) && NoRoom(p, Less(was, victims), tx)
    ensures MovedAsItMust(p, was, Less(was, victims), tx)
  {
    if victims != [] {
      FirstVictim(p, was, tx, victims);
    } else {
      assert Less(was, victims) == was;
    }
  }

  /** No two transactions pay the same per byte. */
  ghost predicate Ranked(p: Policy, txs: Txs) {
    forall g, h :: g in txs && h in txs && p.rate(txs[g]) == p.rate(txs[h]) ==> g == h
  }

  /** The evictions came to an end: there is room, or nobody is left who has to give way. */
  ghost predicate Stopped(p: Policy, txs: Txs, tx: Tx) {
    !Crowded(p, txs, tx) || NoRoom(p, txs, tx)
  }

  lemma OneCheapest(p: Policy, was: Txs, list: seq<Digest>, g: Digest, h: Digest)
    requires Ranked(p, was) && IsCheapest(p, Less(was, list), g) && IsCheapest(p, Less(was, list), h)
    ensures g == h
  {
  }

  /** Without ties in rate, who gives way does not depend on the order the senders are visited in. */
  lemma {:induction false} SameVictims(p: Policy, txs: Txs, tx: Tx, v: seq<Digest>, w: seq<Digest>, i: nat)
    requires Ranked(p, txs) && EvictedFor(p, txs, tx, v) && EvictedFor(p, txs, tx, w)
    requires Stopped(p, Less(txs, v), tx) && Stopped(p, Less(txs, w), tx)
    requires i <= |v| && i <= |w| && v[..i] == w[..i]
    ensures v == w
    decreases |v| - i
  {
    if i < |v| && i < |w| {
      NextVictim(p, txs, tx, v, w, i);
      SameVictims(p, txs, tx, v, w, i + 1);
    } else if i < |v| {
      assert w == v[..i];
      MoreVictims(p, txs, tx, v, i, w);
    } else if i < |w| {
      assert v == w[..i];
      MoreVictims(p, txs, tx, w, i, v);
    } else {
      assert v == v[..i] && w == w[..i];
    }
  }

  lemma NextVictim(p: Policy, txs: Txs, tx: Tx, v: seq<Digest>, w: seq<Digest>, i: nat)
    requires Ranked(p, txs) && EvictedFor(p, txs, tx, v) && EvictedFor(p, txs, tx, w)
    requires i < |v| && i < |w| && v[..i] == w[..i]
    ensures v[..i + 1] == w[..i + 1]
  {
    var list := v[..i];
    CheapestAfter(p, txs, tx, v, i, list);
    CheapestAfter(p, txs, tx, w, i, list);
    OneCheapest(p, txs, list, v[i], w[i]);
    SameSoFar(v, w, i);
  }

  lemma CheapestAfter(p: Policy, txs: Txs, tx: Tx, v: seq<Digest>, i: nat, list: seq<Digest>)
    requires EvictedFor(p, txs, tx, v) && i < |v| && list == v[..i]
    ensures IsCheapest(p, Less(txs, list), v[i])
  {
    assert VictimAt(p, txs, tx, v, i);
  }

  /** Where one run of evictions stopped, no other goes on. */
  lemma MoreVictims(p: Policy, txs: Txs, tx: Tx, v: seq<Digest>, i: nat, w: seq<Digest>)
    requires Ranked(p, txs) && EvictedFor(p, txs, tx, v) && i < |v| && w == v[..i]
    ensures !Stopped(p, Less(txs, w), tx)
  {
    assert VictimAt(p, txs, tx, v, i);
    forall h | IsCheapest(p, Less(txs, w), h) ensures h == v[i] {
      OneCheapest(p, txs, w, h, v[i]);
    }
  }

  /** The queued transaction whose slot a newcomer wants. */
  function SlotOf(bySender: map<Address, Queue>, tx: Tx): (slot: Option<Digest>) {
    var q := QueueOf(bySender, tx.sender);
    if tx.nonce in q then Some(q[tx.nonce]) else None
  }

  /** The newcomer's sender can pay for its whole queue, counting what the pool was paying it, and
      a sponsor for everything it promised; both as long as the totals fit 64 bits. */
  ghost predicate Affords(p: Policy, src: Source, was: Shelf, now: Txs, tx: Tx) {
    var slot := SlotOf(was.bySender, tx);
    && (NewCost(p.cost, was.txs, tx, slot) < U64_LIMIT ==>
          QueueCost(p.cost, now, tx.sender) <= FundsOf(src, was.txs, tx.sender))
    && (IsSponsored(tx) && Sum(Kept(was.txs, slot), Promised(tx.feePayer)) + tx.fee < U64_LIMIT ==>
          Sum(now, Promised(tx.feePayer)) <= src.spendable(tx.feePayer))
  }

  lemma AtMost(was: Txs, now: Txs, slot: Option<Digest>, h: Digest, tx: Tx, w: Measure)
    requires h in now && now[h] == tx && (slot.Some? ==> slot.value !in now)
    requires forall g :: g in now && g != h ==> g in was && was[g] == now[g]
    ensures Sum(now, w) <= w(tx) + Sum(Kept(was, slot), w)
  {
    SumTakes(now, w, h);
    SumShrinks(now - {h}, Kept(was, slot), w);
  }

  lemma PromiseWord(rest: nat, out: Word, fee: Word)
    requires rest + fee < U64_LIMIT
    ensures Settled((rest + out) % U64_LIMIT, out, fee) == rest + fee
  {
    WordMinus(rest, out);
  }

  lemma PromiseReads(s: Shelf, tx: Tx, slot: Option<Digest>)
    requires PromiseExact(s.txs, s.sponsored, tx.feePayer) && (slot.Some? ==> slot.value in s.txs)
    requires Sum(Kept(s.txs, slot), Promised(tx.feePayer)) + tx.fee < U64_LIMIT
    ensures NewPromise(s, tx, slot) == Sum(Kept(s.txs, slot), Promised(tx.feePayer)) + tx.fee
  {
    var rest := Sum(Kept(s.txs, slot), Promised(tx.feePayer));
    var out: Word := if slot.Some? then Promised(tx.feePayer)(s.txs[slot.value]) else 0;
    PromiseSplits(s.txs, tx.feePayer, slot);
    PromiseWord(rest, out, tx.fee);
  }

  lemma PromiseSplits(txs: Txs, payer: Address, slot: Option<Digest>)
    requires slot.Some? ==> slot.value in txs
    ensures Sum(txs, Promised(payer)) == Sum(Kept(txs, slot), Promised(payer)) + if slot.Some? then Promised(payer)(txs[slot.value]) else 0
  {
    if slot.Some? {
      SumTakes(txs, Promised(payer), slot.value);
    }
  }

  /** What is in the pool beside the newcomer was there before, and its old slot is gone. */
  ghost predicate Joined(p: Policy, was: Shelf, now: Txs, tx: Tx) {
    && p.id(tx) in now && now[p.id(tx)] == tx
    && (SlotOf(was.bySender, tx).Some? ==> SlotOf(was.bySender, tx).value !in now)
    && forall g :: g in now && g != p.id(tx) ==> g in was.txs && was.txs[g] == now[g]
  }

  lemma QueueAffordable(p: Policy, was: Shelf, now: Txs, tx: Tx, order: seq<Digest>, funds: Word)
    requires Joined(p, was, now, tx)
    requires var slot := SlotOf(was.bySender, tx);
             ListsQueue(Kept(was.txs, slot), tx.sender, order) && StepsFit(p.cost(tx), CostsOf(p.cost, was.txs, order), funds)
    ensures NewCost(p.cost, was.txs, tx, SlotOf(was.bySender, tx)) < U64_LIMIT ==> QueueCost(p.cost, now, tx.sender) <= funds
  {
    var slot := SlotOf(was.bySender, tx);
    AtMost(was.txs, now, slot, p.id(tx), tx, CostTo(p.cost, tx.sender));
    if NewCost(p.cost, was.txs, tx, slot) < U64_LIMIT {
      QueueDecided(p.cost, was.txs, tx, slot, order, funds);
    }
  }

  lemma PromiseAffordable(p: Policy, was: Shelf, now: Txs, tx: Tx, funds: Word)
    requires Exact(p.id, p.size, was) && Joined(p, was, now, tx) && NewPromise(was, tx, SlotOf(was.bySender, tx)) <= funds
    ensures Sum(Kept(was.txs, SlotOf(was.bySender, tx)), Promised(tx.feePayer)) + tx.fee < U64_LIMIT ==>
      Sum(now, Promised(tx.feePayer)) <= funds
  {
    var slot := SlotOf(was.bySender, tx);
    AtMost(was.txs, now, slot, p.id(tx), tx, Promised(tx.feePayer));
    assert PromiseExact(was.txs, was.sponsored, tx.feePayer);
    assert SlotExact(was.txs, was.bySender, tx.sender, tx.nonce);
    if Sum(Kept(was.txs, slot), Promised(tx.feePayer)) + tx.fee < U64_LIMIT {
      PromiseReads(was, tx, slot);
    }
  }

  lemma Affordable(p: Policy, src: Source, was: Shelf, now: Txs, tx: Tx, order: seq<Digest>)
    requires Exact(p.id, p.size, was) && Joined(p, was, now, tx)
    requires var slot := SlotOf(was.bySender, tx);
             ListsQueue(Kept(was.txs, slot), tx.sender, order) && Admits(p, src, was, tx, slot, order)
    ensures Affords(p, src, was, now, tx)
  {
    QueueAffordable(p, was, now, tx, order, FundsOf(src, was.txs, tx.sender));
    if IsSponsored(tx) {
      PromiseAffordable(p, was, now, tx, src.spendable(tx.feePayer));
    }
  }

  /** What nothing but its place in the pool can keep out: it may be relayed, it is signed, it is new,
      and it is no part of too large a package. */
  ghost predicate Vetted(p: Policy, src: Option<Source>, s: Shelf, tx: Tx) {
    && !IsCoinbase(tx) && p.relayable(s, tx) && p.verified(tx) && p.id(tx) !in s.txs
    && (src.Some? ==> p.packaged(s, tx))
  }

  /** What gets in when there is room, or a slot to take over; the order is that in which admission
      added up the sender's queue. */
  ghost predicate Welcome(p: Policy, src: Option<Source>, s: Shelf, tx: Tx, order: seq<Digest>) {
    var slot := SlotOf(s.bySender, tx);
    && Vetted(p, src, s, tx)
    && (src.Some? ==> ListsQueue(Kept(s.txs, slot), tx.sender, order) && Admits(p, src.value, s, tx, slot, order))
    && (slot.Some? ==> slot.value in s.txs && Replaces(src, tx, s.txs[slot.value]))
  }

  /** The pool once a newcomer got in, or did not: nothing but the slot it took over is gone, or
      nothing but those that gave way. */
  ghost predicate EnteredOr(p: Policy, was: Shelf, now: Txs, tx: Tx, added: bool, victims: seq<Digest>) {
    var slot := SlotOf(was.bySender, tx);
    && EvictedFor(p, was.txs, tx, victims) && (slot.Some? ==> victims == [])
    && now == if added then Less(Kept(was.txs, slot), victims)[p.id(tx) := tx] else Less(was.txs, victims)
  }

  /** A newcomer past admission takes over its slot, or room is made for it. */
  method Enter(pool: Pool, p: Policy, src: Option<Source>, tx: Tx) returns (out: Outcome, ghost victims: seq<Digest>)
    requires Sound(p, src, pool.Now()) && p.id(tx) !in pool.txs
    requires SlotOf(pool.bySender, tx).None? ==> Awaits(src, pool.bySender, tx)
    modifies pool
    ensures Sound(p, src, pool.Now()) && (out.Added? || out.Refused?)
    ensures EnteredOr(p, old(pool.Now()), pool.txs, tx, out.Added?, victims)
    ensures MadeRoom(p, src, tx, old(pool.txs), pool.txs, out.Added?)
    ensures out.Refused? && victims == [] ==> pool.Now() == old(pool.Now())
    ensures !OverBudget(p, old(pool.Now()), p.size(tx)) ==> victims == []
    ensures var slot := SlotOf(old(pool.bySender), tx);
            if slot.None? then out.Refused? ==> NoRoom(p, pool.txs, tx)
            else slot.value in old(pool.txs) && (out.Added? <==> Replaces(src, tx, old(pool.txs)[slot.value]))
                 && (out.Added? ==> slot.value !in pool.txs)
    ensures out.Added? && SlotOf(old(pool.bySender), tx).None? ==> WithinBudget(p, pool.Now())
  {
    var slot := SlotOf(pool.bySender, tx);
    if slot.Some? {
      out := Replace(pool, p, src, tx, slot.value);
      victims := [];
      LessNone(old(pool.txs), []);
      LessNone(Kept(old(pool.txs), slot), []);
    } else {
      var ok;
      ok, victims := MakeRoom(pool, p, src, tx);
      if !ok {
        return Refused, victims;
      }
      if src.Some? {
        RunsInserted(src.value, pool.bySender, p.id(tx), tx);
      }
      OneMoreFits(p, pool.Now(), tx);
      pool.Insert(p, p.id(tx), tx);
      return Added, victims;
    }
  }

  /** Neither the count nor the bytes exceed their budgets. */
  predicate WithinBudget(p: Policy, s: Shelf) {
    |s.txs| <= p.max && s.bytes <= p.maxBytes
  }

  lemma OneMoreFits(p: Policy, s: Shelf, tx: Tx)
    requires !OverBudget(p, s, p.size(tx)) && p.id(tx) !in s.txs
    ensures |s.txs[p.id(tx) := tx]| <= p.max && s.bytes + p.size(tx) <= p.maxBytes
  {
    assert s.txs[p.id(tx) := tx].Keys == s.txs.Keys + {p.id(tx)};
  }

  /** Adds a transaction, or says why not. */
  method Add(pool: Pool, p: Policy, src: Option<Source>, tx: Tx)
    returns (out: Outcome, ghost victims: seq<Digest>, ghost order: seq<Digest>)
    requires Sound(p, src, pool.Now())
    modifies pool
    ensures Sound(p, src, pool.Now())
    ensures EnteredOr(p, old(pool.Now()), pool.txs, tx, out.Added?, victims)
    ensures MadeRoom(p, src, tx, old(pool.txs), pool.txs, out.Added?)
    ensures out.Duplicate? ==> p.id(tx) in old(pool.txs)
    ensures out.Added? && src.Some? ==> Affords(p, src.value, old(pool.Now()), pool.txs, tx)
    ensures out.Added? && SlotOf(old(pool.bySender), tx).None? ==> WithinBudget(p, pool.Now())
    ensures src.Some? && Vetted(p, src, old(pool.Now()), tx) ==>
      ListsQueue(Kept(old(pool.txs), SlotOf(old(pool.bySender), tx)), tx.sender, order)
    ensures out.Added? ==> Welcome(p, src, old(pool.Now()), tx, order)
    ensures Welcome(p, src, old(pool.Now()), tx, order) ==>
      out.Added? || (out.Refused? && NoRoom(p, pool.txs, tx) && MovedAsItMust(p, old(pool.txs), pool.txs, tx))
    ensures !Welcome(p, src, old(pool.Now()), tx, order) || SlotOf(old(pool.bySender), tx).Some? ==> victims == []
    ensures SlotOf(old(pool.bySender), tx).Some? ==> (out.Added? <==> Welcome(p, src, old(pool.Now()), tx, order))
    ensures !OverBudget(p, old(pool.Now()), p.size(tx)) ==> victims == []
    ensures !out.Added? && victims == [] ==> pool.Now() == old(pool.Now())
  {
    victims, order := [], [];
    LessNone(pool.txs, []);
    if IsCoinbase(tx) || !p.relayable(pool.Now(), tx) {
      return Refused, [], [];
    }
    if p.id(tx) in pool.txs {
      return Duplicate, [], [];
    }
    if src.Some? {
      var ok;
      ok, order := Admissible(p, src.value, pool.Now(), tx, SlotOf(pool.bySender, tx));
      if !ok || !p.packaged(pool.Now(), tx) {
        return Refused, [], order;
      }
    }
    if !p.verified(tx) {
      return Refused, [], order;
    }
    out, victims := Enter(pool, p, src, tx);
    if out.Added? && src.Some? {
      Affordable(p, src.value, old(pool.Now()), pool.txs, tx, order);
    }
    if out.Refused? && NoRoom(p, pool.txs, tx) {
      MovedExactly(p, old(pool.txs), tx, victims);
    }
  }

  lemma RunsReplaced(src: Source, bySender: map<Address, Queue>, other: Tx, h: Digest, tx: Tx)
    requires Runs(src, bySender) && other.sender == tx.sender && other.nonce == tx.nonce && tx.nonce in QueueOf(bySender, tx.sender)
    ensures var cleared := Cleared(bySender, other);
            Runs(src, cleared[tx.sender := QueueOf(cleared, tx.sender)[tx.nonce := h]])
  {
    var cleared := Cleared(bySender, other);
    var next := cleared[tx.sender := QueueOf(cleared, tx.sender)[tx.nonce := h]];
    forall a ensures RunFrom(src.nonce(a), QueueOf(next, a)) {
      ClearedQueue(bySender, other, a);
      assert RunFrom(src.nonce(a), QueueOf(bySender, a));
      assert QueueOf(next, a).Keys == QueueOf(bySender, a).Keys;
      SameRun(src.nonce(a), QueueOf(bySender, a), QueueOf(next, a));
    }
  }

  lemma SameRun(n: Word, q: Queue, r: Queue)
    requires RunFrom(n, q) && q.Keys == r.Keys
    ensures RunFrom(n, r)
  {
    assert forall m :: m in r <==> m in q.Keys;
  }

  method Replace(pool: Pool, p: Policy, src: Option<Source>, tx: Tx, slot: Digest) returns (out: Outcome)
    requires Sound(p, src, pool.Now()) && p.id(tx) !in pool.txs
    requires tx.nonce in QueueOf(pool.bySender, tx.sender) && QueueOf(pool.bySender, tx.sender)[tx.nonce] == slot
    modifies pool
    ensures Sound(p, src, pool.Now())
    ensures out.Added? || (out.Refused? && pool.Now() == old(pool.Now()))
    ensures out.Added? ==> pool.txs == (old(pool.txs) - {slot})[p.id(tx) := tx] && slot !in pool.txs
    ensures slot in old(pool.txs) && (out.Added? <==> Replaces(src, tx, old(pool.txs)[slot]))
    ensures MadeRoom(p, src, tx, old(pool.txs), pool.txs, out.Added?)
  {
    assert SlotExact(pool.txs, pool.bySender, tx.sender, tx.nonce);
    var other := pool.txs[slot];
    if !Replaces(src, tx, other) {
      return Refused;
    }
    var h := p.id(tx);
    ghost var was := pool.bySender;
    pool.Delete(p, slot);
    ClearedQueue(was, other, tx.sender);
    if src.Some? {
      RunsReplaced(src.value, was, other, h, tx);
    }
    pool.Insert(p, h, tx);
    return Added;
  }
}
