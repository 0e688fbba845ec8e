/** What the rules of admission come to, in terms of the transactions alone. */
module PoolLaws {
  import opened Bytes
  import opened Seqs
  import opened Transactions
  import opened PoolIndexes
  import opened Mempool
  import opened Admission
  import opened PoolAdd
  import opened PackageLimits

  /** Two transactions can take one slot from each other again and again exactly when one is fit for the
      next block and the other, which is not, pays more. */
  lemma TakenBack(src: Source, x: Tx, y: Tx)
    ensures Replaces(Some(src), x, y) && Replaces(Some(src), y, x) <==>
      (src.mineable(x) && !src.mineable(y) && y.fee > x.fee) || (src.mineable(y) && !src.mineable(x) && x.fee > y.fee)
  {
  }

  /** Where the newcomer fits both budgets, it gets in as soon as it is welcome, and nobody has to go. */
  lemma RoomIsUsed(p: Policy, was: Shelf, now: Txs, tx: Tx, added: bool, victims: seq<Digest>)
    requires EnteredOr(p, was, now, tx, added, victims) && (added || NoRoom(p, now, tx))
    requires |was.txs| + 1 <= p.max && Sum(was.txs, p.size) + p.size(tx) <= p.maxBytes
    ensures added && victims == []
  {
    if victims != [] {
      FirstVictim(p, was.txs, tx, victims);
      assert false;
    }
    LessNone(was.txs, victims);
  }

  /** What admission lets a sender spend: all it has confirmed and all the pool pays it, up to the last word. */
  lemma FundsAre(src: Source, txs: Txs, a: Address)
    ensures var all := src.spendable(a) + Sum(txs, PaidTo(a)); FundsOf(src, txs, a) == if all < U64_LIMIT then all else U64_LIMIT - 1
  {
    WordNext(src.spendable(a), Saturated(Sum(txs, PaidTo(a))));
  }

  lemma QueueCounts(s: Shelf, a: Address)
    requires SendersExact(s.txs, s.bySender)
    ensures |QueuedBy(s.txs, a)| == |QueueOf(s.bySender, a)|
  {
    Counted(s, a, QueueOf(s.bySender, a).Keys);
    forall h | h in QueuedBy(s.txs, a) ensures h in Slots(s, a, QueueOf(s.bySender, a).Keys) {
      assert SlotExact(s.txs, s.bySender, a, s.txs[h].nonce);
    }
    forall n | n in QueueOf(s.bySender, a) ensures QueueOf(s.bySender, a)[n] in QueuedBy(s.txs, a) {
      assert SlotExact(s.txs, s.bySender, a, n);
    }
    assert QueuedBy(s.txs, a) == Slots(s, a, QueueOf(s.bySender, a).Keys);
  }

  ghost function Slots(s: Shelf, a: Address, ns: set<Word>): (ds: set<Digest>)
    requires ns <= QueueOf(s.bySender, a).Keys
  {
    set n | n in ns :: QueueOf(s.bySender, a)[n]
  }

  lemma {:induction false} Counted(s: Shelf, a: Address, ns: set<Word>)
    requires SendersExact(s.txs, s.bySender) && ns <= QueueOf(s.bySender, a).Keys
    ensures |Slots(s, a, ns)| == |ns|
    decreases |ns|
  {
    if ns != {} {
      var n :| n in ns;
      Counted(s, a, ns - {n});
      var h := QueueOf(s.bySender, a)[n];
      assert SlotExact(s.txs, s.bySender, a, n);
      forall m | m in ns && QueueOf(s.bySender, a)[m] == h ensures m == n {
        assert SlotExact(s.txs, s.bySender, a, m);
      }
      assert Slots(s, a, ns) == Slots(s, a, ns - {n}) + {h};
    }
  }

  /** Nobody has more than the limit queued. */
  ghost predicate Capped(txs: Txs) {
    forall a :: |QueuedBy(txs, a)| <= 64
  }

  /** Which adding to the pool keeps, whatever the outcome. */
  lemma StaysCapped(p: Policy, src: Source, was: Shelf, now: Txs, tx: Tx, added: bool, victims: seq<Digest>, order: seq<Digest>)
    requires Exact(p.id, p.size, was) && Capped(was.txs) && EnteredOr(p, was, now, tx, added, victims)
    requires added ==> Welcome(p, Some(src), was, tx, order)
    ensures Capped(now)
  {
    forall a ensures |QueuedBy(now, a)| <= 64 {
      AccountCapped(p, src, was, now, tx, added, victims, order, a);
    }
  }

  lemma AccountCapped(p: Policy, src: Source, was: Shelf, now: Txs, tx: Tx, added: bool, victims: seq<Digest>, order: seq<Digest>, a: Address)
    requires Exact(p.id, p.size, was) && Capped(was.txs) && EnteredOr(p, was, now, tx, added, victims)
    requires added ==> Welcome(p, Some(src), was, tx, order)
    ensures |QueuedBy(now, a)| <= 64
  {
    var slot, mine := SlotOf(was.bySender, tx), QueuedBy(was.txs, a);
    assert |mine| <= 64;
    if !added || a != tx.sender {
      SubsetSmaller(QueuedBy(now, a), mine);
    } else if slot.None? {
      QueueCounts(was, a);
      OneMoreQueued(mine, QueuedBy(now, a), p.id(tx));
    } else {
      SlotTaken(was, now, tx, slot.value, victims, p.id(tx));
    }
  }

  lemma OneMoreQueued(mine: set<Digest>, now: set<Digest>, h: Digest)
    requires now <= mine + {h}
    ensures |now| <= |mine| + 1
  {
    SubsetSmaller(now, mine + {h});
  }

  lemma SlotTaken(was: Shelf, now: Txs, tx: Tx, slot: Digest, victims: seq<Digest>, h: Digest)
    requires SendersExact(was.txs, was.bySender) && SlotOf(was.bySender, tx) == Some(slot)
    requires now == Less(was.txs - {slot}, victims)[h := tx]
    ensures |QueuedBy(now, tx.sender)| <= |QueuedBy(was.txs, tx.sender)|
  {
    var mine := QueuedBy(was.txs, tx.sender);
    assert SlotExact(was.txs, was.bySender, tx.sender, tx.nonce);
    OneMoreQueued(mine - {slot}, QueuedBy(now, tx.sender), h);
  }
}
