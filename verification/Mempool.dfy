/** The pool of pending transactions: admission, replacement, eviction, and clean-up after the
    chain moves. */
module Mempool {
  import opened Bytes
  import opened Transactions
  import opened PoolIndexes

  const MAX_PER_SENDER := 64
  const LAST_WORD: Word := U64_LIMIT - 1

  /** What admission takes as given.  `relayable` stands for sanity, the size cap and the relay fee
      floor, `packaged` for the limits on ancestors and descendants, `verified` for the signature. */
  datatype Policy = Policy(
    id: Tx -> Digest,
    size: Measure,
    rate: Tx -> real,
    cost: Tx -> Word,
    relayable: (Shelf, Tx) -> bool,
    packaged: (Shelf, Tx) -> bool,
    verified: Tx -> bool,
    max: int,
    maxBytes: int)

  /** The confirmed chain as the pool sees it. */
  datatype Source = Source(nonce: Address -> Word, spendable: Address -> Word, mineable: Tx -> bool, expired: Tx -> bool)

  /** A queue without gaps, starting at the confirmed nonce. */
  ghost predicate RunFrom(n: Word, q: Queue) {
    && (forall m :: m in q ==> n <= m)
    && (forall m, k: Word :: m in q && n <= k <= m ==> k in q)
  }

  ghost predicate Runs(src: Source, bySender: map<Address, Queue>) {
    forall a :: RunFrom(src.nonce(a), QueueOf(bySender, a))
  }

  /** The last transaction of its sender's run. */
  ghost predicate IsTop(bySender: map<Address, Queue>, tx: Tx) {
    forall n :: n in QueueOf(bySender, tx.sender) ==> n <= tx.nonce
  }

  lemma RunGrows(n: Word, q: Queue, m: Word, h: Digest)
    requires RunFrom(n, q) && n <= m && forall k: Word :: n <= k < m ==> k in q
    ensures RunFrom(n, q[m := h])
  {
  }

  lemma RunLosesTop(n: Word, q: Queue, m: Word)
    requires RunFrom(n, q) && forall k :: k in q ==> k <= m
    ensures RunFrom(n, q - {m})
  {
  }

  lemma RunsInserted(src: Source, bySender: map<Address, Queue>, h: Digest, tx: Tx)
    requires Runs(src, bySender) && src.nonce(tx.sender) <= tx.nonce
    requires forall k: Word :: src.nonce(tx.sender) <= k < tx.nonce ==> k in QueueOf(bySender, tx.sender)
    ensures Runs(src, bySender[tx.sender := QueueOf(bySender, tx.sender)[tx.nonce := h]])
  {
    var next := bySender[tx.sender := QueueOf(bySender, tx.sender)[tx.nonce := h]];
    forall a ensures RunFrom(src.nonce(a), QueueOf(next, a)) {
      assert RunFrom(src.nonce(a), QueueOf(bySender, a));
      if a == tx.sender {
        RunGrows(src.nonce(a), QueueOf(bySender, a), tx.nonce, h);
      }
    }
  }

  lemma RunsLoseTop(src: Source, bySender: map<Address, Queue>, tx: Tx)
    requires Runs(src, bySender) && IsTop(bySender, tx)
    ensures Runs(src, Cleared(bySender, tx))
  {
    forall a ensures RunFrom(src.nonce(a), QueueOf(Cleared(bySender, tx), a)) {
      ClearedQueue(bySender, tx, a);
      assert RunFrom(src.nonce(a), QueueOf(bySender, a));
      if a == tx.sender {
        RunLosesTop(src.nonce(a), QueueOf(bySender, a), tx.nonce);
      }
    }
  }

  datatype Outcome = Added | Duplicate | Refused

  class Pool {
    var txs: Txs
    var bySender: map<Address, Queue>
    var sponsored: map<Address, Word>
    var bytes: int
    var credited: map<Address, seq<Digest>>

    function Now(): (s: Shelf)
      reads this
    {
      Shelf(txs, bySender, sponsored, bytes, credited)
    }

    constructor (p: Policy)
      ensures Now() == Shelf(map[], map[], map[], 0, map[])
      ensures Exact(p.id, p.size, Now())
    {
      txs, bySender, sponsored, bytes, credited := map[], map[], map[], 0, map[];
    }

    /** Stores a transaction in a free slot and indexes it. */
    method Insert(p: Policy, h: Digest, tx: Tx)
      requires Exact(p.id, p.size, Now()) && h == p.id(tx) && h !in txs && tx.nonce !in QueueOf(bySender, tx.sender)
      modifies this
      ensures Exact(p.id, p.size, Now()) && txs == old(txs)[h := tx] && bytes == old(bytes) + p.size(tx)
      ensures bySender == old(bySender)[tx.sender := QueueOf(old(bySender), tx.sender)[tx.nonce := h]]
    {
      var was := Now();
      txs := txs[h := tx];
      bySender := bySender[tx.sender := QueueOf(bySender, tx.sender)[tx.nonce := h]];
      bytes := bytes + p.size(tx);
      sponsored := Raised(sponsored, tx);
      var lists := IndexCredits(credited, h, tx);
      credited := lists;
      InsertExact(p, was, h, tx, lists);
    }

    /** Removes a transaction, if it is there, from every index. */
    method Delete(p: Policy, h: Digest)
      requires Exact(p.id, p.size, Now())
      modifies this
      ensures Exact(p.id, p.size, Now()) && txs == old(txs) - {h}
      ensures bySender == if h in old(txs) then Cleared(old(bySender), old(txs)[h]) else old(bySender)
    {
      if h !in txs {
        assert txs - {h} == txs;
        return;
      }
      var was, tx := Now(), txs[h];
      txs := txs - {h};
      var lists := UnindexCredits(credited, h, tx);
      credited := lists;
      bytes := bytes - p.size(tx);
      if bytes < 0 {
        bytes := 0;
      }
      sponsored := Lowered(sponsored, tx);
      SlotDeleted(was.txs, was.bySender, h);
      bySender := Cleared(bySender, tx);
      DeleteExact(p, was, h, lists);
    }
  }

  lemma InsertExact(p: Policy, was: Shelf, h: Digest, tx: Tx, lists: map<Address, seq<Digest>>)
    requires Exact(p.id, p.size, was) && h == p.id(tx) && h !in was.txs && tx.nonce !in QueueOf(was.bySender, tx.sender)
    requires forall a :: CreditPlaced(was.credited, lists, h, Credited(tx), a)
    ensures Exact(p.id, p.size, Shelf(was.txs[h := tx], was.bySender[tx.sender := QueueOf(was.bySender, tx.sender)[tx.nonce := h]],
                                      Raised(was.sponsored, tx), was.bytes + p.size(tx), lists))
  {
    SlotInserted(was.txs, was.bySender, h, tx);
    SumGains(was.txs, p.size, h, tx);
    var more, raised := was.txs[h := tx], Raised(was.sponsored, tx);
    forall payer ensures PromiseExact(more, raised, payer) {
      assert PromiseExact(was.txs, was.sponsored, payer);
      PromiseInserted(was.txs, was.sponsored, h, tx, payer);
    }
    forall a ensures CreditExact(more, lists, a) {
      assert CreditExact(was.txs, was.credited, a) && CreditPlaced(was.credited, lists, h, Credited(tx), a);
      CreditInserted(was.txs, was.credited, lists, h, tx, a);
    }
  }

  lemma DeleteExact(p: Policy, was: Shelf, h: Digest, lists: map<Address, seq<Digest>>)
    requires Exact(p.id, p.size, was) && h in was.txs
    requires forall a :: CreditRemoved(was.credited, lists, h, Uncredited(was.txs[h]), a)
    ensures was.bytes - p.size(was.txs[h]) >= 0
    ensures Exact(p.id, p.size, Shelf(was.txs - {h}, Cleared(was.bySender, was.txs[h]), Lowered(was.sponsored, was.txs[h]),
                                      was.bytes - p.size(was.txs[h]), lists))
  {
    var tx := was.txs[h];
    SlotDeleted(was.txs, was.bySender, h);
    SumTakes(was.txs, p.size, h);
    var less, lowered := was.txs - {h}, Lowered(was.sponsored, tx);
    forall payer ensures PromiseExact(less, lowered, payer) {
      assert PromiseExact(was.txs, was.sponsored, payer);
      PromiseDeleted(was.txs, was.sponsored, h, payer);
    }
    forall a ensures CreditExact(less, lists, a) {
      assert CreditExact(was.txs, was.credited, a) && CreditRemoved(was.credited, lists, h, Uncredited(tx), a);
      CreditDeleted(was.txs, was.credited, lists, h, a);
    }
  }
}
