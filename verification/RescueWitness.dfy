/** A payment fit for the next block takes a slot from one that is not, and the other takes it back. */
module RescueWitness {
  import opened Bytes
  import opened Seqs
  import opened Transactions
  import opened PoolIndexes
  import opened Mempool
  import opened Admission
  import opened PoolAdd
  import PoolLaws
  import PoolSelect
  import opened PoolWitness

  /** Cannot be mined yet, and pays more. */
  function Parked(): (tx: Tx) { Pays(ALICE, BOB, 100, 1250, 0, []) }

  function Rescue(): (tx: Tx) { Pays(ALICE, CAROL, 100, 250, 0, []) }

  function Waiting(): (src: Source) {
    Source(_ => 0, _ => 10000, (tx: Tx) => tx.recipient != BOB, _ => false)
  }

  /** With one of the two in the pool, or neither, the other is welcome. */
  lemma OtherWelcome(id: Hash, was: Shelf, held: Tx, tx: Tx, order: seq<Digest>)
    requires id(Parked()) != id(Rescue()) && Exact(id, SizeOf, was)
    requires (held == Parked() && tx == Rescue()) || (held == Rescue() && tx == Parked())
    requires was.txs == map[id(held) := held]
    ensures SlotOf(was.bySender, tx) == Some(id(held)) && Vetted(PolicyOf(id, 5000), Some(Waiting()), was, tx)
    ensures ListsQueue(Kept(was.txs, Some(id(held))), ALICE, order) ==> Welcome(PolicyOf(id, 5000), Some(Waiting()), was, tx, order)
  {
    assert was.txs[id(held)] == held;
    OneSlot(was, id(held));
    CostIs(ALICE, BOB, 100, 1250, 0, []);
    CostIs(ALICE, CAROL, 100, 250, 0, []);
    if ListsQueue(Kept(was.txs, Some(id(held))), ALICE, order) {
      SomethingListed(order);
      assert order == [];
    }
  }

  method Swap(id: Hash, pool: Pool, held: Tx, tx: Tx)
    requires id(Parked()) != id(Rescue()) && Sound(PolicyOf(id, 5000), Some(Waiting()), pool.Now())
    requires (held == Parked() && tx == Rescue()) || (held == Rescue() && tx == Parked())
    requires pool.txs == map[id(held) := held]
    modifies pool
    ensures Sound(PolicyOf(id, 5000), Some(Waiting()), pool.Now()) && pool.txs == map[id(tx) := tx]
  {
    ghost var was := pool.Now();
    var out;
    ghost var victims, order;
    out, victims, order := Add(pool, PolicyOf(id, 5000), Some(Waiting()), tx);
    OtherWelcome(id, was, held, tx, order);
    LessNone(Kept(was.txs, Some(id(held))), []);
  }

  /** The first one in. */
  lemma ParkedWelcome(id: Hash, was: Shelf, order: seq<Digest>)
    requires Exact(id, SizeOf, was) && was.txs == map[]
    ensures SlotOf(was.bySender, Parked()).None? && Vetted(PolicyOf(id, 5000), Some(Waiting()), was, Parked())
    ensures ListsQueue(Kept(was.txs, None), ALICE, order) ==> Welcome(PolicyOf(id, 5000), Some(Waiting()), was, Parked(), order)
  {
    FirstHasPlace(was, Parked());
    CostIs(ALICE, BOB, 100, 1250, 0, []);
    if ListsQueue(Kept(was.txs, None), ALICE, order) {
      SomethingListed(order);
      assert order == [];
    }
  }

  /** The rescue is in the pool only until the parked payment is sent again. */
  method RescueUndone(id: Hash) returns (pool: Pool)
    requires id(Parked()) != id(Rescue())
    ensures fresh(pool) && pool.txs == map[id(Parked()) := Parked()]
    ensures Waiting().mineable(Rescue()) && !Waiting().mineable(Parked())
  {
    pool := new Pool(PolicyOf(id, 5000));
    assert Runs(Waiting(), pool.bySender);
    ghost var was := pool.Now();
    var out;
    ghost var victims, order;
    out, victims, order := Add(pool, PolicyOf(id, 5000), Some(Waiting()), Parked());
    ParkedWelcome(id, was, order);
    PoolLaws.RoomIsUsed(PolicyOf(id, 5000), was, pool.txs, Parked(), out.Added?, victims);
    LessNone(was.txs, []);
    assert pool.txs == map[id(Parked()) := Parked()];
    Swap(id, pool, Parked(), Rescue());
    Swap(id, pool, Rescue(), Parked());
  }
}
