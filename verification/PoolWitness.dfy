/** Three pools: one evicts a transaction for a newcomer and then refuses the newcomer; one admits a
    transaction on coin the pool is only about to pay its sender, and drops it at the next clean-up; one
    takes in, and keeps, a transaction that costs more coin than there can be. */
module PoolWitness {
  import opened Bytes
  import opened Seqs
  import opened Transactions
  import opened PoolIndexes
  import opened Mempool
  import opened Admission
  import opened PoolTrim
  import opened PoolAdd
  import PoolReconcile
  import PoolSettle
  import PoolSelect

  type Hash = Tx -> Digest

  const ALICE: Address := [1]
  const BOB: Address := [2]
  const CAROL: Address := [3]

  function SizeOf(tx: Tx): (n: nat) {
    250 + |tx.memo|
  }

  /** The pool's own rate and cost, and a fee floor of one per byte. */
  function PolicyOf(id: Hash, maxBytes: int): (p: Policy) {
    Policy(
      id, SizeOf, (tx: Tx) => tx.fee as real / SizeOf(tx) as real, PoolSelect.PoolCost,
      (_, tx: Tx) => tx.fee >= SizeOf(tx), (_, _) => true, _ => true, 5000, maxBytes)
  }

  /** Nobody has spent anything yet; Bob has `bob` to spend, the others 10000. */
  function Chain(bob: Word): (src: Source) {
    Source(_ => 0, (a: Address) => if a == BOB then bob else 10000, _ => true, _ => false)
  }

  function Pays(sender: Address, recipient: Address, amount: Word, fee: Word, nonce: Word, memo: Bytes): (tx: Tx) {
    Tx(sender, recipient, amount, fee, nonce, 0, 0, memo, [], [], None, None, None, [], [])
  }

  lemma CostIs(sender: Address, recipient: Address, amount: Word, fee: Word, nonce: Word, memo: Bytes)
    requires amount + fee < U64_LIMIT
    ensures PoolSelect.PoolCost(Pays(sender, recipient, amount, fee, nonce, memo)) == amount + fee
  {
    var tx := Pays(sender, recipient, amount, fee, nonce, memo);
    assert Outputs(tx) == [Output(recipient, amount)];
    assert SumOutputs(Outputs(tx)[..0]) == 0;
  }

  /** A sender's first transaction: nothing of its own is queued yet. */
  ghost predicate IsFirst(s: Shelf, tx: Tx) {
    tx.nonce == 0 && tx.feePayer == [] && tx.sender != COINBASE && forall h :: h in s.txs ==> s.txs[h].sender != tx.sender
  }

  lemma FirstHasPlace(s: Shelf, tx: Tx)
    requires SendersExact(s.txs, s.bySender) && IsFirst(s, tx)
    ensures SlotOf(s.bySender, tx).None? && QueueOf(s.bySender, tx.sender) == map[] && Placed(0, QueueOf(s.bySender, tx.sender), tx, None)
  {
    forall n: Word ensures n !in QueueOf(s.bySender, tx.sender) {
      assert SlotExact(s.txs, s.bySender, tx.sender, n);
    }
    assert QueueOf(s.bySender, tx.sender) == map[];
  }

  lemma SomethingListed(order: seq<Digest>)
    ensures order != [] ==> exists h :: h in order
  {
    if order != [] {
      assert order[0] in order;
    }
  }

  /** A sender with one transaction in the pool. */
  ghost predicate IsOnly(txs: Txs, h: Digest) {
    h in txs && forall g :: g in txs && txs[g].sender == txs[h].sender ==> g == h
  }

  lemma OneSlot(s: Shelf, h: Digest)
    requires SendersExact(s.txs, s.bySender) && IsOnly(s.txs, h)
    ensures QueueOf(s.bySender, s.txs[h].sender) == map[s.txs[h].nonce := h]
  {
    var a, q := s.txs[h].sender, QueueOf(s.bySender, s.txs[h].sender);
    assert SlotExact(s.txs, s.bySender, a, s.txs[h].nonce);
    forall n: Word ensures n in q <==> n == s.txs[h].nonce {
      assert SlotExact(s.txs, s.bySender, a, n);
    }
  }

  lemma OneCost(cost: Tx -> Word, txs: Txs, h: Digest)
    requires IsOnly(txs, h)
    ensures QueueCost(cost, txs, txs[h].sender) == cost(txs[h])
  {
    CostTakes(cost, txs, txs[h].sender, h);
    SumNothing(txs - {h}, CostTo(cost, txs[h].sender));
  }

  lemma OneListed(txs: Txs, h: Digest, order: seq<Digest>)
    requires IsOnly(txs, h) && ListsQueue(txs, txs[h].sender, order)
    ensures order == [h]
  {
    assert h in order;
    QueueTail(txs, txs[h].sender, order);
    SomethingListed(order[1..]);
    assert order[0] in order && order == [order[0]] + order[1..];
  }

  /** Is let in if it can be paid for. */
  lemma FirstWelcome(id: Hash, maxBytes: int, bob: Word, s: Shelf, tx: Tx, order: seq<Digest>)
    requires Exact(id, SizeOf, s) && IsFirst(s, tx) && tx.fee >= SizeOf(tx) && id(tx) !in s.txs
    requires PoolSelect.PoolCost(tx) <= FundsOf(Chain(bob), s.txs, tx.sender)
    ensures Vetted(PolicyOf(id, maxBytes), Some(Chain(bob)), s, tx) && SlotOf(s.bySender, tx).None?
    ensures ListsQueue(Kept(s.txs, None), tx.sender, order) ==> Welcome(PolicyOf(id, maxBytes), Some(Chain(bob)), s, tx, order)
  {
    FirstHasPlace(s, tx);
    if ListsQueue(Kept(s.txs, None), tx.sender, order) {
      SomethingListed(order);
      assert order == [];
    }
  }

  lemma FundsAtLeast(bob: Word, txs: Txs, a: Address)
    ensures FundsOf(Chain(bob), txs, a) >= Chain(bob).spendable(a)
  {
  }

  /** A pool that holds one transaction, or two. */
  lemma SizesAddUp(txs: Txs, h: Digest, g: Digest)
    requires h in txs && g in txs && h != g
    ensures Sum(txs, SizeOf) == SizeOf(txs[h]) + SizeOf(txs[g]) + Sum(txs - {h} - {g}, SizeOf)
  {
    SumTakes(txs, SizeOf, h);
    SumTakes(txs - {h}, SizeOf, g);
  }

  /** A sender's first transaction with room for it gets in, and nobody has to go. */
  method AddFirst(id: Hash, pool: Pool, maxBytes: int, bob: Word, tx: Tx)
    requires Sound(PolicyOf(id, maxBytes), Some(Chain(bob)), pool.Now()) && IsFirst(pool.Now(), tx)
    requires tx.fee >= SizeOf(tx) && id(tx) !in pool.txs && PoolSelect.PoolCost(tx) <= FundsOf(Chain(bob), pool.txs, tx.sender)
    requires !OverBudget(PolicyOf(id, maxBytes), pool.Now(), SizeOf(tx))
    modifies pool
    ensures Sound(PolicyOf(id, maxBytes), Some(Chain(bob)), pool.Now()) && pool.txs == old(pool.txs)[id(tx) := tx]
  {
    var p, src := PolicyOf(id, maxBytes), Some(Chain(bob));
    ghost var was := pool.Now();
    var out;
    ghost var victims, order;
    out, victims, order := Add(pool, p, src, tx);
    FirstWelcome(id, maxBytes, bob, was, tx, order);
    LessNone(was.txs, []);
  }

  function Cheap(): (tx: Tx) { Pays(ALICE, CAROL, 100, 250, 0, []) }

  function Dear(): (tx: Tx) { Pays(BOB, CAROL, 100, 1250, 0, []) }

  /** Twice as large, and three per byte. */
  function Newcomer(memo: Bytes): (tx: Tx) { Pays(CAROL, ALICE, 100, 1500, 0, memo) }

  ghost function Two(id: Hash): (txs: Txs) {
    map[id(Cheap()) := Cheap(), id(Dear()) := Dear()]
  }

  ghost predicate ThreeApart(id: Hash, memo: Bytes) {
    id(Cheap()) != id(Dear()) && id(Dear()) != id(Newcomer(memo)) && id(Cheap()) != id(Newcomer(memo))
  }

  lemma Rates(id: Hash, memo: Bytes)
    requires |memo| == 250
    ensures var p := PolicyOf(id, 600); p.rate(Cheap()) == 1.0 && p.rate(Dear()) == 5.0 && p.rate(Newcomer(memo)) == 3.0
  {
  }

  /** It cannot get in: the dearer one stays, and both do not fit. */
  lemma NotAdded(id: Hash, memo: Bytes, now: Shelf)
    requires ThreeApart(id, memo)
    requires |memo| == 250 && Exact(id, SizeOf, now) && id(Newcomer(memo)) in now.txs && now.txs[id(Newcomer(memo))] == Newcomer(memo)
    requires MadeRoom(PolicyOf(id, 600), Some(Chain(10000)), Newcomer(memo), Two(id), now.txs, true)
    ensures !WithinBudget(PolicyOf(id, 600), now)
  {
    Rates(id, memo);
    assert id(Dear()) in Two(id) && Two(id)[id(Dear())] == Dear();
    assert id(Dear()) in now.txs && now.txs[id(Dear())] == Dear();
    SizesAddUp(now.txs, id(Newcomer(memo)), id(Dear()));
  }

  /** And once it was refused for want of room, the cheaper one must be gone. */
  lemma CheapGone(id: Hash, memo: Bytes, now: Txs)
    requires ThreeApart(id, memo)
    requires |memo| == 250 && MadeRoom(PolicyOf(id, 600), Some(Chain(10000)), Newcomer(memo), Two(id), now, false)
    requires NoRoom(PolicyOf(id, 600), now, Newcomer(memo))
    ensures now == map[id(Dear()) := Dear()]
  {
    Rates(id, memo);
    assert id(Dear()) in Two(id) && Two(id)[id(Dear())] == Dear() && id(Cheap()) in Two(id);
    assert id(Dear()) in now && now[id(Dear())] == Dear();
    if id(Cheap()) in now {
      CheapGivesWay(id, memo, now);
    }
    assert forall h :: h in now ==> h in Two(id);
  }

  lemma CheapGivesWay(id: Hash, memo: Bytes, now: Txs)
    requires ThreeApart(id, memo)
    requires |memo| == 250 && id(Cheap()) in now && MadeRoom(PolicyOf(id, 600), Some(Chain(10000)), Newcomer(memo), Two(id), now, false)
    ensures !NoRoom(PolicyOf(id, 600), now, Newcomer(memo))
  {
    var p, tx := PolicyOf(id, 600), Newcomer(memo);
    Rates(id, memo);
    assert forall h :: h in now ==> h in Two(id) && (now[h] == Cheap() || now[h] == Dear());
    assert IsEnd(now, id(Cheap()));
    forall h | IsCheapest(p, now, h) ensures GivesWay(p, now, tx, h) {
      assert p.rate(now[h]) <= 1.0;
    }
  }

  method TwoQueued(id: Hash) returns (pool: Pool)
    requires id(Cheap()) != id(Dear())
    ensures fresh(pool) && Sound(PolicyOf(id, 600), Some(Chain(10000)), pool.Now()) && pool.txs == Two(id)
  {
    var src := Chain(10000);
    pool := new Pool(PolicyOf(id, 600));
    assert Runs(src, pool.bySender);
    CostIs(ALICE, CAROL, 100, 250, 0, []);
    CostIs(BOB, CAROL, 100, 1250, 0, []);
    FundsAtLeast(10000, pool.txs, ALICE);
    AddFirst(id, pool, 600, 10000, Cheap());
    SumGains(map[], SizeOf, id(Cheap()), Cheap());
    FundsAtLeast(10000, pool.txs, BOB);
    AddFirst(id, pool, 600, 10000, Dear());
  }

  /** The newcomer is welcome, if only there is room. */
  lemma NewcomerWelcome(id: Hash, memo: Bytes, was: Shelf, order: seq<Digest>)
    requires ThreeApart(id, memo)
    requires |memo| == 250 && Exact(id, SizeOf, was) && was.txs == Two(id)
    ensures var p, src, tx := PolicyOf(id, 600), Some(Chain(10000)), Newcomer(memo);
            && Vetted(p, src, was, tx) && SlotOf(was.bySender, tx).None?
            && (ListsQueue(Kept(was.txs, None), CAROL, order) ==> Welcome(p, src, was, tx, order))
  {
    Rates(id, memo);
    CostIs(CAROL, ALICE, 100, 1500, 0, memo);
    FundsAtLeast(10000, was.txs, CAROL);
    FirstWelcome(id, 600, 10000, was, Newcomer(memo), order);
  }

  /** A pool for 600 bytes holds two transactions; a newcomer makes it drop the cheaper and is refused
      for the sake of the dearer. */
  method EvictsThenRefuses(id: Hash, memo: Bytes) returns (pool: Pool, out: Outcome)
    requires ThreeApart(id, memo)
    requires |memo| == 250
    ensures fresh(pool) && out.Refused? && pool.txs == map[id(Dear()) := Dear()]
  {
    var p, src, tx := PolicyOf(id, 600), Chain(10000), Newcomer(memo);
    pool := TwoQueued(id);
    ghost var was, victims, order := pool.Now(), [], [];
    out, victims, order := Add(pool, p, Some(src), tx);
    NewcomerWelcome(id, memo, was, order);
    if out.Added? {
      NotAdded(id, memo, pool.Now());
    }
    CheapGone(id, memo, pool.txs);
  }

  function Parent(): (tx: Tx) { Pays(ALICE, BOB, 1000, 250, 0, []) }

  function Child(): (tx: Tx) { Pays(BOB, CAROL, 100, 250, 0, []) }

  /** What the parent is about to pay Bob counts as Bob's. */
  lemma Lent(id: Hash, txs: Txs)
    requires txs == map[id(Parent()) := Parent()]
    ensures FundsOf(Chain(0), txs, BOB) == 1000
  {
    assert Outputs(Parent()) == [Output(BOB, 1000)];
    assert PaidBy(Outputs(Parent())[..0], BOB) == 0;
    assert PaidTo(BOB)(Parent()) == 1000 by {
      assert Output(BOB, 1000) in Outputs(Parent());
      assert BOB in Recipients(Parent());
    }
    SumTakes(txs, PaidTo(BOB), id(Parent()));
    assert txs - {id(Parent())} == map[];
  }

  /** But not when the queues are cut back. */
  lemma NotLent(id: Hash, mid: Shelf, end: nat)
    requires id(Parent()) != id(Child())
    requires Exact(id, SizeOf, mid) && mid.txs == Family(id)
    requires PoolSettle.EndsAt(PolicyOf(id, 5000), Chain(0), mid, BOB, end)
    ensures end == 0
  {
    var q := QueueOf(mid.bySender, BOB);
    FamilyMembers(id);
    assert SlotExact(mid.txs, mid.bySender, BOB, 0);
    assert q[0] == id(Child());
    CostIs(BOB, CAROL, 100, 250, 0, []);
    assert RunTotal(PoolSelect.PoolCost, mid.txs, q, 0, 0) == 0;
    assert SlotCost(PoolSelect.PoolCost, mid.txs, q, 0) == 350;
    assert RunTotal(PoolSelect.PoolCost, mid.txs, q, 0, 1) == 350;
    assert !PaidUpTo(PoolSelect.PoolCost, mid.txs, q, 0, 0, 0);
  }

  ghost function Family(id: Hash): (txs: Txs) {
    map[id(Parent()) := Parent(), id(Child()) := Child()]
  }

  /** Nothing expires and nobody sponsors, so only the senders' runs decide. */
  lemma NothingReleased(p: Policy, src: Source, was: Txs, mid: Shelf, now: Txs, gone: PoolSettle.Releases, ends: PoolSettle.Ends, a: Address)
    requires PoolSettle.Settles(p, src, was, mid, now, gone, ends) && forall h :: h in was ==> !src.expired(was[h]) && !IsSponsored(was[h])
    ensures mid.txs == was && Exact(p.id, p.size, mid) && PoolSettle.EndsAt(p, src, mid, a, PoolSettle.EndOf(src, ends, a))
    ensures PoolReconcile.Shrunk(was, now) && PoolSettle.KeepsRun(was, now, a, src.nonce(a), PoolSettle.EndOf(src, ends, a))
  {
    assert PoolSettle.Unexpired(src, was) == was;
  }

  lemma ParentStays(id: Hash, was: Shelf)
    requires id(Parent()) != id(Child())
    requires Exact(id, SizeOf, was) && was.txs == Family(id)
    ensures PoolSettle.Undisturbed(PolicyOf(id, 5000), Chain(0), was, ALICE)
  {
    CostIs(ALICE, BOB, 1000, 250, 0, []);
    OneInOrder(PolicyOf(id, 5000), Chain(0), was, id(Parent()));
  }

  lemma OneInOrder(p: Policy, src: Source, s: Shelf, h: Digest)
    requires Exact(p.id, p.size, s) && IsOnly(s.txs, h)
    requires var tx := s.txs[h]; src.nonce(tx.sender) == tx.nonce && p.cost(tx) <= src.spendable(tx.sender)
    ensures PoolSettle.InOrder(p, src, s, s.txs[h].sender)
  {
    OneSlot(s, h);
    OneCost(p.cost, s.txs, h);
  }

  lemma OneOfTwo(was: Txs, now: Txs, g: Digest, h: Digest)
    requires was.Keys == {g, h} && PoolReconcile.Shrunk(was, now) && g in now && h !in now
    ensures now == map[g := was[g]]
  {
  }

  lemma FamilyMembers(id: Hash)
    requires id(Parent()) != id(Child())
    ensures Family(id).Keys == {id(Parent()), id(Child())} && |Family(id)| == 2
    ensures Family(id)[id(Parent())] == Parent() && Family(id)[id(Child())] == Child() && id(Parent()) != id(Child())
  {
  }

  /** What the clean-up makes of the two. */
  lemma ChildGoes(id: Hash, was: Shelf, mid: Shelf, now: Txs, gone: PoolSettle.Releases, ends: PoolSettle.Ends)
    requires id(Parent()) != id(Child())
    requires Exact(id, SizeOf, was) && was.txs == Family(id)
    requires PoolSettle.Settles(PolicyOf(id, 5000), Chain(0), was.txs, mid, now, gone, ends)
    ensures now == map[id(Parent()) := Parent()]
  {
    FamilyMembers(id);
    ParentIn(id, was, mid, now, gone, ends);
    ChildOut(id, was.txs, mid, now, gone, ends);
    OneOfTwo(was.txs, now, id(Parent()), id(Child()));
  }

  lemma ParentIn(id: Hash, was: Shelf, mid: Shelf, now: Txs, gone: PoolSettle.Releases, ends: PoolSettle.Ends)
    requires id(Parent()) != id(Child()) && Exact(id, SizeOf, was) && was.txs == Family(id)
    requires PoolSettle.Settles(PolicyOf(id, 5000), Chain(0), was.txs, mid, now, gone, ends)
    ensures id(Parent()) in now
  {
    FamilyMembers(id);
    ParentStays(id, was);
    PoolSettle.UndisturbedStays(PolicyOf(id, 5000), Chain(0), was, mid, now, gone, ends, ALICE);
  }

  lemma ChildOut(id: Hash, was: Txs, mid: Shelf, now: Txs, gone: PoolSettle.Releases, ends: PoolSettle.Ends)
    requires id(Parent()) != id(Child()) && was == Family(id)
    requires PoolSettle.Settles(PolicyOf(id, 5000), Chain(0), was, mid, now, gone, ends)
    ensures PoolReconcile.Shrunk(was, now) && id(Child()) !in now
  {
    FamilyMembers(id);
    NothingReleased(PolicyOf(id, 5000), Chain(0), was, mid, now, gone, ends, BOB);
    NotLent(id, mid, PoolSettle.EndOf(Chain(0), ends, BOB));
  }

  method FamilyQueued(id: Hash) returns (pool: Pool)
    requires id(Parent()) != id(Child())
    ensures fresh(pool) && Sound(PolicyOf(id, 5000), Some(Chain(0)), pool.Now()) && pool.txs == Family(id)
  {
    pool := new Pool(PolicyOf(id, 5000));
    assert Runs(Chain(0), pool.bySender);
    CostIs(ALICE, BOB, 1000, 250, 0, []);
    CostIs(BOB, CAROL, 100, 250, 0, []);
    FundsAtLeast(0, pool.txs, ALICE);
    AddFirst(id, pool, 5000, 0, Parent());
    assert pool.txs == map[id(Parent()) := Parent()];
    Lent(id, pool.txs);
    SumGains(map[], SizeOf, id(Parent()), Parent());
    AddFirst(id, pool, 5000, 0, Child());
  }

  /** Bob has nothing, and Alice is about to pay him; his payment is taken in, and dropped by a clean-up
      of the same pool at the same tip. */
  method LentThenDropped(id: Hash) returns (pool: Pool, dropped: nat)
    requires id(Parent()) != id(Child())
    ensures fresh(pool) && dropped == 1 && pool.txs == map[id(Parent()) := Parent()]
  {
    pool := FamilyQueued(id);
    ghost var was := pool.Now();
    ghost var mid, gone, ends;
    dropped, mid, gone, ends := PoolSettle.Reconcile(pool, PolicyOf(id, 5000), Chain(0));
    ChildGoes(id, was, mid, pool.txs, gone, ends);
    FamilyMembers(id);
  }

  function Small(): (tx: Tx) { Pays(ALICE, BOB, 300, 250, 0, []) }

  /** Costs 350 less than 2^64. */
  function Vast(): (tx: Tx) { Pays(ALICE, BOB, U64_LIMIT - 600, 250, 1, []) }

  /** With what is queued before it, its cost reads as 200. */
  lemma VastAdmitted(id: Hash, was: Shelf, order: seq<Digest>)
    requires id(Small()) != id(Vast())
    requires Exact(id, SizeOf, was) && was.txs == map[id(Small()) := Small()]
    ensures var p, src := PolicyOf(id, 5000), Some(Chain(0));
            && Vetted(p, src, was, Vast()) && SlotOf(was.bySender, Vast()).None?
            && (ListsQueue(Kept(was.txs, None), ALICE, order) ==> Welcome(p, src, was, Vast(), order))
  {
    VastHasPlace(id, was);
    FundsAtLeast(0, was.txs, ALICE);
    if ListsQueue(Kept(was.txs, None), ALICE, order) {
      VastFits(id, was.txs, order);
    }
  }

  lemma VastHasPlace(id: Hash, was: Shelf)
    requires SendersExact(was.txs, was.bySender) && was.txs == map[id(Small()) := Small()]
    ensures SlotOf(was.bySender, Vast()).None? && Placed(0, QueueOf(was.bySender, ALICE), Vast(), None)
  {
    assert was.txs[id(Small())] == Small();
    OneSlot(was, id(Small()));
  }

  lemma VastFits(id: Hash, txs: Txs, order: seq<Digest>)
    requires txs == map[id(Small()) := Small()] && ListsQueue(txs, ALICE, order)
    ensures forall funds: Word :: funds >= 10000 ==>
      StepsFit(PoolSelect.PoolCost(Vast()), CostsOf(PoolSelect.PoolCost, txs, order), funds)
  {
    CostIs(ALICE, BOB, 300, 250, 0, []);
    CostIs(ALICE, BOB, U64_LIMIT - 600, 250, 1, []);
    OneListed(txs, id(Small()), order);
    var costs := CostsOf(PoolSelect.PoolCost, txs, order);
    assert costs == [550] && costs[1..] == [];
  }

  ghost function Both(id: Hash): (txs: Txs) {
    map[id(Small()) := Small(), id(Vast()) := Vast()]
  }

  method SmallQueued(id: Hash) returns (pool: Pool)
    ensures fresh(pool) && Sound(PolicyOf(id, 5000), Some(Chain(0)), pool.Now()) && pool.txs == map[id(Small()) := Small()]
  {
    pool := new Pool(PolicyOf(id, 5000));
    assert Runs(Chain(0), pool.bySender);
    CostIs(ALICE, BOB, 300, 250, 0, []);
    FundsAtLeast(0, pool.txs, ALICE);
    AddFirst(id, pool, 5000, 0, Small());
  }

  method VastQueued(id: Hash) returns (pool: Pool)
    requires id(Small()) != id(Vast())
    ensures fresh(pool) && Sound(PolicyOf(id, 5000), Some(Chain(0)), pool.Now()) && pool.txs == Both(id)
  {
    pool := SmallQueued(id);
    SumGains(map[], SizeOf, id(Small()), Small());
    ghost var was := pool.Now();
    assert was.bytes == 250;
    var out;
    ghost var victims, order;
    out, victims, order := Add(pool, PolicyOf(id, 5000), Some(Chain(0)), Vast());
    VastAdmitted(id, was, order);
    LessNone(was.txs, []);
  }

  /** The cut counts in 64 bits as well. */
  lemma VastKept(id: Hash, mid: Shelf, end: nat)
    requires id(Small()) != id(Vast())
    requires Exact(id, SizeOf, mid) && mid.txs == Both(id) && PoolSettle.EndsAt(PolicyOf(id, 5000), Chain(0), mid, ALICE, end)
    ensures end >= 2
  {
    var q, cost := QueueOf(mid.bySender, ALICE), PoolSelect.PoolCost;
    assert mid.txs[id(Small())] == Small() && mid.txs[id(Vast())] == Vast();
    assert SlotExact(mid.txs, mid.bySender, ALICE, 0) && SlotExact(mid.txs, mid.bySender, ALICE, 1);
    assert 0 in q && q[0] == id(Small()) && 1 in q && q[1] == id(Vast());
    CostIs(ALICE, BOB, 300, 250, 0, []);
    CostIs(ALICE, BOB, U64_LIMIT - 600, 250, 1, []);
    TwoPaid(cost, mid.txs, q);
  }

  lemma TwoPaid(cost: Tx -> Word, txs: Txs, q: Queue)
    requires SlotCost(cost, txs, q, 0) == 550 && SlotCost(cost, txs, q, 1) == U64_LIMIT - 350
    ensures PaidUpTo(cost, txs, q, 0, 10000, 0) && PaidUpTo(cost, txs, q, 0, 10000, 1)
  {
    assert RunTotal(cost, txs, q, 0, 0) == 0;
    assert RunTotal(cost, txs, q, 0, 1) == 550;
    assert RunTotal(cost, txs, q, 0, 2) == U64_LIMIT + 200;
  }

  lemma BothMembers(id: Hash)
    requires id(Small()) != id(Vast())
    ensures Both(id).Keys == {id(Small()), id(Vast())} && Both(id)[id(Small())] == Small() && Both(id)[id(Vast())] == Vast()
  {
  }

  lemma BothStay(id: Hash, was: Txs, mid: Shelf, now: Txs, gone: PoolSettle.Releases, ends: PoolSettle.Ends)
    requires id(Small()) != id(Vast())
    requires was == Both(id) && PoolSettle.Settles(PolicyOf(id, 5000), Chain(0), was, mid, now, gone, ends)
    ensures now == was && id(Vast()) in was && was[id(Vast())] == Vast()
  {
    BothMembers(id);
    NothingReleased(PolicyOf(id, 5000), Chain(0), was, mid, now, gone, ends, ALICE);
    VastKept(id, mid, PoolSettle.EndOf(Chain(0), ends, ALICE));
    AllStay(was, now, id(Small()), id(Vast()), PoolSettle.EndOf(Chain(0), ends, ALICE));
  }

  lemma AllStay(was: Txs, now: Txs, g: Digest, h: Digest, end: nat)
    requires was.Keys == {g, h} && was[g] == Small() && was[h] == Vast() && end >= 2
    requires PoolReconcile.Shrunk(was, now) && PoolSettle.KeepsRun(was, now, ALICE, 0, end)
    ensures now == was
  {
  }

  /** Alice has 10000 to spend and queues a payment of 300; then one of nearly 2^64 gets in behind it,
      and a clean-up leaves it there, though nobody can ever pay for it. */
  method VastStays(id: Hash) returns (pool: Pool, dropped: nat)
    requires id(Small()) != id(Vast())
    ensures fresh(pool) && dropped == 0 && id(Vast()) in pool.txs && pool.txs[id(Vast())] == Vast()
    ensures PoolSelect.PoolCost(Vast()) > Chain(0).spendable(ALICE)
  {
    CostIs(ALICE, BOB, U64_LIMIT - 600, 250, 1, []);
    pool := VastQueued(id);
    ghost var was := pool.Now();
    ghost var mid, gone, ends;
    dropped, mid, gone, ends := PoolSettle.Reconcile(pool, PolicyOf(id, 5000), Chain(0));
    BothStay(id, was.txs, mid, pool.txs, gone, ends);
  }
}
