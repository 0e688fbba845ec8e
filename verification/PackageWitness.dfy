/** Alice relies on two payments of Bob's, and Bob, for the second, on one of Carol's; the climb from Alice
    does not come to Carol. */
module PackageWitness {
  import opened Bytes
  import opened Seqs
  import opened Transactions
  import opened PoolIndexes
  import opened Graphs
  import opened Packages
  import opened PackageClimb
  import opened PackageLimits
  import PoolSelect
  import opened PoolWitness

  function First(): (tx: Tx) { Pays(BOB, ALICE, 350, 250, 0, []) }

  function Second(): (tx: Tx) { Pays(BOB, ALICE, 350, 250, 1, []) }

  function Support(): (tx: Tx) { Pays(CAROL, BOB, 500, 250, 0, []) }

  function Reliant(): (tx: Tx) { Pays(ALICE, CAROL, 450, 250, 0, []) }

  ghost predicate Apart(b: Digest, d: Digest, c: Digest) {
    b != d && d != c && b != c
  }

  ghost function Pool3(b: Digest, d: Digest, c: Digest): (s: Shelf) {
    Shelf(map[b := First(), d := Second(), c := Support()],
          map[BOB := map[0 := b, 1 := d], CAROL := map[0 := c]],
          map[], 750,
          map[ALICE := [b, d], BOB := [c]])
  }

  /** Bob has 1000 confirmed, Carol 10000 and Alice nothing. */
  ghost function View3(b: Digest, d: Digest, c: Digest): (v: View) {
    View(Pool3(b, d, c), PoolSelect.PoolCost, _ => 0, (a: Address) => if a == BOB then 1000 else if a == CAROL then 10000 else 0)
  }

  lemma Costs()
    ensures PoolSelect.PoolCost(First()) == 600 && PoolSelect.PoolCost(Second()) == 600
    ensures PoolSelect.PoolCost(Support()) == 750 && PoolSelect.PoolCost(Reliant()) == 700
  {
    CostIs(BOB, ALICE, 350, 250, 0, []);
    CostIs(BOB, ALICE, 350, 250, 1, []);
    CostIs(CAROL, BOB, 500, 250, 0, []);
    CostIs(ALICE, CAROL, 450, 250, 0, []);
  }

  lemma WhoIsPaid(a: Address)
    ensures Credits(First(), a) <==> a == ALICE
    ensures Credits(Second(), a) <==> a == ALICE
    ensures Credits(Support(), a) <==> a == BOB
  {
    assert Outputs(First()) == [Output(ALICE, 350)] && Outputs(Second()) == [Output(ALICE, 350)] && Outputs(Support()) == [Output(BOB, 500)];
    assert Output(ALICE, 350) in Outputs(First()) && Output(ALICE, 350) in Outputs(Second()) && Output(BOB, 500) in Outputs(Support());
  }

  lemma Slots3(b: Digest, d: Digest, c: Digest)
    requires Apart(b, d, c)
    ensures SendersExact(Pool3(b, d, c).txs, Pool3(b, d, c).bySender)
  {
    var s := Pool3(b, d, c);
    assert 0 in s.bySender[BOB] && 0 in s.bySender[CAROL];
  }

  lemma Indexed3(b: Digest, d: Digest, c: Digest)
    requires Apart(b, d, c)
    ensures Indexed(Pool3(b, d, c))
  {
    var s := Pool3(b, d, c);
    Slots3(b, d, c);
    forall a ensures CreditExact(s.txs, s.credited, a) {
      WhoIsPaid(a);
    }
  }

  /** The climb from either of Bob's ends at once: each costs him less than he has. */
  lemma BobAlone(b: Digest, d: Digest, c: Digest, steps: nat)
    requires Apart(b, d, c) && steps > 0
    ensures var v := View3(b, d, c);
            Up(v, First(), {b}, steps) == {b} && Up(v, Second(), {b, d}, steps) == {b, d}
  {
    var v := View3(b, d, c);
    Costs();
    assert OwnRun(v, First(), 0, {b}, 0, steps - 1) == ({b}, 0);
    assert Queued(v, BOB, 0) && SlotAt(v, BOB, 0) == b;
    assert OwnRun(v, Second(), 1, {b, d}, 0, steps - 1) == ({b, d}, 0);
    assert OwnRun(v, Second(), 0, {b, d}, 0, steps - 1) == ({b, d}, 0);
  }

  lemma ClimbEnds(b: Digest, d: Digest, c: Digest)
    requires Apart(b, d, c)
    ensures Up(View3(b, d, c), Reliant(), {}, MAX_CLIMB) == {b, d}
  {
    var v, left := View3(b, d, c), MAX_CLIMB - 1;
    Costs();
    BobAlone(b, d, c, left);
    assert OwnRun(v, Reliant(), 0, {}, 0, left) == ({}, 0);
    assert [b, d][1..] == [d] && [d][1..] == [] && {} + {b} == {b} && {b} + {d} == {b, d};
    assert PayersUp(v, [], {b, d}, left) == {b, d};
    assert PayersUp(v, [d], {b}, left) == {b, d};
    assert PayersUp(v, [b, d], {}, left) == {b, d};
  }

  lemma CarolNeeded(b: Digest, d: Digest, c: Digest)
    requires Apart(b, d, c)
    ensures c in Ancestors(View3(b, d, c), Reliant())
  {
    var v := View3(b, d, c);
    Costs();
    WhoIsPaid(ALICE);
    WhoIsPaid(BOB);
    assert Lacks(v, Reliant()) && d in Parents(v, Reliant());
    assert Queued(v, BOB, 0) && SlotAt(v, BOB, 0) == b;
    assert RunCost(v, Second(), 1) == 0;
    assert RunCost(v, Second(), 0) == 600;
    assert Lacks(v, Second()) && c in Parents(v, Second());
    UpWithin(v);
    ReachClosed(v.s.txs.Keys, UpEdges(v), Parents(v, Reliant()));
    assert d in Ancestors(v, Reliant()) && UpEdges(v)(d) <= Ancestors(v, Reliant());
  }

  /** A pool with exact indexes in which the climb misses what the newcomer relies on. */
  lemma ClimbMisses(b: Digest, d: Digest, c: Digest)
    requires Apart(b, d, c)
    ensures var v := View3(b, d, c);
            Indexed(v.s) && c in Ancestors(v, Reliant()) && c !in Up(v, Reliant(), {}, MAX_CLIMB)
  {
    Indexed3(b, d, c);
    CarolNeeded(b, d, c);
    ClimbEnds(b, d, c);
  }
}
