/** Transactions that rely on others still in the pool: what depends on a transaction, and the rate
    it is judged by together with what rides on it. */
module Packages {
  import opened Bytes
  import opened Seqs
  import opened Transactions
  import opened PoolIndexes
  import opened Admission
  import opened Graphs

  /** The walk down the pool goes no further than this many steps. */
  const MAX_DEPTH := 26
  const MAX_DESCENDANTS := 25

  /** What the walks look at: the pool, and the confirmed chain. */
  datatype View = View(s: Shelf, cost: Tx -> Word, nonce: Address -> Word, spendable: Address -> Word)

  /** The account's queue costs more than it has confirmed, as counted in 64 bits. */
  ghost predicate Needy(v: View, a: Address) {
    QueueCost(v.cost, v.s.txs, a) % U64_LIMIT > v.spendable(a)
  }

  /** What relies on a transaction directly: all that a needy account it pays has queued. */
  ghost function Heirs(v: View, tx: Tx): (ds: set<Digest>) {
    set d | d in v.s.txs && Credits(tx, v.s.txs[d].sender) && Needy(v, v.s.txs[d].sender)
  }

  ghost function Down(v: View): (next: Edges) {
    (d: Digest) => if d in v.s.txs then Heirs(v, v.s.txs[d]) else {}
  }

  /** What relies on a transaction, directly or through others. */
  ghost function Dependents(v: View, tx: Tx): (ds: set<Digest>) {
    Reach(v.s.txs.Keys, Down(v), Heirs(v, tx))
  }

  /** It is the least set that holds what relies on the transaction and on any member. */
  lemma DependentsLeast(v: View, tx: Tx, ds: set<Digest>)
    ensures Heirs(v, tx) <= Dependents(v, tx) && Closed(Down(v), Dependents(v, tx))
    ensures Heirs(v, tx) <= ds && Closed(Down(v), ds) ==> Dependents(v, tx) <= ds
  {
    ReachClosed(v.s.txs.Keys, Down(v), Heirs(v, tx));
    if Heirs(v, tx) <= ds && Closed(Down(v), ds) {
      ReachLeast(v.s.txs.Keys, Down(v), Heirs(v, tx), ds);
    }
  }

  /** What an account has queued depends on a transaction that pays it, unless the account can pay for its
      whole queue without; and it depends on it directly only where the account cannot. */
  lemma PaysWithout(v: View, tx: Tx, d: Digest)
    requires d in v.s.txs && Credits(tx, v.s.txs[d].sender) && QueueCost(v.cost, v.s.txs, v.s.txs[d].sender) < U64_LIMIT
    ensures d !in Dependents(v, tx) ==> QueueCost(v.cost, v.s.txs, v.s.txs[d].sender) <= v.spendable(v.s.txs[d].sender)
    ensures d in Heirs(v, tx) ==> QueueCost(v.cost, v.s.txs, v.s.txs[d].sender) > v.spendable(v.s.txs[d].sender)
  {
    NeedyIs(v, v.s.txs[d].sender);
    ReachClosed(v.s.txs.Keys, Down(v), Heirs(v, tx));
  }

  lemma NeedyIs(v: View, a: Address)
    requires QueueCost(v.cost, v.s.txs, a) < U64_LIMIT
    ensures Needy(v, a) <==> QueueCost(v.cost, v.s.txs, a) > v.spendable(a)
  {
  }

  lemma HeirDepends(v: View, tx: Tx, h: Digest)
    requires h in Heirs(v, tx)
    ensures h in v.s.txs && h in Dependents(v, tx) && Dependents(v, v.s.txs[h]) <= Dependents(v, tx) && Down(v)(h) == Heirs(v, v.s.txs[h])
  {
    ReachClosed(v.s.txs.Keys, Down(v), Heirs(v, tx));
    ReachFurther(v.s.txs.Keys, Down(v), Heirs(v, tx), h);
  }

  lemma NextWord(total: Word, c: Word, rest: nat, all: nat)
    requires (total + (c + rest)) % U64_LIMIT == all % U64_LIMIT
    ensures ((total + c) % U64_LIMIT + rest) % U64_LIMIT == all % U64_LIMIT
  {
    WordPlus(total + c, rest);
  }

  /** Whether an account needs the coin the pool is paying it. */
  method IsNeedy(v: View, a: Address, queue: seq<Digest>) returns (needy: bool)
    requires ListsQueue(v.s.txs, a, queue)
    ensures needy <==> Needy(v, a)
  {
    var total: Word := 0;
    ghost var costs := CostsOf(v.cost, v.s.txs, queue);
    for i := 0 to |queue|
      invariant (total + SumOf(costs[i..])) % U64_LIMIT == SumOf(costs) % U64_LIMIT
    {
      assert queue[i] in queue && costs[i..][1..] == costs[i + 1..];
      NextWord(total, costs[i], SumOf(costs[i + 1..]), SumOf(costs));
      total := (total + v.cost(v.s.txs[queue[i]])) % U64_LIMIT;
    }
    CostsAddUp(v.cost, v.s.txs, a, queue);
    return total > v.spendable(a);
  }

  /** The heirs one account the transaction pays has queued. */
  ghost function HeirsOf(v: View, tx: Tx, a: Address): (ds: set<Digest>) {
    set d | d in Heirs(v, tx) && v.s.txs[d].sender == a
  }

  ghost predicate WalkedDown(v: View, tx: Tx, out: set<Digest>, now: set<Digest>, depth: nat, cut: bool)
    requires depth <= MAX_DEPTH + 1
  {
    Walked(Dependents(v, tx), Down(v), out, now, MAX_DEPTH + 1 - depth, cut)
  }

  lemma QueueIsHeirs(v: View, tx: Tx, a: Address, queue: seq<Digest>)
    requires ListsQueue(v.s.txs, a, queue) && Needy(v, a) && Credits(tx, a)
    ensures forall i :: 0 <= i < |queue| ==> queue[i] in Heirs(v, tx)
    ensures forall d :: d in HeirsOf(v, tx, a) ==> d in queue
  {
    forall i | 0 <= i < |queue| ensures queue[i] in Heirs(v, tx) {
      assert queue[i] in queue;
    }
  }

  lemma WalkedFurther(v: View, tx: Tx, h: Digest, out: set<Digest>, now: set<Digest>, depth: nat, cut: bool, so: set<Digest>, short: bool)
    requires depth <= MAX_DEPTH && WalkedDown(v, tx, out, now, depth, cut) && h in Heirs(v, tx) && h !in now
    requires WalkedDown(v, v.s.txs[h], now + {h}, so, depth + 1, short) && (short || Heirs(v, v.s.txs[h]) <= so)
    ensures WalkedDown(v, tx, out, so, depth, cut || short) && now <= so && h in so
  {
    HeirDepends(v, tx, h);
    WalkedMore(Dependents(v, tx), Dependents(v, v.s.txs[h]), Down(v), out, now, cut, h, so, MAX_DEPTH - depth, short);
  }

  /** One more that relies on the transaction, and what relies on that. */
  method WalkFrom(v: View, tx: Tx, h: Digest, out: set<Digest>, now: set<Digest>, depth: nat, ghost was: bool)
    returns (so: set<Digest>, ghost cut: bool)
    requires SendersExact(v.s.txs, v.s.bySender) && depth <= MAX_DEPTH && h in Heirs(v, tx) && h !in now
    requires WalkedDown(v, tx, out, now, depth, was)
    ensures WalkedDown(v, tx, out, so, depth, cut) && now <= so && h in so && (was ==> cut)
    decreases MAX_DEPTH + 1 - depth, 0
  {
    ghost var short;
    so, short := Walk(v, v.s.txs[h], now + {h}, depth + 1);
    WalkedFurther(v, tx, h, out, now, depth, was, so, short);
    cut := was || short;
  }

  /** One account's queue: nothing of it relies on the transaction, or all of it does. */
  method WalkQueue(v: View, tx: Tx, a: Address, out: set<Digest>, now: set<Digest>, depth: nat, ghost was: bool)
    returns (so: set<Digest>, ghost cut: bool)
    requires SendersExact(v.s.txs, v.s.bySender) && depth <= MAX_DEPTH && Credits(tx, a) && WalkedDown(v, tx, out, now, depth, was)
    ensures WalkedDown(v, tx, out, so, depth, cut) && now <= so && (was ==> cut)
    ensures cut || HeirsOf(v, tx, a) <= so
    decreases MAX_DEPTH + 1 - depth, 1
  {
    so, cut := now, was;
    var queue := Others(v.s, a, None);
    var needy := IsNeedy(v, a, queue);
    if !needy {
      return;
    }
    QueueIsHeirs(v, tx, a, queue);
    for i := 0 to |queue|
      invariant WalkedDown(v, tx, out, so, depth, cut) && now <= so && (was ==> cut)
      invariant forall j :: 0 <= j < i ==> queue[j] in so
    {
      if queue[i] !in so {
        so, cut := WalkFrom(v, tx, queue[i], out, so, depth, cut);
      }
    }
  }

  /** The walk down from a transaction; it does not go on below the last step allowed. */
  method Walk(v: View, tx: Tx, out: set<Digest>, depth: nat) returns (now: set<Digest>, ghost cut: bool)
    requires SendersExact(v.s.txs, v.s.bySender) && depth <= MAX_DEPTH + 1
    ensures WalkedDown(v, tx, out, now, depth, cut)
    ensures cut || Heirs(v, tx) <= now
    decreases MAX_DEPTH + 1 - depth
  {
    if depth > MAX_DEPTH {
      return out, true;
    }
    now, cut := out, false;
    var payees := Credited(tx);
    var left := payees;
    while left != {}
      invariant left <= payees && WalkedDown(v, tx, out, now, depth, cut)
      invariant cut || forall a :: a in payees && a !in left ==> HeirsOf(v, tx, a) <= now
      decreases left
    {
      var a :| a in left;
      now, cut := WalkQueue(v, tx, a, out, now, depth, cut);
      left := left - {a};
    }
    if !cut {
      HeirsByAccount(v, tx, now);
    }
  }

  lemma HeirsByAccount(v: View, tx: Tx, now: set<Digest>)
    requires forall a :: a in Credited(tx) ==> HeirsOf(v, tx, a) <= now
    ensures Heirs(v, tx) <= now
  {
    forall d | d in Heirs(v, tx) ensures d in now {
      assert d in HeirsOf(v, tx, v.s.txs[d].sender);
    }
  }

  /** What was found is all that depends on the transaction, or at least as much as the walk has steps. */
  ghost predicate Found(v: View, h: Digest, ds: set<Digest>)
    requires h in v.s.txs
  {
    var all := Dependents(v, v.s.txs[h]) - {h};
    ds <= all && (ds == all || |ds| >= MAX_DEPTH)
  }

  lemma WalkFinds(v: View, h: Digest, all: set<Digest>, cut: bool)
    requires h in v.s.txs && WalkedDown(v, v.s.txs[h], {}, all, 0, cut) && (cut || Heirs(v, v.s.txs[h]) <= all)
    ensures Found(v, h, all - {h})
  {
    if !cut {
      DependentsLeast(v, v.s.txs[h], all);
    }
  }

  method Descendants(v: View, h: Digest) returns (ds: set<Digest>)
    requires SendersExact(v.s.txs, v.s.bySender)
    ensures if h in v.s.txs then Found(v, h, ds) else ds == {}
  {
    if h !in v.s.txs {
      return {};
    }
    var all;
    ghost var cut;
    all, cut := Walk(v, v.s.txs[h], {}, 0);
    WalkFinds(v, h, all, cut);
    return all - {h};
  }

  /** So cutting the walk short never changes what the limit decides. */
  lemma LimitDecided(v: View, h: Digest, ds: set<Digest>)
    requires h in v.s.txs && Found(v, h, ds)
    ensures |ds| + 1 > MAX_DESCENDANTS <==> |Dependents(v, v.s.txs[h]) - {h}| + 1 > MAX_DESCENDANTS
  {
    SubsetSmaller(ds, Dependents(v, v.s.txs[h]) - {h});
  }
}
