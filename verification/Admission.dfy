/** Who may enter the pool: the next nonce of a run, paid for together with everything its sender
    already has queued. */
module Admission {
  import opened Bytes
  import opened Seqs
  import opened Transactions
  import opened PoolIndexes
  import opened Mempool

  ghost function PaidTo(a: Address): (w: Measure) {
    (tx: Tx) => if Credits(tx, a) then PaidBy(Outputs(tx), a) else 0
  }

  /** What one sender's transactions cost it. */
  ghost function CostTo(cost: Tx -> Word, a: Address): (w: Measure) {
    (tx: Tx) => if tx.sender == a then cost(tx) else 0
  }

  function Saturated(n: nat): (w: Word) {
    if n < U64_LIMIT then n else LAST_WORD
  }

  lemma {:induction false} SumNothing(txs: Txs, w: Measure)
    requires forall h :: h in txs ==> w(txs[h]) == 0
    ensures Sum(txs, w) == 0
    decreases |txs|
  {
    if txs != map[] {
      var h :| h in txs;
      SumTakes(txs, w, h);
      SumNothing(txs - {h}, w);
    }
  }

  method AddPayments(total: Word, outs: seq<Output>, a: Address) returns (r: Option<Word>)
    ensures r == if total + PaidBy(outs, a) < U64_LIMIT then Some(total + PaidBy(outs, a)) else None
  {
    var sum: Word := total;
    for i := 0 to |outs|
      invariant sum == total + PaidBy(outs[..i], a)
    {
      assert outs[..i + 1][..i] == outs[..i];
      if outs[i].recipient == a {
        if (sum + outs[i].amount) % U64_LIMIT < sum {
          PaidGrows(outs, i + 1, a);
          return None;
        }
        sum := sum + outs[i].amount;
      }
    }
    assert outs[..|outs|] == outs;
    return Some(sum);
  }

  lemma {:induction false} PaidGrows(outs: seq<Output>, n: nat, a: Address)
    requires n <= |outs|
    ensures PaidBy(outs[..n], a) <= PaidBy(outs, a)
    decreases |outs|
  {
    if n == |outs| {
      assert outs[..n] == outs;
    } else {
      PaidGrows(outs[..|outs| - 1], n, a);
      assert outs[..|outs| - 1][..n] == outs[..n];
    }
  }

  /** The transactions without those on a list. */
  ghost function Less(txs: Txs, list: seq<Digest>): (r: Txs) {
    txs - set h | h in list
  }

  lemma LessNone(txs: Txs, list: seq<Digest>)
    ensures Less(txs, []) == txs && Less(txs, list[..0]) == txs
  {
  }

  lemma LessStep(txs: Txs, list: seq<Digest>, i: nat, w: Measure)
    requires NoRepeats(list) && i < |list| && list[i] in txs
    ensures Sum(Less(txs, list[..i]), w) == w(txs[list[i]]) + Sum(Less(txs, list[..i + 1]), w)
  {
    assert list[i] in Less(txs, list[..i]);
    SumTakes(Less(txs, list[..i]), w, list[i]);
    assert list[..i + 1] == list[..i] + [list[i]];
    assert Less(txs, list[..i]) - {list[i]} == Less(txs, list[..i + 1]);
  }

  /** The coin the pool is already paying an address, saturating. */
  method PendingCredit(s: Shelf, a: Address) returns (credit: Word)
    requires CreditExact(s.txs, s.credited, a)
    ensures credit == Saturated(Sum(s.txs, PaidTo(a)))
  {
    var list := Crediting(s.credited, a);
    credit := 0;
    assert Less(s.txs, list[..0]) == s.txs;
    for i := 0 to |list|
      invariant credit + Sum(Less(s.txs, list[..i]), PaidTo(a)) == Sum(s.txs, PaidTo(a))
    {
      assert list[i] in list;
      var tx := s.txs[list[i]];
      LessStep(s.txs, list, i, PaidTo(a));
      var next := AddPayments(credit, Outputs(tx), a);
      if next.None? {
        return LAST_WORD;
      }
      credit := next.value;
    }
    assert list[..|list|] == list;
    SumNothing(Less(s.txs, list), PaidTo(a));
  }

  function Funds(spendable: Word, credit: Word): (n: Word) {
    if (spendable + credit) % U64_LIMIT < spendable then LAST_WORD else (spendable + credit) % U64_LIMIT
  }

  /** What all of one sender's transactions cost. */
  ghost function QueueCost(cost: Tx -> Word, txs: Txs, a: Address): (n: nat) {
    Sum(txs, CostTo(cost, a))
  }

  lemma CostTakes(cost: Tx -> Word, txs: Txs, a: Address, h: Digest)
    requires h in txs && txs[h].sender == a
    ensures QueueCost(cost, txs, a) == cost(txs[h]) + QueueCost(cost, txs - {h}, a)
  {
    SumTakes(txs, CostTo(cost, a), h);
  }

  /** What the sender's queue costs with `tx` in it and `replacing` out of it. */
  ghost function NewCost(cost: Tx -> Word, txs: Txs, tx: Tx, replacing: Option<Digest>): (n: nat) {
    cost(tx) + QueueCost(cost, Kept(txs, replacing), tx.sender)
  }

  ghost function Kept(txs: Txs, replacing: Option<Digest>): (r: Txs) {
    if replacing.Some? then txs - {replacing.value} else txs
  }

  /** These are all of one sender's transactions, in some order. */
  ghost predicate ListsQueue(txs: Txs, a: Address, order: seq<Digest>) {
    NoRepeats(order) && forall h :: h in order <==> h in txs && txs[h].sender == a
  }

  ghost function CostsOf(cost: Tx -> Word, txs: Txs, order: seq<Digest>): (costs: seq<Word>)
    requires forall h :: h in order ==> h in txs
    ensures |costs| == |order| && forall i :: 0 <= i < |order| ==> costs[i] == cost(txs[order[i]])
  {
    if order == [] then [] else [cost(txs[order[0]])] + CostsOf(cost, txs, order[1..])
  }

  function SumOf(costs: seq<Word>): (n: nat) {
    if costs == [] then 0 else costs[0] + SumOf(costs[1..])
  }

  lemma QueueTail(txs: Txs, a: Address, order: seq<Digest>)
    requires ListsQueue(txs, a, order) && order != []
    ensures ListsQueue(txs - {order[0]}, a, order[1..])
  {
    assert order == [order[0]] + order[1..];
  }

  /** The costs of a queue add up to what it costs, in any order. */
  lemma {:induction false} CostsAddUp(cost: Tx -> Word, txs: Txs, a: Address, order: seq<Digest>)
    requires ListsQueue(txs, a, order)
    ensures SumOf(CostsOf(cost, txs, order)) == QueueCost(cost, txs, a)
    decreases |order|
  {
    if order == [] {
      SumNothing(txs, CostTo(cost, a));
    } else {
      var h, less := order[0], txs - {order[0]};
      CostTakes(cost, txs, a, h);
      QueueTail(txs, a, order);
      CostsAddUp(cost, less, a, order[1..]);
      CostsSame(cost, less, txs, order[1..]);
      assert CostsOf(cost, txs, order)[1..] == CostsOf(cost, txs, order[1..]);
    }
  }

  lemma CostsSame(cost: Tx -> Word, less: Txs, txs: Txs, order: seq<Digest>)
    requires forall h :: h in order ==> h in less && h in txs && less[h] == txs[h]
    ensures CostsOf(cost, less, order) == CostsOf(cost, txs, order)
  {
  }

  /** The running total, in 64 bits, with costs added to it one after the other: it must fit at every
      step, and in the end. */
  predicate StepsFit(total: Word, costs: seq<Word>, funds: Word)
    decreases |costs|
  {
    if costs == [] then total <= funds
    else
      var next := (total + costs[0]) % U64_LIMIT;
      next <= funds && StepsFit(next, costs[1..], funds)
  }

  lemma StepAt(total: Word, costs: seq<Word>, i: nat, funds: Word)
    requires i < |costs|
    ensures var next := (total + costs[i]) % U64_LIMIT;
            StepsFit(total, costs[i..], funds) <==> next <= funds && StepsFit(next, costs[i + 1..], funds)
  {
    assert costs[i..][0] == costs[i] && costs[i..][1..] == costs[i + 1..];
  }

  /** The total goes in one step from what was accepted so far past 64 bits. */
  predicate Leaps(total: nat, costs: seq<Word>, funds: Word)
    decreases |costs|
  {
    costs != [] && (total + costs[0] >= U64_LIMIT || (total + costs[0] <= funds && Leaps(total + costs[0], costs[1..], funds)))
  }

  /** As long as the sum fits 64 bits, the steps decide whether it can be paid. */
  lemma {:induction false} StepsDecide(total: Word, costs: seq<Word>, funds: Word)
    requires total + SumOf(costs) < U64_LIMIT
    ensures StepsFit(total, costs, funds) <==> total + SumOf(costs) <= funds
    decreases |costs|
  {
    if costs != [] {
      StepsDecide(total + costs[0], costs[1..], funds);
    }
  }

  /** What could be paid without the newcomer fits from a smaller start as well. */
  lemma {:induction false} StepsStay(total: Word, costs: seq<Word>, funds: Word)
    requires total + SumOf(costs) <= funds
    ensures StepsFit(total, costs, funds)
    decreases |costs|
  {
    if costs != [] {
      StepsStay(total + costs[0], costs[1..], funds);
    }
  }

  lemma WordNext(total: Word, c: Word)
    ensures (total + c) % U64_LIMIT == if total + c < U64_LIMIT then total + c else total + c - U64_LIMIT
  {
  }

  /** A sender that could pay for its queue is let in with one more exactly when it can pay for that
      too, or the total leaps past 64 bits. */
  lemma {:induction false} StepsFitExactly(total: Word, costs: seq<Word>, funds: Word)
    requires SumOf(costs) <= funds
    ensures StepsFit(total, costs, funds) <==> total + SumOf(costs) <= funds || Leaps(total, costs, funds)
    decreases |costs|
  {
    if costs != [] {
      var c, rest := costs[0], costs[1..];
      WordNext(total, c);
      if total + c < U64_LIMIT {
        StepsFitExactly(total + c, rest, funds);
      } else {
        Leapt(total, c, rest, funds);
      }
    }
  }

  /** Past the leap everything fits. */
  lemma Leapt(total: Word, c: Word, rest: seq<Word>, funds: Word)
    requires total + c >= U64_LIMIT && c + SumOf(rest) <= funds
    ensures total + c - U64_LIMIT <= funds && StepsFit(total + c - U64_LIMIT, rest, funds)
  {
    StepsStay(total + c - U64_LIMIT, rest, funds);
  }

  /** The sender's queue without the transaction to be replaced, in the order it happens to be visited. */
  method Others(s: Shelf, a: Address, replacing: Option<Digest>) returns (order: seq<Digest>)
    requires SendersExact(s.txs, s.bySender)
    ensures ListsQueue(Kept(s.txs, replacing), a, order)
  {
    var q := QueueOf(s.bySender, a);
    var left := q.Keys;
    order := [];
    while left != {}
      invariant left <= q.Keys && NoRepeats(order)
      invariant forall h :: h in order <==> h in Kept(s.txs, replacing) && s.txs[h].sender == a && s.txs[h].nonce in q && s.txs[h].nonce !in left
      decreases left
    {
      var n :| n in left;
      assert SlotExact(s.txs, s.bySender, a, n);
      left := left - {n};
      if Some(q[n]) != replacing {
        order := order + [q[n]];
      }
    }
    forall h | h in Kept(s.txs, replacing) && s.txs[h].sender == a ensures h in order {
      assert SlotExact(s.txs, s.bySender, a, s.txs[h].nonce);
    }
  }

  /** Adds the costs of a list to a total, step by step. */
  method AddUp(cost: Tx -> Word, txs: Txs, queue: seq<Digest>, start: Word, funds: Word) returns (ok: bool)
    requires forall h :: h in queue ==> h in txs
    ensures ok <==> StepsFit(start, CostsOf(cost, txs, queue), funds)
  {
    var total: Word := start;
    ghost var costs := CostsOf(cost, txs, queue);
    for i := 0 to |queue|
      invariant StepsFit(start, costs, funds) <==> StepsFit(total, costs[i..], funds)
    {
      assert queue[i] in queue;
      StepAt(total, costs, i, funds);
      total := (total + cost(txs[queue[i]])) % U64_LIMIT;
      if total > funds {
        return false;
      }
    }
    return total <= funds;
  }

  /** Whether the whole queue fits: the newcomer's cost, and the others' added one by one. */
  method QueueFits(cost: Tx -> Word, s: Shelf, tx: Tx, replacing: Option<Digest>, funds: Word) returns (ok: bool, ghost order: seq<Digest>)
    requires SendersExact(s.txs, s.bySender)
    ensures ListsQueue(Kept(s.txs, replacing), tx.sender, order)
    ensures ok <==> StepsFit(cost(tx), CostsOf(cost, s.txs, order), funds)
    ensures NewCost(cost, s.txs, tx, replacing) < U64_LIMIT ==> (ok <==> NewCost(cost, s.txs, tx, replacing) <= funds)
  {
    var queue := Others(s, tx.sender, replacing);
    order := queue;
    ok := AddUp(cost, s.txs, queue, cost(tx), funds);
    if NewCost(cost, s.txs, tx, replacing) < U64_LIMIT {
      QueueDecided(cost, s.txs, tx, replacing, order, funds);
    }
  }

  /** In whatever order the queue is visited, a total that fits 64 bits is judged right. */
  lemma QueueDecided(cost: Tx -> Word, txs: Txs, tx: Tx, replacing: Option<Digest>, order: seq<Digest>, funds: Word)
    requires ListsQueue(Kept(txs, replacing), tx.sender, order) && NewCost(cost, txs, tx, replacing) < U64_LIMIT
    ensures StepsFit(cost(tx), CostsOf(cost, txs, order), funds) <==> NewCost(cost, txs, tx, replacing) <= funds
  {
    CostsAddUp(cost, Kept(txs, replacing), tx.sender, order);
    CostsSame(cost, Kept(txs, replacing), txs, order);
    StepsDecide(cost(tx), CostsOf(cost, txs, order), funds);
  }

  /** And any total is, of a sender that could pay for its queue, unless it leaps past 64 bits. */
  lemma QueueDecidedExactly(cost: Tx -> Word, txs: Txs, tx: Tx, replacing: Option<Digest>, order: seq<Digest>, funds: Word)
    requires ListsQueue(Kept(txs, replacing), tx.sender, order) && QueueCost(cost, Kept(txs, replacing), tx.sender) <= funds
    ensures StepsFit(cost(tx), CostsOf(cost, txs, order), funds) <==>
      NewCost(cost, txs, tx, replacing) <= funds || Leaps(cost(tx), CostsOf(cost, txs, order), funds)
  {
    CostsAddUp(cost, Kept(txs, replacing), tx.sender, order);
    CostsSame(cost, Kept(txs, replacing), txs, order);
    StepsFitExactly(cost(tx), CostsOf(cost, txs, order), funds);
  }

  /** Among the first `i` words from `base` on, wrapping around. */
  ghost predicate Near(base: Word, i: nat, x: Word) {
    (x - base) % U64_LIMIT < i
  }

  lemma NearGrows(base: Word, i: nat, next: Word)
    requires i < U64_LIMIT && next == (base + i) % U64_LIMIT
    ensures !Near(base, i, next) && Near(base, i + 1, next) && (base + i < U64_LIMIT ==> next == base + i)
    ensures (next + 1) % U64_LIMIT == (base + i + 1) % U64_LIMIT
  {
  }

  /** The slots passed so far: one for each step. */
  ghost predicate Passed(q: Queue, base: Word, i: nat, visited: set<Word>) {
    && visited <= q.Keys && |visited| == i
    && (forall x :: x in visited ==> Near(base, i, x))
    && (forall k: Word :: base <= k < base + i ==> k in q)
  }

  lemma PassedMore(q: Queue, base: Word, i: nat, visited: set<Word>, next: Word)
    requires Passed(q, base, i, visited) && i < U64_LIMIT && next == (base + i) % U64_LIMIT && next in q
    ensures Passed(q, base, i + 1, visited + {next})
  {
    NearGrows(base, i, next);
    forall x | x in visited ensures Near(base, i + 1, x) {
      assert Near(base, i, x);
    }
  }

  /** The first nonce from the confirmed one on that is not queued. */
  method NextFree(q: Queue, confirmed: Word) returns (next: Word)
    requires |q| < U64_LIMIT
    ensures next !in q
    ensures forall k: Word :: confirmed <= k && (k < next || next < confirmed) ==> k in q
  {
    ghost var visited: set<Word>, i := {}, 0;
    next := confirmed;
    while next in q
      invariant next == (confirmed + i) % U64_LIMIT && Passed(q, confirmed, i, visited) && i <= |q|
      decreases |q| - i
    {
      PassedMore(q, confirmed, i, visited, next);
      NearGrows(confirmed, i, next);
      visited, i := visited + {next}, i + 1;
      next := (next + 1) % U64_LIMIT;
      SubsetSmaller(visited, q.Keys);
    }
  }

  function Settled(was: Word, out: Word, fee: Word): (n: Word) {
    ((was - out) % U64_LIMIT + fee) % U64_LIMIT
  }

  /** What the sponsor would owe with `tx` in and `replacing` out, as words. */
  function NewPromise(s: Shelf, tx: Tx, replacing: Option<Digest>): (n: Word) {
    var was := Count(s.sponsored, tx.feePayer);
    var out := if replacing.Some? && replacing.value in s.txs then Promised(tx.feePayer)(s.txs[replacing.value]) else 0;
    Settled(was, out, tx.fee)
  }

  /** The next nonce of the sender's run. */
  ghost predicate IsNext(confirmed: Word, q: Queue, n: Word) {
    confirmed <= n && n !in q && forall k: Word :: confirmed <= k < n ==> k in q
  }

  lemma NextUnique(confirmed: Word, q: Queue, n: Word, next: Word)
    requires next !in q && forall k: Word :: confirmed <= k && (k < next || next < confirmed) ==> k in q
    ensures confirmed <= n ==> (n == next <==> IsNext(confirmed, q, n))
  {
  }

  /** A nonce not used yet; in a free slot, the next of its run and not too many before it. */
  ghost predicate Placed(confirmed: Word, q: Queue, tx: Tx, slot: Option<Digest>) {
    confirmed <= tx.nonce && (slot.None? ==> |q| < MAX_PER_SENDER && IsNext(confirmed, q, tx.nonce))
  }

  method HasPlace(confirmed: Word, q: Queue, tx: Tx, slot: Option<Digest>) returns (ok: bool)
    ensures ok <==> Placed(confirmed, q, tx, slot)
  {
    if tx.nonce < confirmed {
      return false;
    }
    if slot.None? {
      if |q| >= MAX_PER_SENDER {
        return false;
      }
      var next := NextFree(q, confirmed);
      NextUnique(confirmed, q, tx.nonce, next);
      return tx.nonce == next;
    }
    return true;
  }

  /** What a sender can spend, counting what the pool is paying it. */
  ghost function FundsOf(src: Source, txs: Txs, a: Address): (n: Word) {
    Funds(src.spendable(a), Saturated(Sum(txs, PaidTo(a))))
  }

  /** What admission demands: a place in the sender's run, the queue paid for, added up in this order,
      and the sponsor's promises paid for. */
  ghost predicate Admits(p: Policy, src: Source, s: Shelf, tx: Tx, slot: Option<Digest>, order: seq<Digest>)
    requires forall h :: h in order ==> h in s.txs
  {
    && Placed(src.nonce(tx.sender), QueueOf(s.bySender, tx.sender), tx, slot)
    && StepsFit(p.cost(tx), CostsOf(p.cost, s.txs, order), FundsOf(src, s.txs, tx.sender))
    && (IsSponsored(tx) ==> NewPromise(s, tx, slot) <= src.spendable(tx.feePayer))
  }

  /** The same with the queue's total, which no order of adding changes as long as it fits 64 bits. */
  ghost predicate AdmitsWithin(p: Policy, src: Source, s: Shelf, tx: Tx, slot: Option<Digest>) {
    && Placed(src.nonce(tx.sender), QueueOf(s.bySender, tx.sender), tx, slot)
    && NewCost(p.cost, s.txs, tx, slot) <= FundsOf(src, s.txs, tx.sender)
    && (IsSponsored(tx) ==> NewPromise(s, tx, slot) <= src.spendable(tx.feePayer))
  }

  /** Admission against the confirmed chain. */
  method Admissible(p: Policy, src: Source, s: Shelf, tx: Tx, replacing: Option<Digest>) returns (ok: bool, ghost order: seq<Digest>)
    requires Exact(p.id, p.size, s)
    ensures ListsQueue(Kept(s.txs, replacing), tx.sender, order)
    ensures ok <==> Admits(p, src, s, tx, replacing, order)
    ensures NewCost(p.cost, s.txs, tx, replacing) < U64_LIMIT ==> (ok <==> AdmitsWithin(p, src, s, tx, replacing))
  {
    var placed := HasPlace(src.nonce(tx.sender), QueueOf(s.bySender, tx.sender), tx, replacing);
    assert CreditExact(s.txs, s.credited, tx.sender);
    var credit := PendingCredit(s, tx.sender);
    var paid;
    paid, order := QueueFits(p.cost, s, tx, replacing, Funds(src.spendable(tx.sender), credit));
    ok := placed && paid && (IsSponsored(tx) ==> NewPromise(s, tx, replacing) <= src.spendable(tx.feePayer));
  }
}
