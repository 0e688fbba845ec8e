/** What a newcomer relies on: its sender's earlier transactions and, where the sender cannot pay out of
    what it has confirmed, whoever is paying it. */
module PackageClimb {
  import opened Bytes
  import opened Seqs
  import opened Transactions
  import opened PoolIndexes
  import opened Admission
  import opened Graphs
  import opened Packages

  /** The climb takes no more than this many steps. */
  const MAX_CLIMB := 91

  ghost predicate Indexed(s: Shelf) {
    SendersExact(s.txs, s.bySender) && forall a :: CreditExact(s.txs, s.credited, a)
  }

  /** The sender's transactions before this one. */
  ghost function Lower(v: View, tx: Tx): (ds: set<Digest>) {
    set d | d in v.s.txs && v.s.txs[d].sender == tx.sender && v.nonce(tx.sender) <= v.s.txs[d].nonce < tx.nonce
  }

  ghost function Payers(v: View, tx: Tx): (ds: set<Digest>) {
    set d | d in v.s.txs && Credits(v.s.txs[d], tx.sender)
  }

  predicate Queued(v: View, a: Address, n: nat) {
    n < U64_LIMIT && n in QueueOf(v.s.bySender, a) && QueueOf(v.s.bySender, a)[n] in v.s.txs
  }

  function SlotAt(v: View, a: Address, n: nat): (h: Digest)
    requires Queued(v, a, n)
  {
    QueueOf(v.s.bySender, a)[n]
  }

  /** What the sender's transactions from one nonce to just before this one cost. */
  ghost function RunCost(v: View, tx: Tx, from: nat): (n: nat)
    decreases tx.nonce - from
  {
    if from >= tx.nonce then 0
    else (if Queued(v, tx.sender, from) then v.cost(v.s.txs[SlotAt(v, tx.sender, from)]) else 0) + RunCost(v, tx, from + 1)
  }

  /** The transaction and all before it cost more than the sender has confirmed. */
  ghost predicate Lacks(v: View, tx: Tx) {
    v.cost(tx) + RunCost(v, tx, v.nonce(tx.sender)) > v.spendable(tx.sender)
  }

  /** What a transaction relies on directly. */
  ghost function Parents(v: View, tx: Tx): (ds: set<Digest>) {
    Lower(v, tx) + if Lacks(v, tx) then Payers(v, tx) else {}
  }

  /** It costs too much by itself, and the total fits 64 bits. */
  ghost predicate SurelyLacks(v: View, tx: Tx) {
    v.cost(tx) > v.spendable(tx.sender) && v.cost(tx) + RunCost(v, tx, v.nonce(tx.sender)) < U64_LIMIT
  }

  ghost function SureParents(v: View, tx: Tx): (ds: set<Digest>) {
    Lower(v, tx) + if SurelyLacks(v, tx) then Payers(v, tx) else {}
  }

  ghost function UpEdges(v: View): (next: Edges) {
    (d: Digest) => if d in v.s.txs then Parents(v, v.s.txs[d]) else {}
  }

  ghost function SureEdges(v: View): (next: Edges) {
    (d: Digest) => if d in v.s.txs then SureParents(v, v.s.txs[d]) else {}
  }

  /** All that a transaction relies on. */
  ghost function Ancestors(v: View, tx: Tx): (ds: set<Digest>) {
    Reach(v.s.txs.Keys, UpEdges(v), Parents(v, tx))
  }

  ghost function SureAncestors(v: View, tx: Tx): (ds: set<Digest>) {
    Reach(v.s.txs.Keys, SureEdges(v), SureParents(v, tx))
  }

  /** A sum in 64 bits. */
  function WordSum(a: Word, b: Word): (c: Word)
    ensures c == if a + b < U64_LIMIT then a + b else a + b - U64_LIMIT
  {
    (a + b) % U64_LIMIT
  }

  /** The climb as it is made: earlier nonces first, counting the cost of those not met before, then the
      payers if that is too much. */
  function Up(v: View, tx: Tx, out: set<Digest>, steps: nat): (now: set<Digest>)
    decreases steps, 2, 0
  {
    if steps == 0 then out
    else
      var run := OwnRun(v, tx, v.nonce(tx.sender), out, 0, steps - 1);
      if WordSum(v.cost(tx), run.1) <= v.spendable(tx.sender) then run.0
      else PayersUp(v, Crediting(v.s.credited, tx.sender), run.0, steps - 1)
  }

  function OwnRun(v: View, tx: Tx, from: nat, out: set<Digest>, own: Word, steps: nat): (run: (set<Digest>, Word))
    decreases steps, 3, tx.nonce - from
  {
    if from >= tx.nonce then (out, own)
    else if !Queued(v, tx.sender, from) || SlotAt(v, tx.sender, from) in out then OwnRun(v, tx, from + 1, out, own, steps)
    else
      var h := SlotAt(v, tx.sender, from);
      OwnRun(v, tx, from + 1, Up(v, v.s.txs[h], out + {h}, steps), WordSum(own, v.cost(v.s.txs[h])), steps)
  }

  function PayersUp(v: View, list: seq<Digest>, out: set<Digest>, steps: nat): (now: set<Digest>)
    decreases steps, 3, |list|
  {
    if list == [] then out
    else
      var h := list[0];
      PayersUp(v, list[1..], if h in v.s.txs && h !in out then Up(v, v.s.txs[h], out + {h}, steps) else out, steps)
  }

  method Climb(v: View, tx: Tx, out: set<Digest>, steps: nat) returns (now: set<Digest>)
    ensures now == Up(v, tx, out, steps)
    decreases steps
  {
    if steps == 0 {
      return out;
    }
    now := out;
    var own: Word, n := 0, v.nonce(tx.sender);
    while n < tx.nonce
      invariant OwnRun(v, tx, v.nonce(tx.sender), out, 0, steps - 1) == OwnRun(v, tx, n, now, own, steps - 1)
    {
      if Queued(v, tx.sender, n) && SlotAt(v, tx.sender, n) !in now {
        var h := SlotAt(v, tx.sender, n);
        now := Climb(v, v.s.txs[h], now + {h}, steps - 1);
        own := WordSum(own, v.cost(v.s.txs[h]));
      }
      n := n + 1;
    }
    if WordSum(v.cost(tx), own) <= v.spendable(tx.sender) {
      return;
    }
    var list := Crediting(v.s.credited, tx.sender);
    ghost var start := now;
    assert list[0..] == list;
    for i := 0 to |list|
      invariant PayersUp(v, list, start, steps - 1) == PayersUp(v, list[i..], now, steps - 1)
    {
      assert list[i..][0] == list[i] && list[i..][1..] == list[i + 1..];
      if list[i] in v.s.txs && list[i] !in now {
        now := Climb(v, v.s.txs[list[i]], now + {list[i]}, steps - 1);
      }
    }
  }

  ghost predicate Climbed(v: View, tx: Tx, out: set<Digest>, now: set<Digest>, steps: nat, cut: bool) {
    Walked(Ancestors(v, tx), SureEdges(v), out, now, steps, cut)
  }

  lemma UpWithin(v: View)
    ensures Within(v.s.txs.Keys, UpEdges(v)) && Within(v.s.txs.Keys, SureEdges(v))
  {
  }

  /** A transaction relies on every earlier one of its sender's, and on everyone who pays the sender unless
      the sender can pay for all up to it without them. */
  lemma ReliesOn(v: View, tx: Tx, d: Digest)
    requires d in v.s.txs
    ensures v.s.txs[d].sender == tx.sender && v.nonce(tx.sender) <= v.s.txs[d].nonce < tx.nonce ==> d in Ancestors(v, tx)
    ensures Credits(v.s.txs[d], tx.sender) && d !in Ancestors(v, tx) ==>
      v.cost(tx) + RunCost(v, tx, v.nonce(tx.sender)) <= v.spendable(tx.sender)
  {
    UpWithin(v);
    ReachClosed(v.s.txs.Keys, UpEdges(v), Parents(v, tx));
  }

  lemma ParentIn(v: View, tx: Tx, h: Digest)
    requires h in Parents(v, tx)
    ensures h in v.s.txs && h in Ancestors(v, tx) && Ancestors(v, v.s.txs[h]) <= Ancestors(v, tx)
    ensures SureEdges(v)(h) == SureParents(v, v.s.txs[h])
  {
    UpWithin(v);
    ReachClosed(v.s.txs.Keys, UpEdges(v), Parents(v, tx));
    ReachFurther(v.s.txs.Keys, UpEdges(v), Parents(v, tx), h);
  }

  lemma ClimbedMore(v: View, tx: Tx, h: Digest, out: set<Digest>, now: set<Digest>, steps: nat, cut: bool, so: set<Digest>, short: bool)
    requires Climbed(v, tx, out, now, steps + 1, cut) && h in Parents(v, tx) && h !in now
    requires Climbed(v, v.s.txs[h], now + {h}, so, steps, short) && (short || SureParents(v, v.s.txs[h]) <= so)
    ensures Climbed(v, tx, out, so, steps + 1, cut || short) && now <= so && h in so
  {
    ParentIn(v, tx, h);
    WalkedMore(Ancestors(v, tx), Ancestors(v, v.s.txs[h]), SureEdges(v), out, now, cut, h, so, steps, short);
  }

  /** The sender's transactions from one nonce to just before this one are all found. */
  ghost predicate RunIn(v: View, tx: Tx, from: nat, ds: set<Digest>) {
    forall n: nat :: from <= n < tx.nonce && Queued(v, tx.sender, n) ==> SlotAt(v, tx.sender, n) in ds
  }

  lemma SlotIsLower(v: View, tx: Tx, n: nat)
    requires Indexed(v.s) && Queued(v, tx.sender, n) && v.nonce(tx.sender) <= n < tx.nonce
    ensures SlotAt(v, tx.sender, n) in Parents(v, tx)
  {
    assert SlotExact(v.s.txs, v.s.bySender, tx.sender, n);
  }

  lemma LowerIn(v: View, tx: Tx, ds: set<Digest>)
    requires Indexed(v.s) && RunIn(v, tx, v.nonce(tx.sender), ds)
    ensures Lower(v, tx) <= ds
  {
    forall d | d in Lower(v, tx) ensures d in ds {
      assert SlotExact(v.s.txs, v.s.bySender, tx.sender, v.s.txs[d].nonce);
      assert Queued(v, tx.sender, v.s.txs[d].nonce);
    }
  }

  /** The climb over the sender's earlier transactions, from one nonce on. */
  ghost predicate RunClimbed(v: View, tx: Tx, from: nat, first: set<Digest>, out: set<Digest>, own: Word, steps: nat, was: bool,
                             run: (set<Digest>, Word), cut: bool) {
    && Climbed(v, tx, first, run.0, steps + 1, cut) && out <= run.0 && (was ==> cut)
    && RunIn(v, tx, from, run.0) && run.1 <= own + RunCost(v, tx, from)
  }

  lemma RunSkips(v: View, tx: Tx, from: nat, first: set<Digest>, out: set<Digest>, own: Word, steps: nat, was: bool,
                 run: (set<Digest>, Word), cut: bool)
    requires from < tx.nonce && (!Queued(v, tx.sender, from) || SlotAt(v, tx.sender, from) in out)
    requires RunClimbed(v, tx, from + 1, first, out, own, steps, was, run, cut)
    ensures RunClimbed(v, tx, from, first, out, own, steps, was, run, cut)
  {
  }

  lemma RunTakes(v: View, tx: Tx, from: nat, first: set<Digest>, out: set<Digest>, own: Word, steps: nat, was: bool,
                 so: set<Digest>, more: Word, still: bool, run: (set<Digest>, Word), cut: bool)
    requires from < tx.nonce && Queued(v, tx.sender, from) && SlotAt(v, tx.sender, from) in so && out <= so && (was ==> still)
    requires more <= own + v.cost(v.s.txs[SlotAt(v, tx.sender, from)])
    requires RunClimbed(v, tx, from + 1, first, so, more, steps, still, run, cut)
    ensures RunClimbed(v, tx, from, first, out, own, steps, was, run, cut)
  {
  }

  lemma {:induction false} OwnClimbs(v: View, tx: Tx, from: nat, first: set<Digest>, out: set<Digest>, own: Word, steps: nat, was: bool)
    returns (cut: bool)
    requires Indexed(v.s) && v.nonce(tx.sender) <= from && Climbed(v, tx, first, out, steps + 1, was)
    ensures RunClimbed(v, tx, from, first, out, own, steps, was, OwnRun(v, tx, from, out, own, steps), cut)
    decreases steps, 3, tx.nonce - from
  {
    var run := OwnRun(v, tx, from, out, own, steps);
    if from >= tx.nonce {
      cut := was;
    } else if !Queued(v, tx.sender, from) || SlotAt(v, tx.sender, from) in out {
      cut := OwnClimbs(v, tx, from + 1, first, out, own, steps, was);
      RunSkips(v, tx, from, first, out, own, steps, was, run, cut);
    } else {
      var h := SlotAt(v, tx.sender, from);
      SlotIsLower(v, tx, from);
      var so, more: Word := Up(v, v.s.txs[h], out + {h}, steps), WordSum(own, v.cost(v.s.txs[h]));
      var short := UpClimbs(v, v.s.txs[h], out + {h}, steps);
      ClimbedMore(v, tx, h, first, out, steps, was, so, short);
      cut := OwnClimbs(v, tx, from + 1, first, so, more, steps, was || short);
      RunTakes(v, tx, from, first, out, own, steps, was, so, more, was || short, run, cut);
    }
  }

  lemma NeedIs(v: View, tx: Tx, own: Word)
    requires own <= RunCost(v, tx, v.nonce(tx.sender))
    ensures WordSum(v.cost(tx), own) > v.spendable(tx.sender) ==> Lacks(v, tx)
    ensures SurelyLacks(v, tx) ==> WordSum(v.cost(tx), own) > v.spendable(tx.sender)
  {
  }

  lemma ListIsPayers(v: View, tx: Tx)
    requires Indexed(v.s)
    ensures forall h :: h in Crediting(v.s.credited, tx.sender) <==> h in Payers(v, tx)
  {
    assert CreditExact(v.s.txs, v.s.credited, tx.sender);
  }

  /** The climb from a transaction, wherever it has been before. */
  lemma {:induction false} UpClimbs(v: View, tx: Tx, out: set<Digest>, steps: nat) returns (cut: bool)
    requires Indexed(v.s)
    ensures Climbed(v, tx, out, Up(v, tx, out, steps), steps, cut)
    ensures cut || SureParents(v, tx) <= Up(v, tx, out, steps)
    decreases steps, 2, 0
  {
    if steps == 0 {
      cut := true;
    } else {
      var left, list := steps - 1, Crediting(v.s.credited, tx.sender);
      var run := OwnRun(v, tx, v.nonce(tx.sender), out, 0, left);
      cut := OwnClimbs(v, tx, v.nonce(tx.sender), out, out, 0, left, false);
      AfterRun(v, tx, out, left, run, cut);
      UpIs(v, tx, out, left, run);
      if WordSum(v.cost(tx), run.1) > v.spendable(tx.sender) {
        cut := PayersClimb(v, tx, list, out, run.0, left, cut);
        AllIn(SureParents(v, tx), run.0, list, PayersUp(v, list, run.0, left));
      }
    }
  }

  lemma AllIn(ds: set<Digest>, out: set<Digest>, list: seq<Digest>, now: set<Digest>)
    requires out <= now && (forall h :: h in list ==> h in now) && forall d :: d in ds ==> d in out || d in list
    ensures ds <= now
  {
  }

  lemma UpIs(v: View, tx: Tx, out: set<Digest>, left: nat, run: (set<Digest>, Word))
    requires run == OwnRun(v, tx, v.nonce(tx.sender), out, 0, left)
    ensures Up(v, tx, out, left + 1) ==
      if WordSum(v.cost(tx), run.1) > v.spendable(tx.sender) then PayersUp(v, Crediting(v.s.credited, tx.sender), run.0, left)
      else run.0
  {
  }

  lemma AfterRun(v: View, tx: Tx, out: set<Digest>, steps: nat, run: (set<Digest>, Word), cut: bool)
    requires Indexed(v.s) && RunClimbed(v, tx, v.nonce(tx.sender), out, out, 0, steps, false, run, cut)
    ensures Climbed(v, tx, out, run.0, steps + 1, cut)
    ensures var list := Crediting(v.s.credited, tx.sender);
            if WordSum(v.cost(tx), run.1) > v.spendable(tx.sender) then
              (forall h :: h in list ==> h in Parents(v, tx)) && (forall d :: d in SureParents(v, tx) ==> d in run.0 || d in list)
            else SureParents(v, tx) <= run.0
  {
    LowerIn(v, tx, run.0);
    NeedIs(v, tx, run.1);
    ListIsPayers(v, tx);
  }

  lemma {:induction false} PayersClimb(v: View, tx: Tx, list: seq<Digest>, first: set<Digest>, out: set<Digest>, steps: nat, was: bool)
    returns (cut: bool)
    requires Indexed(v.s) && Climbed(v, tx, first, out, steps + 1, was)
    requires forall h :: h in list ==> h in Parents(v, tx)
    ensures Climbed(v, tx, first, PayersUp(v, list, out, steps), steps + 1, cut) && (was ==> cut)
    ensures out <= PayersUp(v, list, out, steps) && forall h :: h in list ==> h in PayersUp(v, list, out, steps)
    decreases steps, 3, |list|
  {
    if list == [] {
      cut := was;
    } else {
      var h := list[0];
      assert h in list && forall g :: g in list ==> g == h || g in list[1..];
      if h !in out {
        var so := Up(v, v.s.txs[h], out + {h}, steps);
        var short := UpClimbs(v, v.s.txs[h], out + {h}, steps);
        ClimbedMore(v, tx, h, first, out, steps, was, so, short);
        cut := PayersClimb(v, tx, list[1..], first, so, steps, was || short);
      } else {
        cut := PayersClimb(v, tx, list[1..], first, out, steps, was);
      }
    }
  }
}
