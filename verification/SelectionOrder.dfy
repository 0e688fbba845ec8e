/** What a chosen block looks like, without the words of the choosing: the best-paying of what is open
    goes first, and nothing open is left while there is room. */
module SelectionOrder {
  import opened Bytes
  import opened Seqs
  import opened Transactions
  import opened ByteOrder
  import opened Greedy

  function BytesOf<C>(d: Desk<C>, txs: seq<Tx>): (n: nat) {
    if txs == [] then 0 else BytesOf(d, txs[..|txs| - 1]) + d.size(txs[|txs| - 1])
  }

  function OpsOf<C>(d: Desk<C>, txs: seq<Tx>): (n: nat) {
    if txs == [] then 0 else OpsOf(d, txs[..|txs| - 1]) + d.ops(txs[|txs| - 1])
  }

  function SentBy(txs: seq<Tx>, a: Address): (n: nat) {
    if txs == [] then 0 else SentBy(txs[..|txs| - 1], a) + if txs[|txs| - 1].sender == a then 1 else 0
  }

  /** The simulated ledger with these picked one after the other. */
  function After<C>(d: Desk<C>, start: C, txs: seq<Tx>): (c: C) {
    if txs == [] then start else d.picked(After(d, start, txs[..|txs| - 1]), txs[|txs| - 1])
  }

  /** A transaction may go in next: it can ever go in, it is its sender's next, it fits the block's
      million bytes and eight thousand checks, it can be paid for, and nobody before it acts on its name. */
  ghost predicate Open<C>(d: Desk<C>, start: C, chosen: seq<Tx>, tx: Tx) {
    && d.admissible(tx)
    && tx.nonce == (d.nonce(start, tx.sender) + SentBy(chosen, tx.sender)) % U64_LIMIT
    && BytesOf(d, chosen) + d.size(tx) <= 1_000_000 && OpsOf(d, chosen) + d.ops(tx) <= 8000
    && d.affordable(After(d, start, chosen), tx)
    && (tx.name.Some? ==> forall y :: y in chosen && y.name.Some? ==> y.name.value.name != tx.name.value.name)
    && forall y :: y in chosen && y.sender == tx.sender ==> y.nonce < tx.nonce
  }

  lemma NonceNext(n: Word, k: nat)
    ensures ((n + k) % U64_LIMIT + 1) % U64_LIMIT == (n + (k + 1)) % U64_LIMIT
  {
  }

  /** The draft adds up. */
  lemma {:induction false} DraftIs<C(!new)>(d: Desk<C>, start: C, chosen: seq<Tx>, a: Address)
    requires Orderly(d)
    ensures var p := AddAll(d, start, chosen);
            && p.cache == After(d, start, chosen) && p.weight == BytesOf(d, chosen) && p.ops == OpsOf(d, chosen)
            && d.nonce(p.cache, a) == (d.nonce(start, a) + SentBy(chosen, a)) % U64_LIMIT
    decreases |chosen|
  {
    if chosen != [] {
      var n := |chosen| - 1;
      DraftIs(d, start, chosen[..n], a);
      NonceMoves(d, AddAll(d, start, chosen[..n]), chosen[n], a);
      NonceNext(d.nonce(start, a), SentBy(chosen[..n], a));
    }
  }

  lemma {:induction false} ClaimedAre<C>(d: Desk<C>, start: C, chosen: seq<Tx>, name: Bytes)
    ensures name in AddAll(d, start, chosen).claimed <==> exists y :: y in chosen && y.name.Some? && y.name.value.name == name
    decreases |chosen|
  {
    if chosen != [] {
      var n := |chosen| - 1;
      ClaimedAre(d, start, chosen[..n], name);
      SnocSlice(chosen, n);
      WholeSlice(chosen);
      if name in AddAll(d, start, chosen).claimed {
        if name in AddAll(d, start, chosen[..n]).claimed {
          var y :| y in chosen[..n] && y.name.Some? && y.name.value.name == name;
          assert y in chosen;
        } else {
          assert chosen[n] in chosen;
        }
      }
    }
  }

  /** That is what the choosing takes for eligible. */
  lemma EligibleIsOpen<C(!new)>(d: Desk<C>, start: C, chosen: seq<Tx>, tx: Tx)
    requires Orderly(d)
    ensures Eligible(d, start, chosen, tx) <==> Open(d, start, chosen, tx)
  {
    DraftIs(d, start, chosen, tx.sender);
    if tx.name.Some? {
      ClaimedAre(d, start, chosen, tx.name.value.name);
    }
  }

  /** At every turn the chosen one was open, nothing open paid more per byte, and of what paid the same
      none had a smaller hash; and while there was room, nothing open was left. */
  ghost predicate BestFirst<C>(d: Desk<C>, start: C, pool: seq<Tx>, limit: int, chosen: seq<Tx>) {
    && (forall k :: 0 <= k < |chosen| ==> chosen[k] in pool && Open(d, start, chosen[..k], chosen[k]))
    && (forall k, y :: 0 <= k < |chosen| && y in pool && Open(d, start, chosen[..k], y) ==>
          && d.rate(y) <= d.rate(chosen[k])
          && (d.rate(y) == d.rate(chosen[k]) ==> forall i: nat :: !FirstAt(d.hash(y), d.hash(chosen[k]), i)))
    && (|chosen| < limit ==> forall y :: y in pool ==> !Open(d, start, chosen, y))
    && (chosen == [] || |chosen| <= limit)
  }

  lemma SelectsBest<C(!new)>(d: Desk<C>, start: C, pool: seq<Tx>, limit: int, chosen: seq<Tx>)
    requires Orderly(d) && Selected(d, start, pool, limit, chosen)
    ensures BestFirst(d, start, pool, limit, chosen)
  {
    forall k | 0 <= k < |chosen| ensures chosen[k] in pool && Open(d, start, chosen[..k], chosen[k]) {
      PickAt(d, start, pool, chosen, k);
      EligibleIsOpen(d, start, chosen[..k], chosen[k]);
    }
    forall k, y | 0 <= k < |chosen| && y in pool && Open(d, start, chosen[..k], y)
      ensures d.rate(y) <= d.rate(chosen[k])
      ensures d.rate(y) == d.rate(chosen[k]) ==> forall i: nat :: !FirstAt(d.hash(y), d.hash(chosen[k]), i)
    {
      PickAt(d, start, pool, chosen, k);
      EligibleIsOpen(d, start, chosen[..k], y);
      BeforeIsFirst(d.hash(y), d.hash(chosen[k]));
    }
    if |chosen| < limit {
      forall y | y in pool ensures !Open(d, start, chosen, y) {
        EligibleIsOpen(d, start, chosen, y);
      }
    }
  }
}
