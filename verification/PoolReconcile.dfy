/** Clean-up after the chain moved: expired transactions, sponsors that promised too much, and
    queues behind a gap or past the money. */
module PoolReconcile {
  import opened Bytes
  import opened Seqs
  import opened Transactions
  import opened PoolIndexes
  import opened Mempool
  import opened Admission
  import opened PoolTrim

  /** Nothing new, nothing changed. */
  ghost predicate Shrunk(was: Txs, now: Txs) {
    forall h :: h in now ==> h in was && now[h] == was[h]
  }

  ghost predicate Pruned(src: Source, was: Txs, now: Txs) {
    forall h :: (h in now <==> h in was && !src.expired(was[h])) && (h in now ==> h in was && now[h] == was[h])
  }

  /** Drops what no later block may contain. */
  method PruneExpired(pool: Pool, p: Policy, src: Source) returns (dropped: nat)
    requires Exact(p.id, p.size, pool.Now())
    modifies pool
    ensures Exact(p.id, p.size, pool.Now()) && Pruned(src, old(pool.txs), pool.txs)
    ensures |pool.txs| + dropped == |old(pool.txs)|
  {
    ghost var was := pool.txs;
    var left := pool.txs.Keys;
    dropped := 0;
    while left != {}
      invariant Exact(p.id, p.size, pool.Now()) && left <= pool.txs.Keys && |pool.txs| + dropped == |was|
      invariant forall h :: (h in pool.txs <==> h in was && (h in left || !src.expired(was[h])))
      invariant forall h :: h in pool.txs ==> h in was && pool.txs[h] == was[h]
      decreases left
    {
      var h :| h in left;
      left := left - {h};
      if src.expired(pool.txs[h]) {
        OneLess(pool.txs, h);
        pool.Delete(p, h);
        dropped := dropped + 1;
      }
    }
  }

  predicate SponsoredBy(tx: Tx, payer: Address) {
    IsSponsored(tx) && tx.feePayer == payer
  }

  ghost predicate ByRate(p: Policy, txs: Txs, list: seq<Digest>)
    requires forall h :: h in list ==> h in txs
  {
    forall i, j :: 0 <= i < j < |list| ==> p.rate(txs[list[i]]) <= p.rate(txs[list[j]])
  }

  function WithDigest(p: Policy, txs: Txs, h: Digest, list: seq<Digest>): (r: seq<Digest>)
    requires h in txs && forall g :: g in list ==> g in txs
    ensures forall g :: g in r <==> g == h || g in list
    ensures NoRepeats(list) && h !in list ==> NoRepeats(r)
    ensures ByRate(p, txs, list) ==> ByRate(p, txs, r)
  {
    if list == [] || p.rate(txs[h]) < p.rate(txs[list[0]]) then
      Fronted(p, txs, h, list);
      [h] + list
    else
      assert list == [list[0]] + list[1..];
      var rest := WithDigest(p, txs, h, list[1..]);
      Behind(p, txs, h, list, rest);
      [list[0]] + rest
  }

  lemma Fronted(p: Policy, txs: Txs, h: Digest, list: seq<Digest>)
    requires h in txs && (forall g :: g in list ==> g in txs) && (list == [] || p.rate(txs[h]) < p.rate(txs[list[0]]))
    ensures NoRepeats(list) && h !in list ==> NoRepeats([h] + list)
    ensures ByRate(p, txs, list) ==> ByRate(p, txs, [h] + list)
  {
  }

  lemma Behind(p: Policy, txs: Txs, h: Digest, list: seq<Digest>, rest: seq<Digest>)
    requires list != [] && h in txs && (forall g :: g in list ==> g in txs) && p.rate(txs[list[0]]) <= p.rate(txs[h])
    requires (forall g :: g in rest <==> g == h || g in list[1..])
    requires NoRepeats(list[1..]) && h !in list[1..] ==> NoRepeats(rest)
    requires ByRate(p, txs, list[1..]) ==> ByRate(p, txs, rest)
    ensures NoRepeats(list) && h !in list ==> NoRepeats([list[0]] + rest)
    ensures ByRate(p, txs, list) ==> ByRate(p, txs, [list[0]] + rest)
  {
    if ByRate(p, txs, list) {
      forall j | 0 <= j < |rest| ensures rest[j] in txs && p.rate(txs[list[0]]) <= p.rate(txs[rest[j]]) {
        assert rest[j] in rest;
      }
    }
    if NoRepeats(list) && h !in list {
      DistinctCons(list[0], rest);
    }
  }

  /** One payer's sponsorships, cheapest rate first. */
  method Sponsorships(p: Policy, txs: Txs, payer: Address) returns (list: seq<Digest>)
    ensures NoRepeats(list) && forall h :: h in list <==> h in txs && SponsoredBy(txs[h], payer)
    ensures ByRate(p, txs, list)
  {
    list := [];
    var left := txs.Keys;
    while left != {}
      invariant left <= txs.Keys && NoRepeats(list)
      invariant forall h :: h in list <==> h in txs && h !in left && SponsoredBy(txs[h], payer)
      invariant ByRate(p, txs, list)
      decreases left
    {
      var h :| h in left;
      left := left - {h};
      if SponsoredBy(txs[h], payer) {
        list := WithDigest(p, txs, h, list);
      }
    }
  }

  /** What a sponsor owes, counted in 64 bits. */
  ghost function Owed(txs: Txs, payer: Address): (n: Word) {
    Sum(txs, Promised(payer)) % U64_LIMIT
  }

  /** After the first `i` on the list, what the payer promised was still more than it can spend. */
  ghost predicate TooMuchAt(src: Source, txs: Txs, payer: Address, gone: seq<Digest>, i: nat) {
    i <= |gone| && Owed(Less(txs, gone[..i]), payer) > src.spendable(payer)
  }

  /** What one payer let go of, in this order: sponsorships of its own, the cheapest per byte first,
      each while the rest was too much, until the rest fits. */
  ghost predicate LetGo(p: Policy, src: Source, txs: Txs, payer: Address, gone: seq<Digest>) {
    && NoRepeats(gone) && (forall h :: h in gone ==> h in txs && SponsoredBy(txs[h], payer)) && ByRate(p, txs, gone)
    && (forall h, g :: h in gone && g in txs && g !in gone && SponsoredBy(txs[g], payer) ==> p.rate(txs[h]) <= p.rate(txs[g]))
    && (forall i :: 0 <= i < |gone| ==> TooMuchAt(src, txs, payer, gone, i))
    && Owed(Less(txs, gone), payer) <= src.spendable(payer)
  }

  lemma FrontByRate(p: Policy, payer: Address, was: Txs, list: seq<Digest>, n: nat)
    requires (forall h :: h in list <==> h in was && SponsoredBy(was[h], payer)) && ByRate(p, was, list) && n <= |list|
    ensures ByRate(p, was, list[..n])
    ensures forall h, g :: h in list[..n] && g in was && g !in list[..n] && SponsoredBy(was[g], payer) ==> p.rate(was[h]) <= p.rate(was[g])
  {
    forall k | 0 <= k < n ensures list[k] in list[..n] {
      assert list[..n][k] == list[k];
    }
    forall h, g | h in list[..n] && g in was && g !in list[..n] && SponsoredBy(was[g], payer) ensures p.rate(was[h]) <= p.rate(was[g]) {
      var a :| 0 <= a < n && list[a] == h;
      var b :| 0 <= b < |list| && list[b] == g;
    }
  }

  lemma NothingPromised(txs: Txs, sponsored: map<Address, Word>, payer: Address)
    requires PromiseExact(txs, sponsored, payer) && forall h :: h in txs ==> !SponsoredBy(txs[h], payer)
    ensures Count(sponsored, payer) == 0
  {
    SumNothing(txs, Promised(payer));
  }

  lemma LessOne(was: Txs, list: seq<Digest>, i: nat)
    requires i < |list|
    ensures Less(was, list[..i]) - {list[i]} == Less(was, list[..i + 1])
  {
    assert list[..i + 1] == list[..i] + [list[i]];
  }

  /** The first `n` of a list are gone, each while the payer's promises were too much. */
  ghost predicate FrontGone(src: Source, was: Txs, now: Txs, payer: Address, list: seq<Digest>, n: nat) {
    && n <= |list| && now == Less(was, list[..n]) && |now| + n == |was|
    && forall i :: 0 <= i < n ==> TooMuchAt(src, was, payer, list, i)
  }

  lemma FrontGrows(src: Source, was: Txs, now: Shelf, payer: Address, list: seq<Digest>, n: nat)
    requires FrontGone(src, was, now.txs, payer, list, n) && n < |list| && NoRepeats(list) && forall h :: h in list ==> h in was
    requires PromiseExact(now.txs, now.sponsored, payer) && Count(now.sponsored, payer) > src.spendable(payer)
    ensures FrontGone(src, was, now.txs - {list[n]}, payer, list, n + 1)
  {
    NextOnList(was, list, n);
    assert TooMuchAt(src, was, payer, list, n);
  }

  /** Drops from the front of a list until the payer's promises fit. */
  method DropUntil(pool: Pool, p: Policy, src: Source, payer: Address, list: seq<Digest>) returns (n: nat)
    requires Exact(p.id, p.size, pool.Now()) && NoRepeats(list) && forall h :: h in list ==> h in pool.txs
    modifies pool
    ensures Exact(p.id, p.size, pool.Now()) && FrontGone(src, old(pool.txs), pool.txs, payer, list, n)
    ensures n == |list| || Count(pool.sponsored, payer) <= src.spendable(payer)
  {
    n := 0;
    LessNone(pool.txs, list);
    while n < |list| && Count(pool.sponsored, payer) > src.spendable(payer)
      invariant Exact(p.id, p.size, pool.Now()) && FrontGone(src, old(pool.txs), pool.txs, payer, list, n)
    {
      assert PromiseExact(pool.txs, pool.sponsored, payer);
      FrontGrows(src, old(pool.txs), pool.Now(), payer, list, n);
      pool.Delete(p, list[n]);
      n := n + 1;
    }
  }

  lemma NextOnList(was: Txs, list: seq<Digest>, i: nat)
    requires NoRepeats(list) && i < |list| && forall h :: h in list ==> h in was
    ensures var now := Less(was, list[..i]);
            now - {list[i]} == Less(was, list[..i + 1]) && |now - {list[i]}| + 1 == |now|
  {
    assert list[i] in list;
    assert list[i] in Less(was, list[..i]);
    LessOne(was, list, i);
    OneLess(Less(was, list[..i]), list[i]);
  }

  /** Drops a payer's cheapest sponsorships until the rest fits what it can spend. */
  method ReleaseSponsor(pool: Pool, p: Policy, src: Source, payer: Address) returns (dropped: nat, ghost gone: seq<Digest>)
    requires Exact(p.id, p.size, pool.Now())
    modifies pool
    ensures Exact(p.id, p.size, pool.Now()) && Count(pool.sponsored, payer) <= src.spendable(payer)
    ensures LetGo(p, src, old(pool.txs), payer, gone) && pool.txs == Less(old(pool.txs), gone)
    ensures |pool.txs| + dropped == |old(pool.txs)|
  {
    ghost var was := pool.txs;
    var list := Sponsorships(p, pool.txs, payer);
    dropped := DropUntil(pool, p, src, payer, list);
    gone := list[..dropped];
    assert PromiseExact(pool.txs, pool.sponsored, payer);
    if dropped == |list| {
      AllReleased(was, pool.txs, pool.sponsored, list, payer);
    }
    FrontLetGo(p, src, payer, was, list, dropped);
  }

  /** The front of the sorted list, as far as it had to go. */
  lemma FrontLetGo(p: Policy, src: Source, payer: Address, was: Txs, list: seq<Digest>, n: nat)
    requires NoRepeats(list) && (forall h :: h in list <==> h in was && SponsoredBy(was[h], payer)) && ByRate(p, was, list) && n <= |list|
    requires forall i :: 0 <= i < n ==> TooMuchAt(src, was, payer, list, i)
    requires Owed(Less(was, list[..n]), payer) <= src.spendable(payer)
    ensures LetGo(p, src, was, payer, list[..n])
  {
    var gone := list[..n];
    FrontByRate(p, payer, was, list, n);
    forall i | 0 <= i < |gone| ensures TooMuchAt(src, was, payer, gone, i) {
      assert TooMuchAt(src, was, payer, list, i);
      assert gone[..i] == list[..i];
    }
  }

  lemma AllReleased(was: Txs, now: Txs, sponsored: map<Address, Word>, list: seq<Digest>, payer: Address)
    requires now == Less(was, list[..|list|]) && PromiseExact(now, sponsored, payer)
    requires forall h :: h in list <==> h in was && SponsoredBy(was[h], payer)
    ensures Count(sponsored, payer) == 0
  {
    assert list[..|list|] == list;
    NothingPromised(now, sponsored, payer);
  }
}
