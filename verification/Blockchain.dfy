/** The chain a node runs: every accepted call leaves it valid, every refused one as it was. */
module Blockchain {
  import opened Bytes
  import opened Transactions
  import opened Ledger
  import opened LedgerStore
  import opened Chain
  import opened ChainDerived
  import opened ByteOrder
  import opened ForkChoice
  import opened ChainStore
  import opened LedgerCommit
  import NodeStores
  import StateCommit
  import Mmr

  /** What became of an offered chain. */
  datatype Verdict = Adopted | NotBetter | Refused | Invalid

  ghost function RankOf(work: Word -> nat, blocks: seq<Block>): (r: Rank) {
    Rank(WorkOf(work, blocks), if blocks == [] then [] else blocks[|blocks| - 1].hash)
  }

  /** What a node keeps beside its trie cache. */
  datatype Books = Books(
    blocks: seq<Block>,
    state: State,
    undos: seq<seq<UndoEntry>>,
    work: nat,
    derived: Derived,
    filterHeaders: seq<Digest>,
    history: Accumulator)

  /** The ledger is a replay of the blocks, undo logs lead back along it, and everything else is what a
      walk of the blocks gives. */
  ghost predicate Balanced(net: Network, x: Extend, trust: Trust, k: Books) {
    && k.blocks != [] && Journal(x, net.cr.genesis, k.blocks, k.state, k.undos)
    && StateCommit.Over(k.state, trust.addrs) && LogsWithin(k.undos, trust.addrs)
    && Describes(net.kit, k.derived, k.blocks)
    && k.work == WorkOf(net.kit.work, k.blocks)
    && k.filterHeaders == HeadersOf(net.kit.fold, k.blocks)
    && Holds(net.cr.hash, k.history, HistoryOf(net.cr, k.blocks))
  }

  /** The books with a validated block, everything derived brought along. */
  method Appended(net: Network, k: Books, b: Block, s: State, undo: seq<UndoEntry>, m: Mmr.Range, ghost x: Extend, ghost trust: Trust)
    returns (next: Books)
    requires Balanced(net, x, trust, k) && x(k.blocks, k.state, b) == Some(s) && Undone(s, undo) == k.state && WellKept(undo)
    requires m.Valid() && m.h == net.cr.hash && m.blocks == HistoryOf(net.cr, k.blocks + [b])
    requires StateCommit.Over(s, trust.addrs) && NamesOnly(undo, trust.addrs)
    ensures Balanced(net, x, trust, next) && next.blocks == k.blocks + [b] && next.work == k.work + net.kit.work(b.bits)
  {
    JournalStep(x, net.cr.genesis, k.blocks, k.state, k.undos, b, s, undo);
    WorkStep(net.kit.work, k.blocks, b);
    assert (k.blocks + [b])[..|k.blocks|] == k.blocks;
    var d := Connect(net.kit, k.derived, b, k.blocks);
    var v := Freeze(m);
    next := Books(k.blocks + [b], s, k.undos + [undo], k.work + net.kit.work(b.bits), d,
                  k.filterHeaders + [net.kit.fold(LastOf(k.filterHeaders), b)], v);
  }

  /** The books of a validated chain that shares the first `keep` blocks. */
  method Switched(net: Network, k: Books, keep: nat, suffix: seq<Block>, cand: seq<Block>, s: State, logs: seq<seq<UndoEntry>>,
                  m: Mmr.Range, candWork: nat, ghost x: Extend, ghost trust: Trust)
    returns (next: Books)
    requires Balanced(net, x, trust, k) && 1 <= keep <= |k.blocks| && cand == k.blocks[..keep] + suffix && HeightsApart(k.blocks)
    requires Journal(x, net.cr.genesis, cand, s, logs) && candWork == WorkOf(net.kit.work, cand)
    requires m.Valid() && m.h == net.cr.hash && m.blocks == HistoryOf(net.cr, cand)
    requires StateCommit.Over(s, trust.addrs) && LogsWithin(logs, trust.addrs)
    ensures Balanced(net, x, trust, next) && next.blocks == cand
  {
    var d := Switch(net.kit, k.derived, k.blocks, keep, suffix);
    var headers := SwitchHeaders(net.kit.fold, k.filterHeaders, k.blocks, keep, suffix);
    var v := Freeze(m);
    next := Books(cand, s, logs, candWork, d, headers, v);
  }

  method HistoryAt(net: Network, k: Books, fork: nat, ghost x: Extend, ghost trust: Trust) returns (m: Mmr.Range)
    requires Balanced(net, x, trust, k) && fork < |k.blocks|
    ensures fresh(m) && m.Valid() && m.h == net.cr.hash && m.blocks == HistoryOf(net.cr, k.blocks[..fork + 1])
  {
    if fork == |k.blocks| - 1 {
      assert k.blocks[..fork + 1] == k.blocks;
      m := Thaw(net.cr.hash, k.history, HistoryOf(net.cr, k.blocks));
    } else {
      m := RebuildHistory(net.cr, k.blocks[..fork + 1]);
    }
  }

  /** The ledger and the accumulator as they were after block `fork`, to work on. */
  method Rewound(net: Network, k: Books, fork: nat, ghost x: Extend, ghost trust: Trust) returns (s: State, m: Mmr.Range)
    requires Balanced(net, x, trust, k) && fork < |k.blocks|
    ensures Journal(x, net.cr.genesis, k.blocks[..fork + 1], s, k.undos[..fork + 1])
    ensures StateCommit.Over(s, trust.addrs) && LogsWithin(k.undos[..fork + 1], trust.addrs)
    ensures fresh(m) && m.Valid() && m.h == net.cr.hash && m.blocks == HistoryOf(net.cr, k.blocks[..fork + 1])
  {
    s := LedgerAt(k.blocks, k.state, k.undos, fork, x, net.cr.genesis, trust.addrs);
    m := HistoryAt(net, k, fork, x, trust);
    JournalPrefix(x, net.cr.genesis, k.blocks, k.state, k.undos, fork + 1);
  }

  /** Validates a suffix on a copy of the ledger rolled back to the fork. */
  method Validated(net: Network, k: Books, cache: NodeStores.CacheStore, fork: nat, suffix: seq<Block>, ghost x: Extend, ghost trust: Trust)
    returns (ok: bool, s: State, logs: seq<seq<UndoEntry>>, m: Mmr.Range)
    requires WellFormed(net, x) && Trusted(net.cr, net.scheme, trust) && Balanced(net, x, trust, k) && fork < |k.blocks|
    requires Honest(net, trust, cache) && SuffixWatched(net, x, trust, k.blocks[..fork + 1], suffix)
    modifies cache.Object()
    ensures Honest(net, trust, cache) && fresh(m) && m.Valid() && m.h == net.cr.hash
    ensures ok <==> Replay(x, net.cr.genesis, k.blocks[..fork + 1] + suffix).Some?
    ensures ok ==> Journal(x, net.cr.genesis, k.blocks[..fork + 1] + suffix, s, logs)
    ensures ok ==> m.blocks == HistoryOf(net.cr, k.blocks[..fork + 1] + suffix)
    ensures ok ==> StateCommit.Over(s, trust.addrs) && LogsWithin(logs, trust.addrs)
  {
    var base;
    base, m := Rewound(net, k, fork, x, trust);
    ok, s, logs := ApplySuffix(net, k.blocks[..fork + 1], suffix, base, k.undos[..fork + 1], m, cache, x, trust);
  }

  /** Whether fork choice ranks a candidate above the chain in the books, and its work. */
  method Outranks(net: Network, k: Books, fork: nat, suffix: seq<Block>, ghost x: Extend, ghost trust: Trust)
    returns (better: bool, candWork: nat)
    requires Balanced(net, x, trust, k) && fork < |k.blocks|
    ensures candWork == WorkOf(net.kit.work, k.blocks[..fork + 1] + suffix)
    ensures better <==> Better(RankOf(net.kit.work, k.blocks[..fork + 1] + suffix), RankOf(net.kit.work, k.blocks))
  {
    ghost var cand := k.blocks[..fork + 1] + suffix;
    candWork := CandidateWork(net.kit.work, k.blocks, fork + 1, suffix);
    var candTip := if |suffix| > 0 then suffix[|suffix| - 1].hash else k.blocks[fork].hash;
    assert candTip == cand[|cand| - 1].hash;
    better := candWork > k.work || (candWork == k.work && Before(candTip, k.blocks[|k.blocks| - 1].hash));
  }

  class Node {
    const net: Network
    const cache: NodeStores.CacheStore
    ghost const x: Extend
    ghost const trust: Trust
    var blocks: seq<Block>
    var state: State
    var undos: seq<seq<UndoEntry>>
    var work: nat
    var derived: Derived
    var filterHeaders: seq<Digest>
    var history: Accumulator

    function Now(): (k: Books)
      reads this
    {
      Books(blocks, state, undos, work, derived, filterHeaders, history)
    }

    ghost predicate Valid()
      reads this
    {
      Balanced(net, x, trust, Now())
    }

    /** Whatever the trie cache still holds is honest. */
    ghost predicate Backed()
      reads cache.Object()
    {
      Honest(net, trust, cache) && cache.Object() != this
    }

    constructor (net: Network, cache: NodeStores.CacheStore, ghost x: Extend, ghost trust: Trust)
      requires WellFormed(net, x) && Honest(net, trust, cache)
      ensures Valid() && Backed() && this.net == net && this.cache == cache && this.x == x && this.trust == trust && blocks == [net.cr.genesis]
    {
      var genesis := net.cr.genesis;
      this.net, this.cache, this.x, this.trust := net, cache, x, trust;
      blocks, undos, state := [genesis], [[]], map[];
      work := net.kit.work(genesis.bits);
      derived := AtGenesis();
      filterHeaders := [net.kit.fold([], genesis)];
      history := Accumulator([], [], 0);
      NothingIndexed(net.kit, genesis);
      assert [genesis][..0] == [];
      assert !InHistory(net.cr, genesis.index);
      assert HistoryOf(net.cr, [genesis]) == [] + [];
      assert HeadersOf(net.kit.fold, [genesis]) == [] + [net.kit.fold([], genesis)];
    }

    /** Appends a block that follows the tip by every rule, and only such a block. */
    method AddBlock(b: Block) returns (ok: bool)
      requires WellFormed(net, x) && Trusted(net.cr, net.scheme, trust) && Valid() && Backed()
      requires trust.watched(blocks, state, b)
      modifies this, cache.Object()
      ensures Valid() && Backed()
      ensures ok <==> x(old(blocks), old(state), b).Some?
      ensures ok ==> blocks == old(blocks) + [b] && work == old(work) + net.kit.work(b.bits)
      ensures !ok ==> unchanged(this)
    {
      var st, m := Copies();
      var c := CommitterOn(net, cache, blocks, state, x, trust);
      ok := ApplyNext(net, blocks, b, st, m, c, x, trust);
      if ok {
        Append(b, st.state, st.undo, m);
      }
    }

    /** Puts new books in place of the old. */
    method Install(k: Books)
      requires Balanced(net, x, trust, k) && Backed()
      modifies this
      ensures Valid() && Backed() && Now() == k
    {
      blocks, state, undos, work, derived, filterHeaders, history :=
        k.blocks, k.state, k.undos, k.work, k.derived, k.filterHeaders, k.history;
    }

    /** Copies of the ledger and the accumulator to work on. */
    method Copies() returns (st: Accounts, m: Mmr.Range)
      requires Valid() && Backed()
      ensures fresh(st) && st.Valid() && st.state == state && st.undo == []
      ensures fresh(m) && m.Valid() && m.h == net.cr.hash && m.blocks == HistoryOf(net.cr, blocks)
      ensures Backed()
    {
      st := new Accounts(state);
      m := Thaw(net.cr.hash, history, HistoryOf(net.cr, blocks));
    }

    method Append(b: Block, s: State, undo: seq<UndoEntry>, m: Mmr.Range)
      requires Valid() && Backed() && x(blocks, state, b) == Some(s) && Undone(s, undo) == state && WellKept(undo)
      requires m.Valid() && m.h == net.cr.hash && m.blocks == HistoryOf(net.cr, blocks + [b])
      requires StateCommit.Over(s, trust.addrs) && NamesOnly(undo, trust.addrs)
      modifies this
      ensures Valid() && Backed() && blocks == old(blocks) + [b] && work == old(work) + net.kit.work(b.bits)
    {
      var k := Appended(net, Now(), b, s, undo, m, x, trust);
      Install(k);
    }

    /** Turns the address index on; from then on every call keeps it in step. */
    method EnableAddressIndex()
      requires Valid()
      modifies this
      ensures Valid() && blocks == old(blocks) && state == old(state) && derived.addrIndex.Some?
    {
      var idx := BuildAddressIndex(net.kit, blocks);
      derived := derived.(addrIndex := Some(idx));
    }

    /** Replaces the blocks above `fork` with `suffix` exactly when the finality guards allow it,
        the result ranks above the current chain, and it is valid. */
    method Reorg(fork: nat, suffix: seq<Block>) returns (v: Verdict)
      requires WellFormed(net, x) && Trusted(net.cr, net.scheme, trust) && Valid() && Backed() && fork < |blocks|
      requires SuffixWatched(net, x, trust, blocks[..fork + 1], suffix)
      modifies this, cache.Object()
      ensures Valid() && Backed()
      ensures v == Decide(net, x, old(blocks), fork, suffix)
      ensures if v == Adopted then blocks == old(blocks)[..fork + 1] + suffix else unchanged(this)
    {
      if fork < net.checkpoint || |blocks| - 1 - fork > MAX_REORG_DEPTH {
        return Refused;
      }
      var better, candWork := Prefers(fork, suffix);
      if !better {
        return NotBetter;
      }
      var ok := TrySwitch(fork, suffix, candWork);
      return if ok then Adopted else Invalid;
    }

    /** Validates a suffix on a copy of the ledger rolled back to the fork, and commits to it only
        when every block passed. */
    method TrySwitch(fork: nat, suffix: seq<Block>, candWork: nat) returns (ok: bool)
      requires WellFormed(net, x) && Trusted(net.cr, net.scheme, trust) && Valid() && Backed() && fork < |blocks|
      requires SuffixWatched(net, x, trust, blocks[..fork + 1], suffix)
      requires candWork == WorkOf(net.kit.work, blocks[..fork + 1] + suffix)
      modifies this, cache.Object()
      ensures Valid() && Backed()
      ensures ok <==> Replay(x, net.cr.genesis, old(blocks)[..fork + 1] + suffix).Some?
      ensures if ok then blocks == old(blocks)[..fork + 1] + suffix else unchanged(this)
    {
      var s, logs, m;
      ValidHeightsApart(x, net.cr, blocks);
      ok, s, logs, m := Validated(net, Now(), cache, fork, suffix, x, trust);
      if ok {
        Adopt(fork + 1, suffix, blocks[..fork + 1] + suffix, s, logs, m, candWork);
      }
    }

    /** Whether fork choice ranks a candidate above the current chain, and its work. */
    method Prefers(fork: nat, suffix: seq<Block>) returns (better: bool, candWork: nat)
      requires Valid() && Backed() && fork < |blocks|
      ensures Backed() && candWork == WorkOf(net.kit.work, blocks[..fork + 1] + suffix)
      ensures better <==> Better(RankOf(net.kit.work, blocks[..fork + 1] + suffix), RankOf(net.kit.work, blocks))
    {
      better, candWork := Outranks(net, Now(), fork, suffix, x, trust);
    }

    /** Swaps a validated chain in. */
    method Adopt(keep: nat, suffix: seq<Block>, cand: seq<Block>, s: State, logs: seq<seq<UndoEntry>>,
                 m: Mmr.Range, candWork: nat)
      requires Valid() && Backed() && 1 <= keep <= |blocks| && cand == blocks[..keep] + suffix && HeightsApart(blocks)
      requires Journal(x, net.cr.genesis, cand, s, logs) && candWork == WorkOf(net.kit.work, cand)
      requires m.Valid() && m.h == net.cr.hash && m.blocks == HistoryOf(net.cr, cand)
      requires StateCommit.Over(s, trust.addrs) && LogsWithin(logs, trust.addrs)
      modifies this
      ensures Valid() && Backed() && blocks == cand
    {
      var k := Switched(net, Now(), keep, suffix, cand, s, logs, m, candWork, x, trust);
      Install(k);
    }

    /** Replaces the blocks above a height we hold. */
    method ReorgFrom(forkHeight: nat, suffix: seq<Block>) returns (v: Verdict)
      requires WellFormed(net, x) && Trusted(net.cr, net.scheme, trust) && Valid() && Backed()
      requires forkHeight < |blocks| ==> SuffixWatched(net, x, trust, blocks[..forkHeight + 1], suffix)
      modifies this, cache.Object()
      ensures Valid() && Backed()
      ensures v == DecideFrom(net, x, old(blocks), forkHeight, suffix)
      ensures v == Adopted ==> blocks == old(blocks)[..forkHeight + 1] + suffix
      ensures v != Adopted ==> unchanged(this)
    {
      if |suffix| == 0 {
        return NotBetter;
      }
      if forkHeight >= |blocks| {
        return Invalid;
      }
      v := Reorg(forkHeight, suffix);
    }

    method SharedWith(incoming: seq<Block>) returns (n: nat)
      requires Backed()
      ensures n == Shared(blocks, incoming) && Backed()
    {
      n := CommonPrefix(blocks, incoming);
    }

    /** Adopts a whole competing chain when fork choice prefers it. */
    method ReplaceChain(incoming: seq<Block>) returns (v: Verdict)
      requires WellFormed(net, x) && Trusted(net.cr, net.scheme, trust) && Valid() && Backed()
      requires ChainWatched(net, x, trust, blocks, incoming)
      modifies this, cache.Object()
      ensures Valid() && Backed()
      ensures v == DecideChain(net, x, old(blocks), incoming)
      ensures v == Adopted ==> blocks == Spliced(old(blocks), incoming)
      ensures v != Adopted ==> unchanged(this)
    {
      if |incoming| == 0 || incoming[0].hash != blocks[0].hash {
        return Invalid;
      }
      var n := SharedWith(incoming);
      WatchedAbove(net, x, trust, blocks, incoming, n);
      v := Reorg(n - 1, incoming[n..]);
    }
  }

  /** What taking a whole chain that is offered can come upon is covered. */
  ghost predicate ChainWatched(net: Network, x: Extend, trust: Trust, blocks: seq<Block>, incoming: seq<Block>) {
    var n := Shared(blocks, incoming);
    n > 0 ==> SuffixWatched(net, x, trust, blocks[..n], incoming[n..])
  }

  lemma WatchedAbove(net: Network, x: Extend, trust: Trust, blocks: seq<Block>, incoming: seq<Block>, n: nat)
    requires ChainWatched(net, x, trust, blocks, incoming) && n == Shared(blocks, incoming) && n > 0
    ensures n - 1 < |blocks| && n <= |incoming| && SuffixWatched(net, x, trust, blocks[..n - 1 + 1], incoming[n..])
  {
    assert blocks[..n - 1 + 1] == blocks[..n];
  }

  lemma ValidHeightsApart(x: Extend, cr: Rulebook, blocks: seq<Block>)
    requires Obeys(x, cr) && cr.genesis.index == 0 && Replay(x, cr.genesis, blocks).Some?
    ensures HeightsApart(blocks)
  {
    forall i, j | 0 <= i < j < |blocks| ensures blocks[i].index != blocks[j].index {
      HeightIsPosition(x, cr, blocks, i);
      HeightIsPosition(x, cr, blocks, j);
    }
  }

  /** What becomes of a suffix offered at a fork point. */
  ghost function Decide(net: Network, x: Extend, blocks: seq<Block>, fork: nat, suffix: seq<Block>): (v: Verdict)
    requires fork < |blocks|
  {
    var cand := blocks[..fork + 1] + suffix;
    if fork < net.checkpoint || |blocks| - 1 - fork > MAX_REORG_DEPTH then Refused
    else if !Better(RankOf(net.kit.work, cand), RankOf(net.kit.work, blocks)) then NotBetter
    else if Replay(x, net.cr.genesis, cand).None? then Invalid else Adopted
  }

  ghost function DecideFrom(net: Network, x: Extend, blocks: seq<Block>, forkHeight: nat, suffix: seq<Block>): (v: Verdict) {
    if suffix == [] then NotBetter else if forkHeight >= |blocks| then Invalid else Decide(net, x, blocks, forkHeight, suffix)
  }

  /** What becomes of a whole chain that is offered: it is taken as a suffix of what the two share. */
  ghost function DecideChain(net: Network, x: Extend, blocks: seq<Block>, incoming: seq<Block>): (v: Verdict)
    requires blocks != []
  {
    if incoming == [] || incoming[0].hash != blocks[0].hash then Invalid
    else
      var n := Shared(blocks, incoming);
      Decide(net, x, blocks, n - 1, incoming[n..])
  }

  /** How many leading blocks two chains share, by hash. */
  function Shared(a: seq<Block>, b: seq<Block>): (n: nat)
    ensures n <= |a| && n <= |b| && (a != [] && b != [] && a[0].hash == b[0].hash ==> n >= 1)
  {
    if a == [] || b == [] || a[0].hash != b[0].hash then 0 else 1 + Shared(a[1..], b[1..])
  }

  lemma {:induction false} SharedIs(a: seq<Block>, b: seq<Block>, n: nat)
    requires n <= |a| && n <= |b| && forall i :: 0 <= i < n ==> a[i].hash == b[i].hash
    requires n < |a| && n < |b| ==> a[n].hash != b[n].hash
    ensures Shared(a, b) == n
  {
    if n > 0 {
      SharedIs(a[1..], b[1..], n - 1);
    }
  }

  lemma {:induction false} SharedAgree(a: seq<Block>, b: seq<Block>, i: nat)
    requires i < Shared(a, b)
    ensures a[i].hash == b[i].hash
  {
    if i > 0 {
      SharedAgree(a[1..], b[1..], i - 1);
    }
  }

  /** Our share of the common prefix with the rest of theirs. */
  ghost function Spliced(a: seq<Block>, b: seq<Block>): (c: seq<Block>) {
    a[..Shared(a, b)] + b[Shared(a, b)..]
  }

  /** Blocks at one height with one hash are one block. */
  ghost predicate NoClash(a: seq<Block>, b: seq<Block>) {
    forall i :: 0 <= i < |a| && i < |b| && a[i].hash == b[i].hash ==> a[i] == b[i]
  }

  method CommonPrefix(a: seq<Block>, b: seq<Block>) returns (n: nat)
    ensures n == Shared(a, b)
  {
    n := 0;
    while n < |a| && n < |b| && a[n].hash == b[n].hash
      invariant n <= |a| && n <= |b| && forall i :: 0 <= i < n ==> a[i].hash == b[i].hash
    {
      n := n + 1;
    }
    SharedIs(a, b, n);
  }

  /** Where hashes do not clash, the spliced chain is theirs. */
  lemma SplicedChain(a: seq<Block>, b: seq<Block>)
    requires NoClash(a, b)
    ensures Spliced(a, b) == b
  {
    var n := Shared(a, b);
    forall i | 0 <= i < n ensures a[i] == b[i] {
      SharedAgree(a, b, i);
    }
  }
}
