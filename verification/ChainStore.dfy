/** A node's chain: extending it, and switching to a better one.  After every call, accepted or
    not, the ledger is a fresh replay of the blocks and all that is kept beside it is what a walk
    of the blocks gives; a refused call changes nothing. */
module ChainStore {
  import opened Bytes
  import opened Transactions
  import opened Ledger
  import opened BlockLedger
  import opened LedgerStore
  import opened BlockApply
  import opened Chain
  import opened ChainDerived
  import opened ForkChoice
  import opened LedgerCommit
  import NodeStores
  import StateCommit
  import Mmr

  const MAX_REORG_DEPTH := 100

  /** The rules of one network: as functions to run, and as the rulebook they follow. */
  datatype Network = Network(r: Rules, cr: Rulebook, kit: Kit, checkpoint: nat, scheme: StateCommit.Scheme<Account>)

  type Committer = StateCommit.StateCommitter<Account>

  ghost predicate WellFormed(net: Network, x: Extend) {
    && Implements(net.cr.consensus, net.r) && Obeys(x, net.cr)
    && net.cr.genesis.index == 0 && net.cr.genesis.txs == [] && net.kit.burnedIn(net.cr.genesis) == 0
    && net.cr.genesis.stateRoot == net.cr.stateRoot(map[])
  }

  /** Undo log `i` leads from the ledger after block `i` back to the one before it. */
  ghost predicate Leads(x: Extend, genesis: Block, blocks: seq<Block>, undos: seq<seq<UndoEntry>>, i: nat)
    requires 1 <= i < |blocks| == |undos|
  {
    var before, after := Replay(x, genesis, blocks[..i]), Replay(x, genesis, blocks[..i + 1]);
    before.Some? && after.Some? && Undone(after.value, undos[i]) == before.value && WellKept(undos[i])
  }

  /** The blocks replay to `s`, and every undo log leads back. */
  ghost predicate Journal(x: Extend, genesis: Block, blocks: seq<Block>, s: State, undos: seq<seq<UndoEntry>>) {
    && Replay(x, genesis, blocks) == Some(s)
    && |undos| == |blocks|
    && forall i :: 1 <= i < |blocks| ==> Leads(x, genesis, blocks, undos, i)
  }

  lemma JournalStep(x: Extend, genesis: Block, blocks: seq<Block>, s: State, undos: seq<seq<UndoEntry>>,
                    b: Block, t: State, undo: seq<UndoEntry>)
    requires Journal(x, genesis, blocks, s, undos) && blocks != [] && x(blocks, s, b) == Some(t)
    requires Undone(t, undo) == s && WellKept(undo)
    ensures Journal(x, genesis, blocks + [b], t, undos + [undo])
  {
    var more, logs := blocks + [b], undos + [undo];
    ReplayStep(x, genesis, blocks, b);
    forall i | 1 <= i < |more| ensures Leads(x, genesis, more, logs, i) {
      if i < |blocks| {
        assert Leads(x, genesis, blocks, undos, i);
        assert more[..i] == blocks[..i] && more[..i + 1] == blocks[..i + 1] && logs[i] == undos[i];
      } else {
        assert more[..i] == blocks && more[..i + 1] == more;
      }
    }
  }

  lemma JournalPrefix(x: Extend, genesis: Block, blocks: seq<Block>, s: State, undos: seq<seq<UndoEntry>>, n: nat)
    requires Journal(x, genesis, blocks, s, undos) && 1 <= n <= |blocks|
    ensures Replay(x, genesis, blocks[..n]).Some?
    ensures Journal(x, genesis, blocks[..n], Replay(x, genesis, blocks[..n]).value, undos[..n])
  {
    ReplayPrefix(x, genesis, blocks, n);
    var less, logs := blocks[..n], undos[..n];
    forall i | 1 <= i < n ensures Leads(x, genesis, less, logs, i) {
      assert Leads(x, genesis, blocks, undos, i);
      assert less[..i] == blocks[..i] && less[..i + 1] == blocks[..i + 1] && logs[i] == undos[i];
    }
  }

  /** The ledger with a log reversed, entry by entry. */
  method ApplyUndo(s: State, undo: seq<UndoEntry>) returns (t: State)
    ensures t == Undone(s, undo)
  {
    t := s;
    var i := |undo|;
    assert undo[..i] == undo;
    while i > 0
      invariant 0 <= i <= |undo| && Undone(t, undo[..i]) == Undone(s, undo)
    {
      i := i - 1;
      assert undo[..i + 1][..i] == undo[..i] && undo[..i + 1][i] == undo[i];
      t := Restore(t, undo[i]);
    }
  }

  /** The contents of an accumulator. */
  datatype Accumulator = Accumulator(peaks: seq<Bytes>, heights: seq<nat>, leaves: nat)

  /** These are the peaks of the given leaves. */
  ghost predicate Holds(h: HashFn, v: Accumulator, leaves: seq<Bytes>) {
    |v.peaks| == |v.heights| && v.leaves == |leaves| && Mmr.Zip(v.peaks, v.heights) == Mmr.PeaksOf(h, leaves)
  }

  /** A private copy to work on. */
  method Thaw(h: HashFn, v: Accumulator, ghost leaves: seq<Bytes>) returns (m: Mmr.Range)
    requires Holds(h, v, leaves)
    ensures fresh(m) && m.Valid() && m.h == h && m.blocks == leaves
  {
    m := new Mmr.Range(h);
    m.peaks, m.peakHeights, m.leaves, m.blocks := v.peaks, v.heights, v.leaves, leaves;
  }

  method Freeze(m: Mmr.Range) returns (v: Accumulator)
    requires m.Valid()
    ensures Holds(m.h, v, m.blocks)
  {
    v := Accumulator(m.peaks, m.peakHeights, m.leaves);
  }

  /** The accumulator recomputed from the block list. */
  method RebuildHistory(cr: Rulebook, blocks: seq<Block>) returns (m: Mmr.Range)
    ensures fresh(m) && m.Valid() && m.h == cr.hash && m.blocks == HistoryOf(cr, blocks)
  {
    m := new Mmr.Range(cr.hash);
    for i := 0 to |blocks|
      invariant fresh(m) && m.Valid() && m.h == cr.hash && m.blocks == HistoryOf(cr, blocks[..i])
    {
      assert blocks[..i + 1][..i] == blocks[..i];
      assert m.blocks + [] == m.blocks;
      if InHistory(cr, blocks[i].index) {
        m.Append(blocks[i].hash);
      }
    }
    assert blocks[..|blocks|] == blocks;
  }

  /** The root the accumulator commits for the next block. */
  method ExpectedHistory(cr: Rulebook, m: Mmr.Range, height: Word, ghost blocks: seq<Block>) returns (d: Bytes)
    requires m.Valid() && m.h == cr.hash && m.blocks == HistoryOf(cr, blocks)
    ensures d == HistoryRootAfter(cr, blocks, height)
  {
    if !cr.historyFrom(height) {
      return [];
    }
    d := m.Root();
  }

  /** Checks everything that does not depend on the ledger. */
  method CheckStructure(cr: Rulebook, blocks: seq<Block>, b: Block, m: Mmr.Range) returns (ok: bool)
    requires blocks != [] && m.Valid() && m.h == cr.hash && m.blocks == HistoryOf(cr, blocks)
    ensures ok <==> Follows(cr, blocks, b)
  {
    var tip := blocks[|blocks| - 1];
    if b.index != tip.index + 1 || b.prevHash != tip.hash {
      return false;
    }
    var want := ExpectedHistory(cr, m, b.index, blocks);
    ok := b.historyRoot == want && cr.structure(blocks, b) && |b.txs| > 0 && IsCoinbase(b.txs[0]);
  }

  /** A committer of this network, standing at the root of `s` over an honest cache of its own. */
  ghost predicate Poised(net: Network, trust: Trust, c: Committer, s: State)
    reads c, c.cache.Object()
  {
    c.h == net.cr.hash && c.s == net.scheme && c.At(s, trust.addrs, trust.u)
  }

  ghost predicate Honest(net: Network, trust: Trust, cache: NodeStores.CacheStore)
    reads cache.Object()
  {
    NodeStores.Sincere(net.cr.hash, trust.u, cache.View())
  }

  /** The root after a block, from the accounts its log names, against the one the block claims. */
  method CheckRoot(net: Network, blocks: seq<Block>, b: Block, st: Accounts, c: Committer, ghost trust: Trust) returns (ok: bool)
    requires blocks != [] && Follows(net.cr, blocks, b) && ApplyBlock(net.cr.consensus, blocks, b, st.base).Ok?
    requires ApplyBlock(net.cr.consensus, blocks, b, st.base).value.state == st.state
    requires st.Valid() && Named(st.undo) <= TouchedIn(b, |b.txs|)
    requires Trusted(net.cr, net.scheme, trust) && Poised(net, trust, c, st.base) && trust.watched(blocks, st.base, b)
    requires c.cache.Object() != st
    modifies c, c.cache.Object()
    ensures ok <==> b.stateRoot == net.cr.stateRoot(st.state)
    ensures Poised(net, trust, c, st.state) && Honest(net, trust, c.cache) && NamesOnly(st.undo, trust.addrs)
  {
    assert Watched(net.cr, net.scheme, trust, blocks, st.base, b);
    LogWithin(st.undo, b, trust.addrs);
    LogPathCovered(net.cr.hash, net.scheme, trust, st.state, st.undo);
    ok := RootMatches(c, net.cr, st.state, st.undo, b, trust.addrs, trust.u);
    NodeStores.SincereIs(net.cr.hash, trust.u, c.cache);
  }

  lemma LogWithin(undo: seq<UndoEntry>, b: Block, addrs: iset<Address>)
    requires Named(undo) <= TouchedIn(b, |b.txs|) && forall a :: a in TouchedIn(b, |b.txs|) ==> a in addrs
    ensures NamesOnly(undo, addrs)
  {
    forall i | 0 <= i < |undo| ensures undo[i].addr in addrs {
      assert undo[i].addr in Named(undo);
    }
  }

  /** Validates a block as the successor of `blocks` and applies it in place; on any error the
      ledger is rolled back and the accumulator is not advanced. */
  method ApplyNext(net: Network, blocks: seq<Block>, b: Block, st: Accounts, m: Mmr.Range, c: Committer, ghost x: Extend, ghost trust: Trust)
    returns (ok: bool)
    requires WellFormed(net, x) && blocks != [] && st.Valid() && st.undo == []
    requires m.Valid() && m.h == net.cr.hash && m.blocks == HistoryOf(net.cr, blocks)
    requires Trusted(net.cr, net.scheme, trust) && Poised(net, trust, c, st.state) && trust.watched(blocks, st.state, b)
    requires c.cache.Object() != st && c.cache.Object() != m
    modifies st, m, c, c.cache.Object()
    ensures st.Valid() && m.Valid() && st.base == old(st.state) && Honest(net, trust, c.cache)
    ensures ok ==> x(blocks, old(st.state), b) == Some(st.state) && m.blocks == HistoryOf(net.cr, blocks + [b])
    ensures ok ==> Poised(net, trust, c, st.state) && NamesOnly(st.undo, trust.addrs)
    ensures !ok ==> x(blocks, old(st.state), b).None? && st.state == old(st.state) && m.blocks == old(m.blocks)
  {
    ghost var before := st.state;
    assert x(blocks, before, b) == Extended(net.cr, blocks, before, b);
    NodeStores.SincereIs(net.cr.hash, trust.u, c.cache);
    ok := CheckStructure(net.cr, blocks, b, m);
    if !ok {
      return;
    }
    ok := Attempt(net, blocks, b, st, c, trust);
    if !ok {
      return;
    }
    ok := Conclude(net, blocks, b, st, m, c, trust);
  }

  /** A block whose transactions applied is taken if its state root is right, and rolled back if not. */
  method Conclude(net: Network, blocks: seq<Block>, b: Block, st: Accounts, m: Mmr.Range, c: Committer, ghost trust: Trust) returns (ok: bool)
    requires blocks != [] && Follows(net.cr, blocks, b) && ApplyBlock(net.cr.consensus, blocks, b, st.base).Ok?
    requires ApplyBlock(net.cr.consensus, blocks, b, st.base).value.state == st.state
    requires st.Valid() && Named(st.undo) <= TouchedIn(b, |b.txs|) && m.Valid() && m.blocks == HistoryOf(net.cr, blocks)
    requires Trusted(net.cr, net.scheme, trust) && Poised(net, trust, c, st.base) && trust.watched(blocks, st.base, b)
    requires c.cache.Object() != st && c.cache.Object() != m
    modifies st, m, c, c.cache.Object()
    ensures st.Valid() && m.Valid() && st.base == old(st.base) && Honest(net, trust, c.cache)
    ensures ok <==> b.stateRoot == net.cr.stateRoot(old(st.state))
    ensures ok ==> st.state == old(st.state) && Poised(net, trust, c, st.state) && NamesOnly(st.undo, trust.addrs)
    ensures m.blocks == if ok then HistoryOf(net.cr, blocks + [b]) else old(m.blocks)
    ensures !ok ==> st.state == old(st.base)
  {
    ok := CheckRoot(net, blocks, b, st, c, trust);
    if ok {
      Advance(net, blocks, b, m, c, st.state, trust);
    } else {
      RollBack(net, st, c, trust);
    }
  }

  method Advance(net: Network, ghost blocks: seq<Block>, b: Block, m: Mmr.Range, ghost c: Committer, ghost s: State, ghost trust: Trust)
    requires m.Valid() && m.blocks == HistoryOf(net.cr, blocks)
    requires c.cache.Object() != m && Honest(net, trust, c.cache) && Poised(net, trust, c, s)
    modifies m
    ensures m.Valid() && m.blocks == HistoryOf(net.cr, blocks + [b])
    ensures Honest(net, trust, c.cache) && Poised(net, trust, c, s)
  {
    assert (blocks + [b])[..|blocks|] == blocks;
    assert m.blocks + [] == m.blocks;
    if InHistory(net.cr, b.index) {
      m.Append(b.hash);
    }
  }

  method RollBack(ghost net: Network, st: Accounts, ghost c: Committer, ghost trust: Trust)
    requires st.Valid() && c.cache.Object() != st && Honest(net, trust, c.cache)
    modifies st
    ensures st.Valid() && st.base == old(st.base) && st.state == st.base && Honest(net, trust, c.cache)
  {
    st.Revert();
  }

  /** Applies a block's transactions and coinbase, the committer waiting. */
  method Attempt(net: Network, blocks: seq<Block>, b: Block, st: Accounts, ghost c: Committer, ghost trust: Trust) returns (ok: bool)
    requires Implements(net.cr.consensus, net.r) && st.Valid() && st.undo == [] && b.txs != []
    requires c.cache.Object() != st && Poised(net, trust, c, st.state)
    modifies st
    ensures st.Valid() && st.base == old(st.state) && Poised(net, trust, c, st.base) && Honest(net, trust, c.cache)
    ensures ok <==> ApplyBlock(net.cr.consensus, blocks, b, st.base).Ok?
    ensures ok ==> ApplyBlock(net.cr.consensus, blocks, b, st.base).value.state == st.state && Named(st.undo) <= TouchedIn(b, |b.txs|)
    ensures !ok ==> st.state == old(st.state)
  {
    NodeStores.SincereIs(net.cr.hash, trust.u, c.cache);
    var burned;
    ok, burned := ApplyTxsAndCoinbase(net.r, blocks, b, st, net.cr.consensus);
  }

  ghost predicate LogsWithin(undos: seq<seq<UndoEntry>>, addrs: iset<Address>) {
    forall i :: 0 <= i < |undos| ==> NamesOnly(undos[i], addrs)
  }

  /** The ledger as it was after block `fork`, by reversing undo logs from the tip. */
  method LedgerAt(blocks: seq<Block>, s: State, undos: seq<seq<UndoEntry>>, fork: nat, ghost x: Extend, ghost genesis: Block, ghost addrs: iset<Address>)
    returns (t: State)
    requires Journal(x, genesis, blocks, s, undos) && fork < |blocks| && StateCommit.Over(s, addrs) && LogsWithin(undos, addrs)
    ensures Replay(x, genesis, blocks[..fork + 1]) == Some(t) && StateCommit.Over(t, addrs)
  {
    t := s;
    var i := |blocks| - 1;
    assert blocks[..i + 1] == blocks;
    while i > fork
      invariant fork <= i < |blocks|
      invariant Replay(x, genesis, blocks[..i + 1]) == Some(t) && StateCommit.Over(t, addrs)
    {
      assert Leads(x, genesis, blocks, undos, i);
      StaysOver(t, undos[i], addrs);
      t := ApplyUndo(t, undos[i]);
      i := i - 1;
    }
  }

  /** Starts a block's log, the committer waiting. */
  method NextLog(ghost net: Network, st: Accounts, ghost c: Committer, ghost trust: Trust)
    requires st.Valid() && c.cache.Object() != st && Poised(net, trust, c, st.state)
    modifies st
    ensures st.Valid() && st.state == st.base == old(st.state) && st.undo == [] && Poised(net, trust, c, st.state)
  {
    st.Begin();
  }

  /** Applies one block of a suffix and keeps its log. */
  method ApplyLogged(net: Network, cur: seq<Block>, b: Block, st: Accounts, logs: seq<seq<UndoEntry>>, m: Mmr.Range, c: Committer,
                     ghost x: Extend, ghost trust: Trust)
    returns (ok: bool, logs': seq<seq<UndoEntry>>)
    requires WellFormed(net, x) && cur != [] && st.Valid() && Journal(x, net.cr.genesis, cur, st.state, logs)
    requires m.Valid() && m.h == net.cr.hash && m.blocks == HistoryOf(net.cr, cur)
    requires Trusted(net.cr, net.scheme, trust) && Poised(net, trust, c, st.state) && LogsWithin(logs, trust.addrs)
    requires trust.watched(cur, st.state, b) && c.cache.Object() != st && c.cache.Object() != m
    modifies st, m, c, c.cache.Object()
    ensures st.Valid() && m.Valid() && Honest(net, trust, c.cache)
    ensures ok <==> x(cur, old(st.state), b).Some?
    ensures ok ==> Journal(x, net.cr.genesis, cur + [b], st.state, logs') && m.blocks == HistoryOf(net.cr, cur + [b])
    ensures ok ==> Poised(net, trust, c, st.state) && LogsWithin(logs', trust.addrs)
  {
    NextLog(net, st, c, trust);
    ok := ApplyNext(net, cur, b, st, m, c, x, trust);
    logs' := logs;
    if ok {
      JournalStep(x, net.cr.genesis, cur, st.base, logs, b, st.state, st.undo);
      logs' := logs + [st.undo];
    }
  }

  /** What taking a suffix block by block can come upon is covered, as far as its blocks are valid. */
  ghost predicate SuffixWatched(net: Network, x: Extend, trust: Trust, base: seq<Block>, suffix: seq<Block>) {
    forall i :: 0 <= i < |suffix| ==> StepWatched(net, x, trust, base, suffix, i)
  }

  ghost predicate StepWatched(net: Network, x: Extend, trust: Trust, base: seq<Block>, suffix: seq<Block>, i: nat)
    requires i < |suffix|
  {
    var cur := base + suffix[..i];
    Replay(x, net.cr.genesis, cur).Some? ==> trust.watched(cur, Replay(x, net.cr.genesis, cur).value, suffix[i])
  }

  /** A committer for building on a chain's last block. */
  method CommitterOn(net: Network, cache: NodeStores.CacheStore, blocks: seq<Block>, ghost s: State, ghost x: Extend, ghost trust: Trust)
    returns (c: Committer)
    requires WellFormed(net, x) && blocks != [] && Replay(x, net.cr.genesis, blocks) == Some(s)
    requires Trusted(net.cr, net.scheme, trust) && Honest(net, trust, cache) && StateCommit.Over(s, trust.addrs)
    ensures fresh(c) && c.cache == cache && Poised(net, trust, c, s)
  {
    assert blocks[..|blocks|] == blocks;
    NodeStores.SincereIs(net.cr.hash, trust.u, cache);
    c := CommitterAt(net.cr, net.cr.hash, net.scheme, cache, blocks, |blocks| - 1, x, trust.addrs, trust.u);
  }

  /** A copy of the ledger after a chain's last block, and a committer standing there. */
  method Workspace(net: Network, cache: NodeStores.CacheStore, blocks: seq<Block>, s: State, ghost x: Extend, ghost trust: Trust)
    returns (st: Accounts, c: Committer)
    requires WellFormed(net, x) && blocks != [] && Replay(x, net.cr.genesis, blocks) == Some(s)
    requires Trusted(net.cr, net.scheme, trust) && Honest(net, trust, cache) && StateCommit.Over(s, trust.addrs)
    ensures fresh(st) && st.Valid() && st.state == s && fresh(c) && c.cache == cache && Poised(net, trust, c, s)
  {
    c := CommitterOn(net, cache, blocks, s, x, trust);
    st := new Accounts(s);
  }

  /** Validates a suffix block by block on a working copy, with the state roots committed one from the
      other over the node's cache. */
  method ApplySuffix(net: Network, base: seq<Block>, suffix: seq<Block>, s: State, undos: seq<seq<UndoEntry>>,
                     m: Mmr.Range, cache: NodeStores.CacheStore, ghost x: Extend, ghost trust: Trust)
    returns (ok: bool, t: State, logs: seq<seq<UndoEntry>>)
    requires WellFormed(net, x) && base != [] && Journal(x, net.cr.genesis, base, s, undos)
    requires m.Valid() && m.h == net.cr.hash && m.blocks == HistoryOf(net.cr, base)
    requires Trusted(net.cr, net.scheme, trust) && Honest(net, trust, cache) && cache.Object() != m
    requires StateCommit.Over(s, trust.addrs) && LogsWithin(undos, trust.addrs) && SuffixWatched(net, x, trust, base, suffix)
    modifies m, cache.Object()
    ensures m.Valid() && Honest(net, trust, cache)
    ensures ok <==> Replay(x, net.cr.genesis, base + suffix).Some?
    ensures ok ==> Journal(x, net.cr.genesis, base + suffix, t, logs) && m.blocks == HistoryOf(net.cr, base + suffix)
    ensures ok ==> StateCommit.Over(t, trust.addrs) && LogsWithin(logs, trust.addrs)
  {
    var st, c := Workspace(net, cache, base, s, x, trust);
    logs := undos;
    var cur := base;
    WholeSuffix(base, suffix);
    for i := 0 to |suffix|
      invariant st.Valid() && m.Valid() && cur == base + suffix[..i]
      invariant Journal(x, net.cr.genesis, cur, st.state, logs) && m.blocks == HistoryOf(net.cr, cur)
      invariant Poised(net, trust, c, st.state) && LogsWithin(logs, trust.addrs)
    {
      assert StepWatched(net, x, trust, base, suffix, i);
      ok, logs := ApplyLogged(net, cur, suffix[i], st, logs, m, c, x, trust);
      if !ok {
        NotTaken(x, net.cr.genesis, base, suffix, i);
        return ok, s, undos;
      }
      SnocSuffix(base, suffix, i);
      cur := cur + [suffix[i]];
    }
    return true, st.state, logs;
  }

  /** A block refused on top of a prefix makes the whole chain invalid. */
  lemma NotTaken(x: Extend, genesis: Block, base: seq<Block>, suffix: seq<Block>, i: nat)
    requires base != [] && i < |suffix| && Replay(x, genesis, base + suffix[..i]).Some?
    requires x(base + suffix[..i], Replay(x, genesis, base + suffix[..i]).value, suffix[i]).None?
    ensures Replay(x, genesis, base + suffix).None?
  {
    var cur, whole := base + suffix[..i], base + suffix;
    ReplayStep(x, genesis, cur, suffix[i]);
    assert whole[..|cur| + 1] == cur + [suffix[i]];
    if Replay(x, genesis, whole).Some? {
      ReplayPrefix(x, genesis, whole, |cur| + 1);
    }
  }
}
