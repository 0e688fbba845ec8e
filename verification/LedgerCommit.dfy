/** The committer fed by the ledger's own undo logs. */
module LedgerCommit {
  import opened Bytes
  import opened ByteOrder
  import opened Transactions
  import opened Ledger
  import opened LedgerSums
  import opened BlockLedger
  import opened Chain
  import BlockApply
  import NodeStores
  import LedgerStore
  import StateCommit
  import StateChanged

  function Addresses(undo: seq<LedgerStore.UndoEntry>): (out: seq<Address>)
    ensures |out| == |undo| && forall i :: 0 <= i < |undo| ==> out[i] == undo[i].addr
  {
    if undo == [] then [] else Addresses(undo[..|undo| - 1]) + [undo[|undo| - 1].addr]
  }

  /** A block's undo log names every account on which the ledgers before and after it differ. */
  lemma LogNamesChanges(s: State, undo: seq<LedgerStore.UndoEntry>)
    ensures StateCommit.AgreeOutside(LedgerStore.Undone(s, undo), s, Addresses(undo))
  {
    LedgerStore.UndoneAgrees(s, undo);
  }

  /** The accounts a log names are known, and `u` holds all that committing through it can hash. */
  ghost predicate LogCovered(h: HashFn, s: StateCommit.Scheme<Account>, state: State, undo: seq<LedgerStore.UndoEntry>,
                             addrs: iset<Address>, u: iset<Bytes>)
    requires StateCommit.Apart(s, addrs)
  {
    && StateCommit.Over(state, addrs) && (forall i :: 0 <= i < |undo| ==> undo[i].addr in addrs)
    && StateCommit.Covers(u, StateCommit.Visited(h, s, LedgerStore.Undone(state, undo), state, Addresses(undo), addrs))
  }

  lemma LogCovers(h: HashFn, s: StateCommit.Scheme<Account>, state: State, undo: seq<LedgerStore.UndoEntry>,
                  addrs: iset<Address>, u: iset<Bytes>)
    requires StateCommit.Apart(s, addrs) && LogCovered(h, s, state, undo, addrs, u)
    ensures StateCommit.BlockCovered(h, s, LedgerStore.Undone(state, undo), state, Addresses(undo), addrs, u)
  {
    LogNamesChanges(state, undo);
  }

  /** So whatever a block did to the ledger, committing through its log gives the root of a rebuild
      from the whole ledger, and the next block starts from there. */
  method CommitBlock(c: StateCommit.StateCommitter<Account>, state: State, undo: seq<LedgerStore.UndoEntry>, ghost addrs: iset<Address>, ghost u: iset<Bytes>)
    returns (root: Digest)
    requires c.At(LedgerStore.Undone(state, undo), addrs, u) && LogCovered(c.h, c.s, state, undo, addrs, u)
    modifies c, c.cache.Object()
    ensures c.At(state, addrs, u) && root == StateCommit.StateRoot(c.h, c.s, state, addrs)
  {
    LogCovers(c.h, c.s, state, undo, addrs, u);
    root := c.RootAfter(state, Addresses(undo), LedgerStore.Undone(state, undo), addrs, u);
  }

  /** The rulebook's state root is the root of the account trie. */
  ghost predicate TrieRooted(cr: Rulebook, h: HashFn, s: StateCommit.Scheme<Account>, addrs: iset<Address>)
    requires StateCommit.Apart(s, addrs)
  {
    forall l {:trigger cr.stateRoot(l)} :: StateCommit.Over(l, addrs) ==> cr.stateRoot(l) == StateCommit.StateRoot(h, s, l, addrs)
  }

  /** Every block of a valid chain stores the root of the ledger it leaves, genesis that of the empty
      one. */
  lemma StoredRoot(x: Extend, cr: Rulebook, blocks: seq<Block>, at: nat)
    requires Obeys(x, cr) && cr.genesis.stateRoot == cr.stateRoot(map[]) && Replay(x, cr.genesis, blocks).Some? && at < |blocks|
    ensures Replay(x, cr.genesis, blocks[..at + 1]).Some?
    ensures blocks[at].stateRoot == cr.stateRoot(Replay(x, cr.genesis, blocks[..at + 1]).value)
  {
    ReplayPrefix(x, cr.genesis, blocks, at + 1);
    LastRoot(x, cr, blocks[..at + 1]);
  }

  lemma LastRoot(x: Extend, cr: Rulebook, blocks: seq<Block>)
    requires Obeys(x, cr) && cr.genesis.stateRoot == cr.stateRoot(map[]) && Replay(x, cr.genesis, blocks).Some?
    ensures blocks != [] && blocks[|blocks| - 1].stateRoot == cr.stateRoot(Replay(x, cr.genesis, blocks).value)
  {
    var n := |blocks| - 1;
    if n > 0 {
      TakenBlock(x, cr, blocks[..n], Replay(x, cr.genesis, blocks[..n]).value, blocks[n]);
    }
  }

  /** A committer for building on the block at `at`: naming that block's stored root is all it takes,
      over a cache that other forks and refused blocks share. */
  method CommitterAt(cr: Rulebook, h: HashFn, s: StateCommit.Scheme<Account>, cache: NodeStores.CacheStore, blocks: seq<Block>, at: nat,
                     ghost x: Extend, ghost addrs: iset<Address>, ghost u: iset<Bytes>)
    returns (c: StateCommit.StateCommitter<Account>)
    requires Obeys(x, cr) && cr.genesis.stateRoot == cr.stateRoot(map[]) && Replay(x, cr.genesis, blocks).Some? && at < |blocks|
    requires StateCommit.Apart(s, addrs) && TrieRooted(cr, h, s, addrs) && CollisionFree(h, u) && cache.Valid(h) && cache.Within(u)
    requires Replay(x, cr.genesis, blocks[..at + 1]).Some? && StateCommit.Over(Replay(x, cr.genesis, blocks[..at + 1]).value, addrs)
    ensures fresh(c) && c.h == h && c.s == s && c.cache == cache
    ensures c.At(Replay(x, cr.genesis, blocks[..at + 1]).value, addrs, u)
  {
    StoredRoot(x, cr, blocks, at);
    c := new StateCommit.StateCommitter(h, s, cache, blocks[at].stateRoot);
  }

  /** So the check of a block's state root through its undo log has the verdict of the rulebook, and
      leaves the cache fit for whatever is checked next. */
  method RootMatches(c: StateCommit.StateCommitter<Account>, cr: Rulebook, state: State, undo: seq<LedgerStore.UndoEntry>, b: Block,
                     ghost addrs: iset<Address>, ghost u: iset<Bytes>)
    returns (ok: bool)
    requires c.At(LedgerStore.Undone(state, undo), addrs, u) && LogCovered(c.h, c.s, state, undo, addrs, u)
    requires TrieRooted(cr, c.h, c.s, addrs)
    modifies c, c.cache.Object()
    ensures ok <==> b.stateRoot == cr.stateRoot(state)
    ensures c.At(state, addrs, u)
  {
    var root := CommitBlock(c, state, undo, addrs, u);
    assert cr.stateRoot(state) == root;
    ok := b.stateRoot == root;
  }

  /** What a node's commitments rest on: accounts with places of their own in the trie, preimages that do
      not collide, and the blocks whose checks come upon nothing else. */
  datatype Trust = Trust(addrs: iset<Address>, u: iset<Bytes>, watched: (seq<Block>, State, Block) -> bool)

  ghost predicate Trusted(cr: Rulebook, s: StateCommit.Scheme<Account>, trust: Trust) {
    && StateCommit.Apart(s, trust.addrs) && TrieRooted(cr, cr.hash, s, trust.addrs) && CollisionFree(cr.hash, trust.u)
    && forall blocks, before, b {:trigger trust.watched(blocks, before, b)} ::
         blocks != [] && trust.watched(blocks, before, b) ==> Watched(cr, s, trust, blocks, before, b)
  }

  /** Every block whose check is covered may be counted among them. */
  lemma TrustedOwn(cr: Rulebook, s: StateCommit.Scheme<Account>, addrs: iset<Address>, u: iset<Bytes>)
    requires StateCommit.Apart(s, addrs) && TrieRooted(cr, cr.hash, s, addrs) && CollisionFree(cr.hash, u)
    ensures Trusted(cr, s, TrustIn(cr, s, addrs, u))
  {
  }

  ghost function TrustIn(cr: Rulebook, s: StateCommit.Scheme<Account>, addrs: iset<Address>, u: iset<Bytes>): (trust: Trust)
    requires StateCommit.Apart(s, addrs)
  {
    Trust(addrs, u, (blocks: seq<Block>, before: State, b: Block) =>
      blocks != [] && Watched(cr, s, Trust(addrs, u, (_, _, _) => false), blocks, before, b))
  }

  /** All that the check of one block's state root can come upon is covered: the accounts it names, and
      the preimages of the trees between the ledger before it and the ledger after it. */
  ghost predicate Watched(cr: Rulebook, s: StateCommit.Scheme<Account>, trust: Trust, blocks: seq<Block>, before: State, b: Block)
    requires StateCommit.Apart(s, trust.addrs) && blocks != []
  {
    && (forall a :: a in BlockApply.TouchedIn(b, |b.txs|) ==> a in trust.addrs)
    && (Follows(cr, blocks, b) && ApplyBlock(cr.consensus, blocks, b, before).Ok? ==>
          PathCovered(cr.hash, s, trust, before, ApplyBlock(cr.consensus, blocks, b, before).value.state))
  }

  ghost predicate PathCovered(h: HashFn, s: StateCommit.Scheme<Account>, trust: Trust, before: State, after: State)
    requires StateCommit.Apart(s, trust.addrs)
  {
    var changes := SortedOf(StateChanged.Changed(before, after));
    StateCommit.Covers(trust.u, StateCommit.Visited(h, s, before, after, changes, trust.addrs))
  }

  ghost predicate NamesOnly(undo: seq<LedgerStore.UndoEntry>, addrs: iset<Address>) {
    forall i :: 0 <= i < |undo| ==> undo[i].addr in addrs
  }

  /** A log of known accounts leads from known accounts to known accounts. */
  lemma StaysOver(state: State, undo: seq<LedgerStore.UndoEntry>, addrs: iset<Address>)
    requires NamesOnly(undo, addrs)
    ensures StateCommit.Over(state, addrs) <==> StateCommit.Over(LedgerStore.Undone(state, undo), addrs)
  {
    LedgerStore.UndoneAgrees(state, undo);
  }

  lemma LogPathCovered(h: HashFn, s: StateCommit.Scheme<Account>, trust: Trust, state: State, undo: seq<LedgerStore.UndoEntry>)
    requires StateCommit.Apart(s, trust.addrs) && NamesOnly(undo, trust.addrs)
    requires StateCommit.Over(LedgerStore.Undone(state, undo), trust.addrs)
    requires PathCovered(h, s, trust, LedgerStore.Undone(state, undo), state)
    ensures LogCovered(h, s, state, undo, trust.addrs, trust.u)
  {
    StaysOver(state, undo, trust.addrs);
    LogNamesChanges(state, undo);
    StateChanged.VisitedChanged(h, s, LedgerStore.Undone(state, undo), state, Addresses(undo), trust.addrs, trust.u);
  }
}
