/** The lease of a name: who can change it, and that nobody else can, over whole chains. */
module Leases {
  import opened Bytes
  import opened Transactions
  import opened Ledger
  import opened LedgerLaws
  import opened BlockLedger
  import opened Chain
  import opened NameRecords

  /** What a record says about its name; a coinbase may still pay coin to the record's key. */
  datatype Lease = Lease(owner: Address, expires: Word)

  function LeaseOf(acc: Account): (l: Lease) {
    Lease(acc.owner, acc.expires)
  }

  ghost function LeaseIn(s: State, name: Bytes): (l: Lease) {
    LeaseOf(Get(s, NameKey(name)))
  }

  predicate Holds(l: Lease, height: Word) {
    l.owner != [] && l.expires > height
  }

  const UNLEASED := Lease([], 0)

  /** A lease for nobody is none. */
  function Granted(owner: Address, expires: Word): (l: Lease) {
    if owner == [] then UNLEASED else Lease(owner, expires)
  }

  /** A name changes hands or terms in four ways only. */
  ghost predicate LeaseMoves(was: Lease, now: Lease, tx: Tx, name: Bytes, height: Word) {
    if !ActsOn(tx, name) then now == was
    else
      var n := tx.name.value;
      if n.op == REGISTER then
        !Holds(was, height) && now == Granted(if n.target == [] then tx.sender else n.target, (height + Ledger.Lease(n)) % U64_LIMIT)
      else
        && Holds(was, height) && tx.sender == was.owner
        && (if n.op == RENEW then now == Lease(was.owner, (was.expires + Ledger.Lease(n)) % U64_LIMIT)
            else if n.op == TRANSFER then now == Lease(n.target, was.expires) && n.target != []
            else n.op == RELEASE && now == UNLEASED)
  }

  /** Every transaction the ledger takes moves every name's lease in one of those ways. */
  lemma TxMovesLease(r: Rules, s: State, tx: Tx, height: Word, reserve: Word, payerReserve: Word, name: Bytes)
    requires Sane(r, tx) && ApplyTx(r, s, tx, height, reserve, payerReserve).Ok?
    ensures LeaseMoves(LeaseIn(s, name), LeaseIn(ApplyTx(r, s, tx, height, reserve, payerReserve).value, name), tx, name, height)
  {
    if ActsOn(tx, name) {
      ActingRecord(r, s, tx, height, reserve, payerReserve);
      RecordMoves(r, tx, Get(s, NameKey(name)), height, name);
    } else {
      TxKeepsNames(r, s, tx, height, reserve, payerReserve);
    }
  }

  lemma RecordMoves(r: Rules, tx: Tx, rec: Account, height: Word, name: Bytes)
    requires ActsOn(tx, name) && NameOpShape(r, tx.name.value)
    requires NameAfter(tx.name.value, tx.sender, rec, height).Some?
    ensures LeaseMoves(LeaseOf(rec), LeaseOf(NameRecord(NameAfter(tx.name.value, tx.sender, rec, height).value)), tx, name, height)
  {
  }

  /** (a) A name that is held keeps owner and expiry through everything its owner did not send. */
  lemma StrangerKeeps(r: Rules, s: State, tx: Tx, height: Word, reserve: Word, payerReserve: Word, name: Bytes)
    requires Sane(r, tx) && ApplyTx(r, s, tx, height, reserve, payerReserve).Ok?
    requires Holds(LeaseIn(s, name), height) && !(ActsOn(tx, name) && tx.sender == LeaseIn(s, name).owner)
    ensures LeaseIn(ApplyTx(r, s, tx, height, reserve, payerReserve).value, name) == LeaseIn(s, name)
  {
    TxMovesLease(r, s, tx, height, reserve, payerReserve, name);
  }

  lemma SponsorUnmoved(s: State, tx: Tx, acc: Account, key: Address, rec: Account, payerReserve: Word)
    requires IsSponsored(tx) ==> tx.feePayer != tx.sender && tx.feePayer != key
    ensures ChargeSponsor(Set(Set(s, tx.sender, acc), key, rec), tx, payerReserve).Ok? <==> ChargeSponsor(s, tx, payerReserve).Ok?
  {
    if IsSponsored(tx) {
      GetSet(Set(s, tx.sender, acc), key, rec, tx.feePayer);
      GetSet(s, tx.sender, acc, tx.feePayer);
    }
  }

  /** (b) A name operation is taken exactly if it is signed and paid for and the lease allows it: a
      registration of a name nobody holds, or anything else from the holder. */
  lemma NameOpTaken(r: Rules, s: State, tx: Tx, height: Word, reserve: Word, payerReserve: Word)
    requires Sane(r, tx) && tx.name.Some?
    ensures var lease := LeaseIn(s, tx.name.value.name);
            ApplyTx(r, s, tx, height, reserve, payerReserve).Ok? <==>
              && r.verified(tx) && Paid(Get(s, tx.sender), tx, SenderFee(tx), reserve).Ok? && ChargeSponsor(s, tx, payerReserve).Ok?
              && (if tx.name.value.op == REGISTER then !Holds(lease, height) else Holds(lease, height) && lease.owner == tx.sender)
  {
    var paid, key := Paid(Get(s, tx.sender), tx, SenderFee(tx), reserve), NameKey(tx.name.value.name);
    var rec := NameAfter(tx.name.value, tx.sender, Get(s, key), height);
    if paid.Ok? && rec.Some? {
      SponsorUnmoved(s, tx, paid.value, key, NameRecord(rec.value), payerReserve);
    }
  }

  /** (c) A renewal keeps the owner, and lengthens the lease exactly when the new expiry fits 64 bits. */
  lemma RenewExtends(r: Rules, s: State, tx: Tx, height: Word, reserve: Word, payerReserve: Word, name: Bytes)
    requires Sane(r, tx) && ApplyTx(r, s, tx, height, reserve, payerReserve).Ok? && ActsOn(tx, name) && tx.name.value.op == RENEW
    ensures var was, now := LeaseIn(s, name), LeaseIn(ApplyTx(r, s, tx, height, reserve, payerReserve).value, name);
            && now.owner == was.owner == tx.sender
            && (now.expires > was.expires <==> was.expires + Ledger.Lease(tx.name.value) < U64_LIMIT)
  {
    TxMovesLease(r, s, tx, height, reserve, payerReserve, name);
    LeaseLength(tx.name.value);
  }

  lemma LeaseLength(n: NameOp)
    requires n.periods <= MAX_NAME_LEASES
    ensures NAME_LEASE_PERIOD <= Ledger.Lease(n) <= MAX_NAME_LEASES * NAME_LEASE_PERIOD
  {
  }

  /** (d) A registered name is held from then on exactly when its expiry fits 64 bits and it has an owner. */
  lemma RegisteredHolds(r: Rules, s: State, tx: Tx, height: Word, reserve: Word, payerReserve: Word, name: Bytes)
    requires Sane(r, tx) && ApplyTx(r, s, tx, height, reserve, payerReserve).Ok? && ActsOn(tx, name) && tx.name.value.op == REGISTER
    ensures Holds(LeaseIn(ApplyTx(r, s, tx, height, reserve, payerReserve).value, name), height) <==>
      height + Ledger.Lease(tx.name.value) < U64_LIMIT && !(tx.sender == [] && tx.name.value.target == [])
  {
    TxMovesLease(r, s, tx, height, reserve, payerReserve, name);
    LeaseLength(tx.name.value);
  }

  /** (e) A held name's owner changes only by the owner's own transfer or release. */
  lemma OwnerDecides(r: Rules, s: State, tx: Tx, height: Word, reserve: Word, payerReserve: Word, name: Bytes)
    requires Sane(r, tx) && ApplyTx(r, s, tx, height, reserve, payerReserve).Ok? && Holds(LeaseIn(s, name), height)
    requires LeaseIn(ApplyTx(r, s, tx, height, reserve, payerReserve).value, name).owner != LeaseIn(s, name).owner
    ensures ActsOn(tx, name) && tx.sender == LeaseIn(s, name).owner
    ensures tx.name.value.op == TRANSFER ||
      (tx.name.value.op == RELEASE && LeaseIn(ApplyTx(r, s, tx, height, reserve, payerReserve).value, name) == UNLEASED)
  {
    TxMovesLease(r, s, tx, height, reserve, payerReserve, name);
  }

  /** The rules of a chain move leases only so. */
  ghost predicate LeaseLaw(c: Consensus) {
    forall s, tx, height, reserve, payerReserve, name {:trigger LeaseStep(c, s, tx, height, reserve, payerReserve, name)} ::
      LeaseStep(c, s, tx, height, reserve, payerReserve, name)
  }

  ghost predicate LeaseStep(c: Consensus, s: State, tx: Tx, height: Word, reserve: Word, payerReserve: Word, name: Bytes) {
    c.admits(tx, height) && c.apply(s, tx, height, reserve, payerReserve).Ok? ==>
      LeaseMoves(LeaseIn(s, name), LeaseIn(c.apply(s, tx, height, reserve, payerReserve).value, name), tx, name, height)
  }

  lemma RulesLease(r: Rules)
    ensures LeaseLaw(ConsensusOf(r))
  {
    var c := ConsensusOf(r);
    forall s, tx, height, reserve, payerReserve, name ensures LeaseStep(c, s, tx, height, reserve, payerReserve, name) {
      if c.admits(tx, height) && c.apply(s, tx, height, reserve, payerReserve).Ok? {
        TxMovesLease(r, s, tx, height, reserve, payerReserve, name);
      }
    }
  }

  /** Some of the first `n` transactions of a block is the owner's act on the name. */
  ghost predicate OwnerActs(b: Block, n: nat, name: Bytes, owner: Address)
    requires n <= |b.txs|
  {
    exists i :: 1 <= i < n && ActsOn(b.txs[i], name) && b.txs[i].sender == owner
  }

  lemma {:induction false} TxsKeepLease(c: Consensus, blocks: seq<Block>, b: Block, s: State, n: nat, name: Bytes)
    requires LeaseLaw(c) && 1 <= n <= |b.txs| && ApplyTxs(c, blocks, b, s, n).Ok?
    requires Holds(LeaseIn(s, name), b.index) && !OwnerActs(b, n, name, LeaseIn(s, name).owner)
    ensures LeaseIn(ApplyTxs(c, blocks, b, s, n).value.state, name) == LeaseIn(s, name)
    decreases n
  {
    if n > 1 {
      TxsKeepLease(c, blocks, b, s, n - 1, name);
      NextKeepsLease(c, blocks, b, ApplyTxs(c, blocks, b, s, n - 1).value, b.txs[n - 1], name);
    }
  }

  lemma NextKeepsLease(c: Consensus, blocks: seq<Block>, b: Block, p: Progress, tx: Tx, name: Bytes)
    requires LeaseLaw(c) && NextTx(c, blocks, b, p, tx).Ok? && Holds(LeaseIn(p.state, name), b.index)
    requires !(ActsOn(tx, name) && tx.sender == LeaseIn(p.state, name).owner)
    ensures LeaseIn(NextTx(c, blocks, b, p, tx).value.state, name) == LeaseIn(p.state, name)
  {
    var reserve := Reserve(blocks, b.index, tx.sender);
    var payerReserve := if IsSponsored(tx) then Reserve(blocks, b.index, tx.feePayer) else 0;
    assert LeaseStep(c, p.state, tx, b.index, reserve, payerReserve, name);
  }

  /** A coinbase moves no lease, even one that pays the name's own key. */
  lemma CreditKeepsLease(s: State, o: Output, name: Bytes)
    requires Credit(s, o).Ok?
    ensures LeaseIn(Credit(s, o).value, name) == LeaseIn(s, name)
  {
    var acc := Get(s, o.recipient);
    GetSet(s, o.recipient, acc.(balance := acc.balance + o.amount), NameKey(name));
  }

  lemma BlockKeepsLease(c: Consensus, blocks: seq<Block>, b: Block, s: State, name: Bytes)
    requires LeaseLaw(c) && b.txs != [] && ApplyBlock(c, blocks, b, s).Ok?
    requires Holds(LeaseIn(s, name), b.index) && !OwnerActs(b, |b.txs|, name, LeaseIn(s, name).owner)
    ensures LeaseIn(ApplyBlock(c, blocks, b, s).value.state, name) == LeaseIn(s, name)
  {
    TxsKeepLease(c, blocks, b, s, |b.txs|, name);
    var cb := b.txs[0];
    CreditKeepsLease(ApplyTxs(c, blocks, b, s, |b.txs|).value.state, Output(cb.recipient, cb.amount), name);
  }

  ghost function LeaseAfter(x: Extend, genesis: Block, blocks: seq<Block>, name: Bytes): (l: Lease)
    requires Replay(x, genesis, blocks).Some?
  {
    LeaseIn(Replay(x, genesis, blocks).value, name)
  }

  /** The owner acts on the name in none of the blocks from `i` up to `j`. */
  ghost predicate OwnerSilent(blocks: seq<Block>, i: nat, j: nat, name: Bytes, owner: Address)
    requires j <= |blocks|
  {
    forall k :: i <= k < j ==> !OwnerActs(blocks[k], |blocks[k].txs|, name, owner)
  }

  /** On every valid chain: a name held after block `i - 1` is held on the same terms after every later
      block, until its owner acts on it or the lease has run out. */
  lemma {:induction false} HeldStays(x: Extend, cr: Rulebook, blocks: seq<Block>, i: nat, name: Bytes)
    requires Obeys(x, cr) && LeaseLaw(cr.consensus) && cr.genesis.index == 0 && 1 <= i <= |blocks|
    requires Replay(x, cr.genesis, blocks).Some? && Replay(x, cr.genesis, blocks[..i]).Some?
    requires var was := LeaseAfter(x, cr.genesis, blocks[..i], name);
             was.owner != [] && was.expires >= |blocks| && OwnerSilent(blocks, i, |blocks|, name, was.owner)
    ensures LeaseAfter(x, cr.genesis, blocks, name) == LeaseAfter(x, cr.genesis, blocks[..i], name)
    decreases |blocks|
  {
    var n := |blocks| - 1;
    if i <= n {
      var was := LeaseAfter(x, cr.genesis, blocks[..i], name);
      SlicesFit(blocks, i, n);
      HeldStays(x, cr, blocks[..n], i, name);
      HeightIsPosition(x, cr, blocks, n);
      StepKeepsLease(x, cr, blocks[..n], Replay(x, cr.genesis, blocks[..n]).value, blocks[n], name, was.owner);
    } else {
      assert blocks[..i] == blocks;
    }
  }

  lemma SlicesFit(blocks: seq<Block>, i: nat, n: nat)
    requires i <= n <= |blocks|
    ensures blocks[..n][..i] == blocks[..i] && forall k :: 0 <= k < n ==> blocks[..n][k] == blocks[k]
  {
  }

  lemma StepKeepsLease(x: Extend, cr: Rulebook, blocks: seq<Block>, s: State, b: Block, name: Bytes, owner: Address)
    requires Obeys(x, cr) && LeaseLaw(cr.consensus) && blocks != [] && x(blocks, s, b).Some?
    requires Holds(LeaseIn(s, name), b.index) && LeaseIn(s, name).owner == owner && !OwnerActs(b, |b.txs|, name, owner)
    ensures LeaseIn(x(blocks, s, b).value, name) == LeaseIn(s, name)
  {
    TakenBlock(x, cr, blocks, s, b);
    BlockKeepsLease(cr.consensus, blocks, b, s, name);
  }
}
