/** Choosing transactions for a block on a simulated ledger, and why the real ledger takes every
    choice. */
module Selection {
  import opened Bytes
  import opened Transactions
  import opened Ledger
  import opened LedgerSums
  import opened LedgerLaws
  import opened BlockLedger
  import Supply

  /** One account as block building sees it: spendable coin, next nonce, holdings. */
  datatype Sim = Sim(balance: Word, nonce: Word, assets: map<Bytes, Word>)

  type Cache = map<Address, Sim>

  /** The tip a block is built on. */
  datatype Tip = Tip(blocks: seq<Block>, state: State)

  function Spendable(t: Tip, a: Address): (n: Word) {
    var bal, imm := Get(t.state, a).balance, Reserve(t.blocks, |t.blocks|, a);
    if imm >= bal then 0 else bal - imm
  }

  /** An account the simulation has not touched yet is read from the tip. */
  function SimOf(t: Tip, c: Cache, a: Address): (s: Sim) {
    if a in c then c[a] else Sim(Spendable(t, a), Get(t.state, a).nonce, Get(t.state, a).assets)
  }

  function Units(assets: map<Bytes, Word>, id: Bytes): (n: Word) {
    if id in assets then assets[id] else 0
  }

  function Gained(assets: map<Bytes, Word>, id: Bytes, delta: int): (r: map<Bytes, Word>)
    ensures Units(r, id) == (Units(assets, id) + delta) % U64_LIMIT
    ensures forall k :: k != id ==> Units(r, k) == Units(assets, k)
  {
    assets[id := (Units(assets, id) + delta) % U64_LIMIT]
  }

  /** What a transfer costs its sender, everything included. */
  function CoinCost(tx: Tx): (n: nat) {
    if tx.issue.Some? || IsAssetTransfer(tx) then SenderFee(tx) else SumOutputs(Outputs(tx)) + SenderFee(tx)
  }

  /** Whether a transaction can be paid for on the simulated ledger. */
  predicate Affordable(t: Tip, c: Cache, tx: Tx) {
    var s := SimOf(t, c, tx.sender);
    && (IsSponsored(tx) ==> SimOf(t, c, tx.feePayer).balance >= tx.fee)
    && (if tx.issue.Some? then s.balance >= SenderFee(tx)
        else if tx.assetOp.Some? then
          s.balance >= SenderFee(tx) && AssetOpDelta(tx.assetOp.value, Units(s.assets, tx.assetId)).Some?
        else if IsAssetTransfer(tx) then s.balance >= SenderFee(tx) && Units(s.assets, tx.assetId) >= tx.amount
        else s.balance >= CoinCost(tx))
  }

  /** A name operation the name's record at the tip allows. */
  predicate Mineable(t: Tip, tx: Tx, height: Word)
    requires tx.name.Some?
  {
    var n := tx.name.value;
    var rec := Get(t.state, NameKey(n.name));
    if n.op == REGISTER then !HeldAt(rec, height) else HeldAt(rec, height) && rec.owner == tx.sender
  }

  function Debited(s: Sim, cost: int): (r: Sim) {
    s.(balance := (s.balance - cost) % U64_LIMIT, nonce := (s.nonce + 1) % U64_LIMIT)
  }

  function Topped(s: Sim, n: Word): (r: Sim) {
    s.(balance := (s.balance + n) % U64_LIMIT)
  }

  function Charged(s: Sim, n: Word): (r: Sim) {
    s.(balance := (s.balance - n) % U64_LIMIT)
  }

  function SponsorDebited(t: Tip, c: Cache, tx: Tx): (r: Cache) {
    if !IsSponsored(tx) then c
    else
      c[tx.feePayer := Charged(SimOf(t, c, tx.feePayer), tx.fee)]
  }

  function Credited(t: Tip, c: Cache, outs: seq<Output>): (r: Cache) {
    if outs == [] then c
    else
      var n := |outs| - 1;
      var done := Credited(t, c, outs[..n]);
      done[outs[n].recipient := Topped(SimOf(t, done, outs[n].recipient), outs[n].amount)]
  }

  /** The simulated ledger once a transaction has been picked. */
  function Picked(r: Rules, t: Tip, c: Cache, tx: Tx): (next: Cache) {
    var s := SimOf(t, c, tx.sender);
    if tx.name.Some? then SponsorDebited(t, c[tx.sender := Debited(s, SenderFee(tx))], tx)
    else if tx.issue.Some? then
      var paid := Debited(s, SenderFee(tx));
      SponsorDebited(t, c[tx.sender := paid.(assets := Gained(s.assets, IssuedId(r, tx), tx.issue.value.supply))], tx)
    else if tx.assetOp.Some? then
      var paid, o := Debited(s, SenderFee(tx)), tx.assetOp.value;
      var delta := if o.op == MINT then o.amount as int else if o.op == BURN then 0 - o.amount as int else 0;
      SponsorDebited(t, c[tx.sender := paid.(assets := Gained(s.assets, tx.assetId, delta))], tx)
    else if IsAssetTransfer(tx) then
      var paid := Debited(s, SenderFee(tx)).(assets := Gained(s.assets, tx.assetId, 0 - tx.amount as int));
      var c2 := SponsorDebited(t, c[tx.sender := paid], tx);
      var to := SimOf(t, c2, tx.recipient);
      c2[tx.recipient := to.(assets := Gained(to.assets, tx.assetId, tx.amount))]
    else Credited(t, SponsorDebited(t, c[tx.sender := Debited(s, CoinCost(tx))], tx), Outputs(tx))
  }

  /** The simulated account is the real one less what it may not spend yet. */
  ghost predicate Matches(s: Sim, acc: Account, held: nat) {
    s.balance + held == acc.balance && s.nonce == acc.nonce && forall id :: Units(s.assets, id) == Held(acc, id)
  }

  /** The simulation tracks a ledger on every address that is not a name's key. */
  ghost predicate Tracks(t: Tip, c: Cache, s: State, f: Floor) {
    forall a :: !IsNameKey(a) ==> Matches(SimOf(t, c, a), Get(s, a), f(a))
  }

  lemma TracksStart(t: Tip)
    requires Above(t.state, FloorAt(t.blocks, |t.blocks|))
    ensures Tracks(t, map[], t.state, FloorAt(t.blocks, |t.blocks|))
  {
    forall a | !IsNameKey(a) ensures Matches(SimOf(t, map[], a), Get(t.state, a), FloorAt(t.blocks, |t.blocks|)(a)) {
      ReserveExact(t.blocks, |t.blocks|, t.state, a);
    }
  }

  lemma TracksSet(t: Tip, c: Cache, s: State, f: Floor, a: Address, sim: Sim, acc: Account)
    requires Tracks(t, c, s, f) && (!IsNameKey(a) ==> Matches(sim, acc, f(a)))
    ensures Tracks(t, c[a := sim], Set(s, a, acc), f)
  {
    forall b | !IsNameKey(b) ensures Matches(SimOf(t, c[a := sim], b), Get(Set(s, a, acc), b), f(b)) {
      GetSet(s, a, acc, b);
      assert Matches(SimOf(t, c, b), Get(s, b), f(b));
    }
  }

  /** Writing a name's record is invisible to the simulation. */
  lemma TracksName(t: Tip, c: Cache, s: State, f: Floor, key: Address, rec: Account)
    requires Tracks(t, c, s, f) && IsNameKey(key)
    ensures Tracks(t, c, Set(s, key, rec), f)
  {
    forall b | !IsNameKey(b) ensures Matches(SimOf(t, c, b), Get(Set(s, key, rec), b), f(b)) {
      GetSet(s, key, rec, b);
      assert Matches(SimOf(t, c, b), Get(s, b), f(b));
    }
  }

  /** A sender that can afford a cost in the simulation can pay it for real. */
  lemma PaysForReal(t: Tip, c: Cache, s: State, f: Floor, tx: Tx, cost: Word, reserve: Word)
    requires Tracks(t, c, s, f) && !IsNameKey(tx.sender) && reserve == f(tx.sender)
    requires tx.nonce == SimOf(t, c, tx.sender).nonce && cost <= SimOf(t, c, tx.sender).balance
    ensures Paid(Get(s, tx.sender), tx, cost, reserve).Ok?
    ensures Matches(Debited(SimOf(t, c, tx.sender), cost), Paid(Get(s, tx.sender), tx, cost, reserve).value, f(tx.sender))
  {
    assert Matches(SimOf(t, c, tx.sender), Get(s, tx.sender), f(tx.sender));
  }

  lemma SponsorForReal(t: Tip, c: Cache, s: State, f: Floor, tx: Tx, reserve: Word)
    requires Tracks(t, c, s, f) && !IsNameKey(tx.feePayer)
    requires IsSponsored(tx) ==> reserve == f(tx.feePayer) && SimOf(t, c, tx.feePayer).balance >= tx.fee
    ensures ChargeSponsor(s, tx, reserve).Ok?
    ensures Tracks(t, SponsorDebited(t, c, tx), ChargeSponsor(s, tx, reserve).value, f)
  {
    if IsSponsored(tx) {
      var p, payer := SimOf(t, c, tx.feePayer), Get(s, tx.feePayer);
      assert Matches(p, payer, f(tx.feePayer));
      ChargedMatches(p, payer, f(tx.feePayer), tx.fee);
      TracksSet(t, c, s, f, tx.feePayer, Charged(p, tx.fee), payer.(balance := payer.balance - tx.fee));
    }
  }

  /** A credit that the total supply leaves room for. */
  lemma CreditFits(s: State, o: Output)
    requires Coins(s) + o.amount < U64_LIMIT
    ensures Credit(s, o).Ok?
  {
    SumHolds(s, Coin(), o.recipient);
  }

  lemma {:induction false} CreditsForReal(t: Tip, c: Cache, s: State, f: Floor, outs: seq<Output>)
    requires Tracks(t, c, s, f) && Coins(s) + SumOutputs(outs) < U64_LIMIT
    requires forall i :: 0 <= i < |outs| ==> !IsNameKey(outs[i].recipient)
    ensures CreditAll(s, outs).Ok? && Tracks(t, Credited(t, c, outs), CreditAll(s, outs).value, f)
    decreases |outs|
  {
    if outs != [] {
      var n := |outs| - 1;
      CreditsForReal(t, c, s, f, outs[..n]);
      var c1, s1, o := Credited(t, c, outs[..n]), CreditAll(s, outs[..n]).value, outs[n];
      CreditsPay(s, outs[..n], f);
      CreditFits(s1, o);
      CreditTracks(t, c1, s1, f, o);
    }
  }

  lemma ToppedMatches(sim: Sim, acc: Account, held: nat, n: Word)
    requires Matches(sim, acc, held) && acc.balance + n < U64_LIMIT
    ensures Matches(Topped(sim, n), acc.(balance := acc.balance + n), held)
  {
  }

  lemma ChargedMatches(sim: Sim, acc: Account, held: nat, n: Word)
    requires Matches(sim, acc, held) && n <= sim.balance
    ensures n + held < U64_LIMIT && n + held <= acc.balance && Matches(Charged(sim, n), acc.(balance := acc.balance - n), held)
  {
  }

  lemma CreditTracks(t: Tip, c: Cache, s: State, f: Floor, o: Output)
    requires Tracks(t, c, s, f) && !IsNameKey(o.recipient) && Credit(s, o).Ok?
    ensures Tracks(t, c[o.recipient := Topped(SimOf(t, c, o.recipient), o.amount)], Credit(s, o).value, f)
  {
    var sim, acc := SimOf(t, c, o.recipient), Get(s, o.recipient);
    assert Matches(sim, acc, f(o.recipient));
    ToppedMatches(sim, acc, f(o.recipient), o.amount);
    TracksSet(t, c, s, f, o.recipient, Topped(sim, o.amount), acc.(balance := acc.balance + o.amount));
  }
}
