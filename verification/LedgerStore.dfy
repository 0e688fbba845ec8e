/** The ledger changed in place under an undo log, one block at a time. */
module LedgerStore {
  import opened Bytes
  import opened Transactions
  import opened Ledger
  import opened LedgerSums
  import opened BlockLedger

  datatype UndoEntry = UndoEntry(addr: Address, prev: Account, existed: bool)

  function Restore(s: State, u: UndoEntry): (t: State) {
    if u.existed then s[u.addr := u.prev] else s - {u.addr}
  }

  /** The ledger with a log reversed, last entry first. */
  function Undone(s: State, undo: seq<UndoEntry>): (t: State)
    decreases |undo|
  {
    if undo == [] then s else Undone(Restore(s, undo[|undo| - 1]), undo[..|undo| - 1])
  }

  function EntryFor(s: State, a: Address): (u: UndoEntry) {
    UndoEntry(a, Get(s, a), a in s)
  }

  ghost function Named(undo: seq<UndoEntry>): (s: set<Address>) {
    set i | 0 <= i < |undo| :: undo[i].addr
  }

  lemma RestoreSet(s: State, a: Address, acc: Account)
    ensures Restore(Set(s, a, acc), EntryFor(s, a)) == s
  {
  }

  /** Logging a write keeps the log a way back. */
  lemma UndoneSet(s: State, a: Address, acc: Account, undo: seq<UndoEntry>)
    ensures Undone(Set(s, a, acc), undo + [EntryFor(s, a)]) == Undone(s, undo)
  {
    RestoreSet(s, a, acc);
    assert (undo + [EntryFor(s, a)])[..|undo|] == undo;
  }

  /** An account that did not exist is recorded as the zero account. */
  ghost predicate WellKept(undo: seq<UndoEntry>)
    decreases |undo|
  {
    undo != [] ==>
      var u := undo[|undo| - 1];
      (u.existed || u.prev == ZERO) && WellKept(undo[..|undo| - 1])
  }

  lemma NamedSnoc(undo: seq<UndoEntry>, u: UndoEntry)
    ensures Named(undo + [u]) == Named(undo) + {u.addr}
  {
    var all := undo + [u];
    assert all[|undo|] == u && forall i :: 0 <= i < |undo| ==> all[i] == undo[i];
  }

  /** A log names every account on which the two ledgers differ. */
  lemma {:induction false} UndoneAgrees(s: State, undo: seq<UndoEntry>)
    ensures AgreeBut(Named(undo), Undone(s, undo), s)
    decreases |undo|
  {
    if undo != [] {
      var n := |undo| - 1;
      UndoneAgrees(Restore(s, undo[n]), undo[..n]);
      assert undo[..n] + [undo[n]] == undo;
      NamedSnoc(undo[..n], undo[n]);
    }
  }

  /** The first entry for an account holds its value in the ledger the log leads back to. */
  lemma {:induction false} FirstEntry(s: State, undo: seq<UndoEntry>, i: nat)
    requires WellKept(undo) && i < |undo| && undo[i].addr !in Named(undo[..i])
    ensures Get(Undone(s, undo), undo[i].addr) == undo[i].prev
    decreases |undo|
  {
    var n := |undo| - 1;
    var t := Restore(s, undo[n]);
    if i == n {
      UndoneAgrees(t, undo[..n]);
      assert undo[..n] == undo[..i];
    } else {
      assert undo[..n][..i] == undo[..i];
      FirstEntry(t, undo[..n], i);
    }
  }

  class Accounts {
    var state: State
    var undo: seq<UndoEntry>
    /** The ledger as the log leads back to it. */
    ghost var base: State

    ghost predicate Valid()
      reads this
    {
      Undone(state, undo) == base && WellKept(undo)
    }

    constructor (s: State)
      ensures Valid() && state == base == s && undo == []
    {
      state, undo, base := s, [], s;
    }

    /** Starts a new log where the ledger stands. */
    method Begin()
      modifies this
      ensures Valid() && state == base == old(state) && undo == []
    {
      undo := [];
      base := state;
    }

    /** Records the prior value, then writes. */
    method Write(a: Address, acc: Account)
      requires Valid()
      modifies this`state, this`undo
      ensures Valid() && state == Set(old(state), a, acc) && Named(undo) == Named(old(undo)) + {a}
    {
      NamedSnoc(undo, EntryFor(state, a));
      UndoneSet(state, a, acc, undo);
      assert (undo + [EntryFor(state, a)])[..|undo|] == undo;
      undo := undo + [UndoEntry(a, Get(state, a), a in state)];
      if IsNameKey(a) && IsEmpty(acc) {
        state := state - {a};
      } else {
        state := state[a := acc];
      }
    }

    /** Restores recorded values in reverse order. */
    method Revert()
      requires Valid()
      modifies this
      ensures Valid() && state == old(base) && undo == [] && base == old(base)
    {
      ghost var log := undo;
      var i := |undo|;
      assert undo[..i] == undo;
      while i > 0
        invariant 0 <= i <= |undo| && undo == log && base == old(base)
        invariant Undone(state, undo[..i]) == base
      {
        i := i - 1;
        assert undo[..i + 1][..i] == undo[..i] && undo[..i + 1][i] == undo[i];
        if undo[i].existed {
          state := state[undo[i].addr := undo[i].prev];
        } else {
          state := state - {undo[i].addr};
        }
      }
      assert undo[..0] == [];
      undo := [];
    }
  }
}
