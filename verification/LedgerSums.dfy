/** Totals over the whole ledger, and how single writes move them. */
module LedgerSums {
  import opened Bytes
  import opened Transactions
  import opened Ledger

  /** What an account weighs: its coin, or its holding of one asset. */
  type Weight = Account -> nat

  ghost function Sum(s: State, w: Weight): (n: nat)
    decreases |s|
  {
    if s == map[] then 0
    else
      var a :| a in s;
      w(s[a]) + Sum(s - {a}, w)
  }

  /** Any account may be taken out first. */
  lemma {:induction false} SumTakes(s: State, w: Weight, a: Address)
    requires a in s
    ensures Sum(s, w) == w(s[a]) + Sum(s - {a}, w)
    decreases |s|
  {
    var b :| b in s && Sum(s, w) == w(s[b]) + Sum(s - {b}, w);
    if b != a {
      SumTakes(s - {b}, w, a);
      SumTakes(s - {a}, w, b);
      assert s - {b} - {a} == s - {a} - {b};
    }
  }

  /** A write moves the total by what the account gained. */
  lemma SumWrites(s: State, w: Weight, a: Address, acc: Account)
    requires w(ZERO) == 0
    ensures Sum(s[a := acc], w) + w(Get(s, a)) == Sum(s, w) + w(acc)
  {
    var t := s[a := acc];
    SumTakes(t, w, a);
    assert t - {a} == s - {a};
    if a in s {
      SumTakes(s, w, a);
    } else {
      assert s - {a} == s;
    }
  }

  lemma SumSets(s: State, w: Weight, a: Address, acc: Account)
    requires w(ZERO) == 0
    ensures Sum(Set(s, a, acc), w) + w(Get(s, a)) == Sum(s, w) + w(acc)
  {
    if IsNameKey(a) && IsEmpty(acc) {
      assert acc == ZERO;
      if a in s {
        SumTakes(s, w, a);
      } else {
        assert s - {a} == s;
      }
    } else {
      SumWrites(s, w, a, acc);
    }
  }

  lemma {:induction false} SumHolds(s: State, w: Weight, a: Address)
    requires w(ZERO) == 0
    ensures w(Get(s, a)) <= Sum(s, w)
  {
    if a in s {
      SumTakes(s, w, a);
    }
  }

  /** The weight of the named accounts alone. */
  ghost function SumOver(keys: set<Address>, s: State, w: Weight): (n: nat)
    decreases keys
  {
    if keys == {} then 0
    else
      var a :| a in keys;
      w(Get(s, a)) + SumOver(keys - {a}, s, w)
  }

  lemma {:induction false} SumOverTakes(keys: set<Address>, s: State, w: Weight, a: Address)
    requires a in keys
    ensures SumOver(keys, s, w) == w(Get(s, a)) + SumOver(keys - {a}, s, w)
    decreases keys
  {
    var b :| b in keys && SumOver(keys, s, w) == w(Get(s, b)) + SumOver(keys - {b}, s, w);
    if b != a {
      SumOverTakes(keys - {b}, s, w, a);
      SumOverTakes(keys - {a}, s, w, b);
      assert keys - {b} - {a} == keys - {a} - {b};
    }
  }

  /** Outside `keys` the two ledgers agree. */
  ghost predicate AgreeBut(keys: set<Address>, s: State, t: State) {
    forall a :: a !in keys ==> (a in s <==> a in t) && (a in s ==> s[a] == t[a])
  }

  /** Where two ledgers agree outside some accounts, their totals differ as those accounts do. */
  lemma {:induction false} SumOverMoves(keys: set<Address>, s: State, t: State, w: Weight)
    requires AgreeBut(keys, s, t) && w(ZERO) == 0
    ensures Sum(t, w) + SumOver(keys, s, w) == Sum(s, w) + SumOver(keys, t, w)
    decreases keys
  {
    if keys == {} {
      assert s == t;
    } else {
      var a :| a in keys;
      var m := if a in s then t[a := s[a]] else t - {a};
      SumOverMoves(keys - {a}, s, m, w);
      SumOverTakes(keys, s, w, a);
      SumOverTakes(keys, t, w, a);
      SumOverSame(keys - {a}, m, t, w);
      assert Get(m, a) == Get(s, a);
      if a in s {
        SumWrites(t, w, a, s[a]);
      } else if a in t {
        SumTakes(t, w, a);
      } else {
        assert m == t;
      }
    }
  }

  lemma {:induction false} SumOverSame(keys: set<Address>, s: State, t: State, w: Weight)
    requires forall a :: a in keys ==> Get(s, a) == Get(t, a)
    ensures SumOver(keys, s, w) == SumOver(keys, t, w)
    decreases keys
  {
    if keys != {} {
      var a :| a in keys && SumOver(keys, s, w) == w(Get(s, a)) + SumOver(keys - {a}, s, w);
      SumOverTakes(keys, t, w, a);
      SumOverSame(keys - {a}, s, t, w);
    }
  }

  ghost function Coin(): (w: Weight)
    ensures w(ZERO) == 0
    ensures forall acc :: w(acc) == acc.balance
  {
    (acc: Account) => acc.balance
  }

  ghost function Holding(id: Bytes): (w: Weight)
    ensures w(ZERO) == 0
    ensures forall acc :: w(acc) == Held(acc, id)
  {
    (acc: Account) => Held(acc, id)
  }
}
