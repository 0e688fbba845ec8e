/** Byte strings in dictionary order, and the one sorted list of a finite set of them. */
module ByteOrder {
  import opened Bytes
  import opened Seqs

  /** Byte strings in dictionary order. */
  predicate Before(a: Bytes, b: Bytes) {
    if b == [] then false
    else if a == [] then true
    else a[0] < b[0] || (a[0] == b[0] && Before(a[1..], b[1..]))
  }

  lemma {:induction false} BeforeIrreflexive(a: Bytes)
    ensures !Before(a, a)
  {
    if a != [] {
      BeforeIrreflexive(a[1..]);
    }
  }

  lemma {:induction false} BeforeTransitive(a: Bytes, b: Bytes, c: Bytes)
    requires Before(a, b) && Before(b, c)
    ensures Before(a, c)
  {
    if a != [] && a[0] == b[0] && b[0] == c[0] {
      BeforeTransitive(a[1..], b[1..], c[1..]);
    }
  }

  lemma {:induction false} BeforeTotal(a: Bytes, b: Bytes)
    ensures a == b || Before(a, b) || Before(b, a)
  {
    if a != [] && b != [] && a[0] == b[0] {
      BeforeTotal(a[1..], b[1..]);
      assert a == [a[0]] + a[1..] && b == [b[0]] + b[1..];
    }
  }

  /** Up to byte `k` they agree, and there `a` ends or has the smaller byte. */
  ghost predicate FirstAt(a: Bytes, b: Bytes, k: nat) {
    k <= |a| && k < |b| && a[..k] == b[..k] && (k == |a| || a[k] < b[k])
  }

  /** Dictionary order, said at the first byte where two strings differ. */
  lemma {:induction false} BeforeIsFirst(a: Bytes, b: Bytes)
    ensures Before(a, b) <==> exists k: nat :: FirstAt(a, b, k)
  {
    if a == [] || b == [] {
      assert a == [] && b != [] ==> FirstAt(a, b, 0);
    } else if a[0] < b[0] {
      assert FirstAt(a, b, 0);
    } else if a[0] == b[0] {
      BeforeIsFirst(a[1..], b[1..]);
      if Before(a, b) {
        var k :| FirstAt(a[1..], b[1..], k);
        FirstLater(a, b, k);
      } else {
        forall k: nat ensures !FirstAt(a, b, k) {
          if k > 0 {
            FirstSooner(a, b, k - 1);
          }
        }
      }
    } else {
      forall k: nat ensures !FirstAt(a, b, k) {
        if 0 < k <= |a| && k < |b| {
          assert a[..k][0] == a[0] && b[..k][0] == b[0];
        }
      }
    }
  }

  lemma FirstLater(a: Bytes, b: Bytes, k: nat)
    requires a != [] && b != [] && a[0] == b[0] && FirstAt(a[1..], b[1..], k)
    ensures FirstAt(a, b, k + 1)
  {
    assert a[..k + 1] == [a[0]] + a[1..][..k] && b[..k + 1] == [b[0]] + b[1..][..k];
  }

  lemma FirstSooner(a: Bytes, b: Bytes, k: nat)
    requires a != [] && b != [] && a[0] == b[0]
    ensures FirstAt(a, b, k + 1) ==> FirstAt(a[1..], b[1..], k)
  {
    if FirstAt(a, b, k + 1) {
      assert a[1..][..k] == a[..k + 1][1..] && b[1..][..k] == b[..k + 1][1..];
    }
  }

  ghost predicate Ascending(s: seq<Bytes>) {
    forall i, j :: 0 <= i < j < |s| ==> Before(s[i], s[j])
  }

  lemma LeastFirst(low: Bytes, s: seq<Bytes>)
    requires Ascending(s) && (s != [] ==> Before(low, s[0]))
    ensures Ascending([low] + s)
  {
    forall j | 0 <= j < |s| ensures Before(low, s[j]) {
      if j > 0 {
        BeforeTransitive(low, s[0], s[j]);
      }
    }
  }

  /** A new member put in its place. */
  function Placed(a: Bytes, s: seq<Bytes>): (r: seq<Bytes>)
    requires a !in s
    ensures forall x :: x in r <==> x == a || x in s
    ensures Ascending(s) ==> Ascending(r)
  {
    if s == [] || Before(a, s[0]) then
      assert Ascending(s) ==> Ascending([a] + s) by {
        if Ascending(s) {
          LeastFirst(a, s);
        }
      }
      [a] + s
    else
      var rest := Placed(a, s[1..]);
      assert s == [s[0]] + s[1..];
      assert Ascending(s) ==> Ascending([s[0]] + rest) by {
        if Ascending(s) {
          PlacedBehind(a, s, rest);
        }
      }
      [s[0]] + rest
  }

  lemma PlacedBehind(a: Bytes, s: seq<Bytes>, rest: seq<Bytes>)
    requires s != [] && Ascending(s) && !Before(a, s[0]) && a != s[0] && Ascending(rest)
    requires forall x :: x in rest <==> x == a || x in s[1..]
    ensures Ascending([s[0]] + rest)
  {
    BeforeTotal(a, s[0]);
    if rest != [] {
      assert rest[0] in rest;
      LeastFirst(s[0], rest);
    }
  }

  /** The members of a set in order. */
  ghost function SortedOf(s: set<Bytes>): (r: seq<Bytes>)
    ensures Ascending(r) && forall a :: a in r <==> a in s
  {
    if s == {} then []
    else
      var a :| a in s;
      Placed(a, SortedOf(s - {a}))
  }

  /** Two ascending lists of the same members are the same list. */
  lemma {:induction false} AscendingUnique(a: seq<Bytes>, b: seq<Bytes>)
    requires Ascending(a) && Ascending(b) && forall x :: x in a <==> x in b
    ensures a == b
    decreases |a|
  {
    if a == [] {
      assert forall i :: 0 <= i < |b| ==> b[i] in b;
    } else {
      assert a[0] in a && b != [];
      FirstAgrees(a, b);
      assert a == [a[0]] + a[1..] && b == [b[0]] + b[1..];
      forall x ensures x in a[1..] <==> x in b[1..] {
        RestOf(a, x);
        RestOf(b, x);
      }
      AscendingUnique(a[1..], b[1..]);
    }
  }

  lemma RestOf(a: seq<Bytes>, x: Bytes)
    requires a != [] && Ascending(a)
    ensures x in a[1..] <==> x in a && x != a[0]
  {
    BeforeIrreflexive(a[0]);
    assert a == [a[0]] + a[1..];
  }

  lemma FirstAgrees(a: seq<Bytes>, b: seq<Bytes>)
    requires a != [] && b != [] && Ascending(a) && Ascending(b) && forall x :: x in a <==> x in b
    ensures a[0] == b[0]
  {
    assert a[0] in b && b[0] in a;
    var i :| 0 <= i < |b| && b[i] == a[0];
    var j :| 0 <= j < |a| && a[j] == b[0];
    if i > 0 && j > 0 {
      BeforeTransitive(a[0], b[0], a[0]);
      BeforeIrreflexive(a[0]);
    }
  }

  lemma AscendingApart(a: seq<Bytes>)
    requires Ascending(a)
    ensures NoRepeats(a)
  {
    forall i, j | 0 <= i < j < |a| ensures a[i] != a[j] {
      BeforeIrreflexive(a[i]);
    }
  }

  ghost function Members(xs: seq<Bytes>): (s: set<Bytes>) {
    set x | x in xs
  }

  /** Sorts byte strings, dropping repetitions. */
  method Sort(xs: seq<Bytes>) returns (r: seq<Bytes>)
    ensures r == SortedOf(Members(xs)) && NoRepeats(r)
  {
    r := [];
    for i := 0 to |xs|
      invariant Ascending(r) && forall x :: x in r <==> x in xs[..i]
    {
      SnocSlice(xs, i);
      if xs[i] !in r {
        r := Placed(xs[i], r);
      }
    }
    WholeSlice(xs);
    AscendingUnique(r, SortedOf(Members(xs)));
    AscendingApart(r);
  }
}
