/** What can be reached in a finite graph, and walks that add what they reach to an output set and stop
    after so many steps. */
module Graphs {
  import opened Bytes
  import opened Seqs

  type Edges = Digest -> set<Digest>

  ghost predicate LinkAt(next: Edges, path: seq<Digest>, i: nat) {
    0 < i < |path| && path[i] in next(path[i - 1])
  }

  ghost predicate IsPath(next: Edges, start: set<Digest>, path: seq<Digest>) {
    path != [] && path[0] in start && forall i :: 0 < i < |path| ==> LinkAt(next, path, i)
  }

  ghost predicate LeadsTo(next: Edges, start: set<Digest>, path: seq<Digest>, d: Digest) {
    IsPath(next, start, path) && path[|path| - 1] == d
  }

  /** The nodes some path from the start leads to. */
  ghost function Reach(nodes: set<Digest>, next: Edges, start: set<Digest>): (ds: set<Digest>) {
    set d | d in nodes && exists path :: LeadsTo(next, start, path, d)
  }

  ghost predicate Within(nodes: set<Digest>, next: Edges) {
    forall m :: m in nodes ==> next(m) <= nodes
  }

  /** Every edge from a node of the set ends in the set. */
  ghost predicate Closed(next: Edges, ds: set<Digest>) {
    forall m :: m in ds ==> next(m) <= ds
  }

  lemma {:induction false} StaysIn(next: Edges, start: set<Digest>, ds: set<Digest>, path: seq<Digest>, i: nat)
    requires start <= ds && Closed(next, ds) && IsPath(next, start, path) && i < |path|
    ensures path[i] in ds
    decreases i
  {
    if i > 0 {
      StaysIn(next, start, ds, path, i - 1);
      assert LinkAt(next, path, i);
    }
  }

  /** What can be reached is closed, and no smaller closed set holds the start. */
  lemma ReachLeast(nodes: set<Digest>, next: Edges, start: set<Digest>, ds: set<Digest>)
    requires start <= ds && Closed(next, ds)
    ensures Reach(nodes, next, start) <= ds
  {
    forall d | d in Reach(nodes, next, start) ensures d in ds {
      var path :| LeadsTo(next, start, path, d);
      StaysIn(next, start, ds, path, |path| - 1);
    }
  }

  lemma ReachClosed(nodes: set<Digest>, next: Edges, start: set<Digest>)
    requires Within(nodes, next) && start <= nodes
    ensures start <= Reach(nodes, next, start) && Closed(next, Reach(nodes, next, start))
  {
    forall m | m in start ensures m in Reach(nodes, next, start) {
      assert LeadsTo(next, start, [m], m);
    }
    forall m, d | m in Reach(nodes, next, start) && d in next(m) ensures d in Reach(nodes, next, start) {
      var path :| LeadsTo(next, start, path, m);
      OneMore(next, start, path, m, d);
    }
  }

  lemma OneMore(next: Edges, start: set<Digest>, path: seq<Digest>, m: Digest, d: Digest)
    requires LeadsTo(next, start, path, m) && d in next(m)
    ensures exists longer :: LeadsTo(next, start, longer, d)
  {
    var longer := path + [d];
    forall i | 0 < i < |longer| ensures LinkAt(next, longer, i) {
      assert i < |path| ==> LinkAt(next, path, i);
    }
    assert LeadsTo(next, start, longer, d);
  }

  lemma ReachFurther(nodes: set<Digest>, next: Edges, start: set<Digest>, h: Digest)
    requires Within(nodes, next) && start <= nodes && h in start
    ensures Reach(nodes, next, next(h)) <= Reach(nodes, next, start)
  {
    ReachClosed(nodes, next, start);
    ReachLeast(nodes, next, next(h), Reach(nodes, next, start));
  }

  /** More edges reach more. */
  lemma ReachMore(nodes: set<Digest>, few: Edges, next: Edges, some: set<Digest>, start: set<Digest>)
    requires Within(nodes, next) && some <= start <= nodes && forall m :: m in nodes ==> few(m) <= next(m)
    ensures Reach(nodes, few, some) <= Reach(nodes, next, start)
  {
    ReachClosed(nodes, next, start);
    ReachLeast(nodes, few, some, Reach(nodes, next, start));
  }

  /** A walk has added nothing but what can be reached, and has followed every edge it had to from what it
      added, unless it was cut short; then it has added one for every step it had left. */
  ghost predicate Walked(may: set<Digest>, must: Edges, out: set<Digest>, now: set<Digest>, steps: nat, cut: bool) {
    && out <= now <= out + may
    && (cut ==> |now| >= |out| + steps)
    && (!cut ==> forall m :: m in now && m !in out ==> must(m) <= now)
  }

  /** A walk that goes on from one more node. */
  lemma WalkedMore(may: set<Digest>, below: set<Digest>, must: Edges, out: set<Digest>, now: set<Digest>, cut: bool, h: Digest,
                      so: set<Digest>, steps: nat, short: bool)
    requires Walked(may, must, out, now, steps + 1, cut) && h !in now && h in may && below <= may
    requires Walked(below, must, now + {h}, so, steps, short) && (short || must(h) <= so)
    ensures Walked(may, must, out, so, steps + 1, cut || short) && now <= so
  {
    SubsetSmaller(now, so);
    SubsetSmaller(out, now);
    assert |now + {h}| == |now| + 1;
  }
}
