/** What the vote decides: when a rule becomes active, and that no extension of the chain changes
    its mind. */
module VersionBitsLaws {
  import opened Bytes
  import opened VersionBits

  ghost predicate InTime(d: Deployment, j: nat) {
    forall i :: 1 <= i <= j ==> WindowStart(d, i) <= d.timeout
  }

  ghost predicate Won(vs: seq<Version>, d: Deployment, j: nat) {
    Votes(vs, d, WindowStart(d, j)) >= d.threshold
  }

  /** Window `j` is the first to reach the threshold, and the vote was still open in it. */
  ghost predicate FirstWon(vs: seq<Version>, d: Deployment, j: nat) {
    Won(vs, d, j) && InTime(d, j) && forall i :: 0 <= i < j ==> !Won(vs, d, i)
  }

  /** Then the deployment is started through that window, locked in for the next, and active from
      the second one on, which is its activation height. */
  lemma {:induction false} WonStages(vs: seq<Version>, d: Deployment, j: nat, k: nat)
    requires FirstWon(vs, d, j)
    ensures StageIn(vs, d, k) == if k <= j then Started else if k == j + 1 then LockedIn else Active
    ensures ActivationIn(vs, d, k) == if k <= j then 0 else WindowStart(d, j + 2)
    decreases k
  {
    if k > 0 {
      WonStages(vs, d, j, k - 1);
      assert k <= j ==> !Won(vs, d, k - 1) && WindowStart(d, k) <= d.timeout;
      assert WindowStart(d, j + 2) == WindowStart(d, j + 1) + d.window by {
        assert (j + 2) * d.window == (j + 1) * d.window + d.window;
      }
    }
  }

  /** Without such a window the deployment stays open until the timeout and fails after it. */
  lemma {:induction false} LostStages(vs: seq<Version>, d: Deployment, k: nat)
    requires forall j :: 0 <= j < k ==> !FirstWon(vs, d, j)
    ensures StageIn(vs, d, k) == if InTime(d, k) then Started else Failed
    ensures ActivationIn(vs, d, k) == 0
    ensures InTime(d, k) ==> forall j :: 0 <= j < k ==> !Won(vs, d, j)
  {
    if k > 0 {
      LostStages(vs, d, k - 1);
      assert !FirstWon(vs, d, k - 1);
      InTimeStep(d, k);
    }
  }

  lemma InTimeStep(d: Deployment, k: nat)
    requires k > 0
    ensures InTime(d, k) <==> InTime(d, k - 1) && WindowStart(d, k) <= d.timeout
  {
  }

  /** Votes in windows that have closed do not depend on what comes after. */
  lemma {:induction false} SameVotes(vs: seq<Version>, ws: seq<Version>, bit: nat, from: nat, end: nat)
    requires vs <= ws && end <= |vs|
    ensures VotesUpTo(ws, bit, from, end) == VotesUpTo(vs, bit, from, end)
    decreases end
  {
    if end > from {
      SameVotes(vs, ws, bit, from, end - 1);
    }
  }

  lemma {:induction false} SameStages(vs: seq<Version>, ws: seq<Version>, d: Deployment, k: nat)
    requires vs <= ws && WindowStart(d, k) <= |vs|
    ensures StageIn(ws, d, k) == StageIn(vs, d, k) && ActivationIn(ws, d, k) == ActivationIn(vs, d, k)
  {
    if k > 0 {
      WindowsRise(d, k - 1, k);
      SameStages(vs, ws, d, k - 1);
      SameVotes(vs, ws, d.bit, WindowStart(d, k - 1), WindowStart(d, k - 1) + d.window);
    }
  }

  /** How far along a stage is. */
  predicate Reaches(a: Stage, b: Stage) {
    a == b || a == Defined || (a == Started && b != Defined) || (a == LockedIn && b == Active)
  }

  lemma {:induction false} StagesForward(vs: seq<Version>, d: Deployment, j: nat, k: nat)
    requires j <= k
    ensures Reaches(StageIn(vs, d, j), StageIn(vs, d, k))
    ensures StageIn(vs, d, j) == LockedIn || StageIn(vs, d, j) == Active ==> ActivationIn(vs, d, k) == ActivationIn(vs, d, j)
    decreases k
  {
    if j < k {
      StagesForward(vs, d, j, k - 1);
      assert StageIn(vs, d, k) == LockedIn ==> StageIn(vs, d, k - 1) == Started;
      if StageIn(vs, d, k - 1) == LockedIn {
        LockedHeight(vs, d, k - 1);
      }
    }
  }

  lemma LockedHeight(vs: seq<Version>, d: Deployment, k: nat)
    requires StageIn(vs, d, k) == LockedIn
    ensures k > 0 && ActivationIn(vs, d, k) == WindowStart(d, k + 1)
  {
    assert (k + 1) * d.window == k * d.window + d.window;
  }

  /** On every extension of a chain the stage has only moved forward, and an activation height once
      fixed is the same. */
  lemma Extension(vs: seq<Version>, ws: seq<Version>, d: Deployment)
    requires d.window > 0 && vs <= ws
    ensures Reaches(StageAt(vs, d), StageAt(ws, d))
    ensures StageAt(vs, d) == LockedIn || StageAt(vs, d) == Active ==> ActivationAt(ws, d) == ActivationAt(vs, d)
  {
    if |vs| > 0 && d.start <= |vs| - 1 {
      var j, k := WindowOf(d, |vs| - 1), WindowOf(d, |ws| - 1);
      SameStages(vs, ws, d, j);
      LaterWindow(d, |vs| - 1, |ws| - 1);
      StagesForward(ws, d, j, k);
    }
  }

  lemma LaterWindow(d: Deployment, a: nat, b: nat)
    requires d.window > 0 && d.start <= a <= b
    ensures WindowOf(d, a) <= WindowOf(d, b)
  {
    var j, k := WindowOf(d, a), WindowOf(d, b);
    if k < j {
      WindowsRise(d, k + 1, j);
    }
  }

  /** The activation height installed for the rules to ask about. */
  function Installed(vs: seq<Version>, d: Deployment): (h: Option<nat>)
    requires d.window > 0
  {
    if StageAt(vs, d) == LockedIn || StageAt(vs, d) == Active then Some(ActivationAt(vs, d)) else None
  }

  predicate InForce(h: Option<nat>, height: nat) {
    h.Some? && height >= h.value
  }

  lemma {:induction false} ActiveSince(vs: seq<Version>, d: Deployment, k: nat)
    requires StageIn(vs, d, k) == Active
    ensures ActivationIn(vs, d, k) <= WindowStart(d, k)
  {
    WindowsRise(d, k - 1, k);
    if StageIn(vs, d, k - 1) == Active {
      ActiveSince(vs, d, k - 1);
    }
  }

  /** The installed height puts the rule in force for the next block exactly when the chain with any
      next block evaluates to active. */
  lemma InstalledRight(vs: seq<Version>, d: Deployment, v: Version)
    requires d.window > 0 && vs != []
    ensures InForce(Installed(vs, d), |vs|) <==> StageAt(vs + [v], d) == Active
  {
    var ws, tip := vs + [v], |vs| - 1;
    if d.start <= tip {
      var j, k := WindowOf(d, tip), WindowOf(d, tip + 1);
      LaterWindow(d, tip, tip + 1);
      NextWindow(d, tip);
      SameStages(vs, ws, d, j);
      SameStages(vs, ws, d, k);
      if StageIn(vs, d, j) == LockedIn {
        LockedHeight(vs, d, j);
      } else if StageIn(vs, d, j) == Active {
        ActiveSince(vs, d, j);
      }
    } else if d.start == tip + 1 {
      WindowOfUnique(d, tip + 1, 0);
    }
  }

  /** The next block is in the same window or opens the next one. */
  lemma NextWindow(d: Deployment, tip: nat)
    requires d.window > 0 && d.start <= tip
    ensures var j, k := WindowOf(d, tip), WindowOf(d, tip + 1);
            && WindowStart(d, k) <= tip + 1
            && (if tip + 1 < WindowStart(d, j + 1) then k == j else k == j + 1 && tip + 1 == WindowStart(d, k))
  {
    var j := WindowOf(d, tip);
    if tip + 1 < WindowStart(d, j + 1) {
      WindowOfUnique(d, tip + 1, j);
    } else {
      WindowsRise(d, j + 1, j + 2);
      WindowOfUnique(d, tip + 1, j + 1);
    }
  }

  /** Every deployment's height is installed or withdrawn after the tip moved; what an operator
      scheduled by height stays. */
  method Refresh(vs: seq<Version>, deployments: map<Bytes, Deployment>, table: map<Bytes, nat>) returns (r: map<Bytes, nat>)
    requires forall name :: name in deployments ==> deployments[name].window > 0
    ensures forall name :: name in deployments ==> Entry(r, name) == Installed(vs, deployments[name])
    ensures forall name :: name !in deployments ==> Entry(r, name) == Entry(table, name)
  {
    r := table;
    var left := deployments.Keys;
    while left != {}
      invariant left <= deployments.Keys
      invariant forall name :: name in deployments && name !in left ==> Entry(r, name) == Installed(vs, deployments[name])
      invariant forall name :: name !in deployments ==> Entry(r, name) == Entry(table, name)
      decreases left
    {
      var name :| name in left;
      var st := Evaluate(vs, deployments[name]);
      if st.stage == LockedIn || st.stage == Active {
        r := r[name := st.activation];
      } else {
        r := r - {name};
      }
      left := left - {name};
    }
  }

  function Entry(table: map<Bytes, nat>, name: Bytes): (h: Option<nat>) {
    if name in table then Some(table[name]) else None
  }

  /** A number as what stands above, at and below the digit worth `p`, where that digit is one. */
  ghost predicate DigitSet(v: nat, p: nat, above: nat, below: nat) {
    below < p && v == (2 * above + 1) * p + below
  }

  ghost predicate HasDigit(v: nat, p: nat) {
    exists above: nat, below: nat :: DigitSet(v, p, above, below)
  }

  lemma HasDigitIs(v: nat, p: nat)
    requires p > 0
    ensures (v / p) % 2 == 1 <==> HasDigit(v, p)
  {
    if (v / p) % 2 == 1 {
      assert v / p == 2 * (v / p / 2) + 1;
      assert DigitSet(v, p, v / p / 2, v % p);
    }
    forall above: nat, below: nat | DigitSet(v, p, above, below) ensures (v / p) % 2 == 1 {
      DivModUnique(v, p, 2 * above + 1, below);
    }
  }

  lemma TopIs(v: Version)
    ensures v / 0x2000_0000 == 1 <==> 0x2000_0000 <= v < 0x4000_0000
  {
  }

  /** A version votes for a bit: its top three bits are 001 and the bit is set. */
  lemma SignalsIs(v: Version, bit: nat)
    ensures Signals(v, bit) <==> bit <= 28 && 0x2000_0000 <= v < 0x4000_0000 && HasDigit(v, Pow2(bit))
  {
    TopIs(v);
    HasDigitIs(v, Pow2(bit));
  }

  /** The votes of a window are its heights whose version votes. */
  ghost function Voters(vs: seq<Version>, bit: nat, from: nat, end: nat): (hs: set<nat>) {
    set h | from <= h < end && h < |vs| && Signals(vs[h], bit)
  }

  lemma {:induction false} VotesAreVoters(vs: seq<Version>, bit: nat, from: nat, end: nat)
    ensures VotesUpTo(vs, bit, from, end) == |Voters(vs, bit, from, end)|
    decreases end
  {
    if end > from {
      VotesAreVoters(vs, bit, from, end - 1);
      var before, now := Voters(vs, bit, from, end - 1), Voters(vs, bit, from, end);
      if end - 1 < |vs| && Signals(vs[end - 1], bit) {
        assert now == before + {end - 1};
      } else {
        assert now == before;
      }
    } else {
      assert Voters(vs, bit, from, end) == {};
    }
  }
}
