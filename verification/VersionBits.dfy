/** Rule changes decided by miners: a bit of the header version, counted window by window. */
module VersionBits {
  import opened Bytes

  type Version = x: int | 0 <= x < U32_LIMIT

  const MAX_BIT := 28
  /** The high three bits 001 mark a version as carrying votes. */
  const TOP_UNIT := 0x2000_0000

  datatype Stage = Defined | Started | LockedIn | Active | Failed

  datatype Deployment = Deployment(bit: nat, start: nat, timeout: nat, window: nat, threshold: nat)

  predicate Signals(v: Version, bit: nat) {
    bit <= MAX_BIT && v / TOP_UNIT == 1 && (v / Pow2(bit)) % 2 == 1
  }

  /** Votes in the window that starts at `from`, among the versions of a chain by height. */
  function VotesUpTo(vs: seq<Version>, bit: nat, from: nat, end: nat): (n: nat) {
    if end <= from then 0
    else VotesUpTo(vs, bit, from, end - 1) + if end - 1 < |vs| && Signals(vs[end - 1], bit) then 1 else 0
  }

  function Votes(vs: seq<Version>, d: Deployment, from: nat): (n: nat) {
    VotesUpTo(vs, d.bit, from, from + d.window)
  }

  method CountVotes(vs: seq<Version>, d: Deployment, from: nat) returns (n: nat)
    ensures n == Votes(vs, d, from)
  {
    n := 0;
    for h := from to from + d.window
      invariant n == VotesUpTo(vs, d.bit, from, h)
    {
      if h < |vs| && Signals(vs[h], d.bit) {
        n := n + 1;
      }
    }
  }

  function WindowStart(d: Deployment, k: nat): (h: nat) {
    d.start + k * d.window
  }

  /** The stage throughout window `k`, decided by the window before. */
  function StageIn(vs: seq<Version>, d: Deployment, k: nat): (s: Stage) {
    if k == 0 then Started
    else
      match StageIn(vs, d, k - 1)
      case Started =>
        if Votes(vs, d, WindowStart(d, k - 1)) >= d.threshold then LockedIn
        else if WindowStart(d, k) > d.timeout then Failed
        else Started
      case LockedIn => Active
      case other => other
  }

  /** The window that locked the deployment in or made it active, as an activation height. */
  function ActivationIn(vs: seq<Version>, d: Deployment, k: nat): (h: nat) {
    if k == 0 then 0
    else
      match StageIn(vs, d, k - 1)
      case Started => if StageIn(vs, d, k) == LockedIn then WindowStart(d, k) + d.window else ActivationIn(vs, d, k - 1)
      case LockedIn => WindowStart(d, k)
      case other => ActivationIn(vs, d, k - 1)
  }

  datatype Status = Status(stage: Stage, since: nat, activation: nat, windowStart: nat, votes: nat, elapsed: nat)

  /** The window a height lies in. */
  function WindowOf(d: Deployment, height: nat): (k: nat)
    requires d.window > 0 && d.start <= height
    ensures WindowStart(d, k) <= height < WindowStart(d, k + 1)
  {
    WindowSplit(height - d.start, d.window);
    (height - d.start) / d.window
  }

  lemma WindowSplit(n: nat, w: nat)
    requires w > 0
    ensures (n / w) * w <= n < (n / w + 1) * w
  {
    assert (n / w + 1) * w == (n / w) * w + w;
  }

  lemma WindowsRise(d: Deployment, j: nat, k: nat)
    requires j <= k
    ensures WindowStart(d, j) <= WindowStart(d, k)
    ensures j < k ==> WindowStart(d, j) + d.window <= WindowStart(d, k)
  {
    assert (k - j) * d.window == k * d.window - j * d.window;
    if j < k {
      MulBound(k - j, d.window + 1);
      assert (k - j) * d.window >= d.window;
    }
  }

  lemma WindowOfUnique(d: Deployment, height: nat, k: nat)
    requires d.window > 0 && WindowStart(d, k) <= height < WindowStart(d, k + 1)
    ensures d.start <= height && WindowOf(d, height) == k
  {
    var j := WindowOf(d, height);
    if j < k {
      WindowsRise(d, j + 1, k);
    } else if k < j {
      WindowsRise(d, k + 1, j);
    }
  }

  /** The stage a chain has taken a deployment to. */
  function StageAt(vs: seq<Version>, d: Deployment): (s: Stage)
    requires d.window > 0
  {
    if |vs| == 0 || |vs| - 1 < d.start then Defined else StageIn(vs, d, WindowOf(d, |vs| - 1))
  }

  function ActivationAt(vs: seq<Version>, d: Deployment): (h: nat)
    requires d.window > 0
  {
    if |vs| == 0 || |vs| - 1 < d.start then 0 else ActivationIn(vs, d, WindowOf(d, |vs| - 1))
  }

  /** The stage began with window `j`. */
  ghost predicate Began(vs: seq<Version>, d: Deployment, j: nat, s: Stage) {
    StageIn(vs, d, j) == s && (j > 0 ==> StageIn(vs, d, j - 1) != s)
  }

  /** Walks the windows up to the tip. */
  method Evaluate(vs: seq<Version>, d: Deployment) returns (st: Status)
    requires d.window > 0
    ensures st.stage == StageAt(vs, d) && st.activation == ActivationAt(vs, d)
    ensures st.stage != Defined ==>
      && st.windowStart <= |vs| - 1 < st.windowStart + d.window
      && st.votes == Votes(vs, d, st.windowStart) && st.elapsed == |vs| - st.windowStart
    ensures st.stage != Defined ==> exists j :: Began(vs, d, j, st.stage) && st.since == WindowStart(d, j)
  {
    st := Status(Defined, 0, 0, 0, 0, 0);
    if |vs| == 0 {
      return;
    }
    var tip := |vs| - 1;
    var k := 0;
    while WindowStart(d, k) <= tip
      invariant k == 0 ==> st == Status(Defined, 0, 0, 0, 0, 0)
      invariant k > 0 ==> st.stage == StageIn(vs, d, k - 1) && st.activation == ActivationIn(vs, d, k - 1)
      invariant k > 0 ==> st.windowStart == WindowStart(d, k - 1) <= tip
      invariant k > 0 ==> exists j :: Began(vs, d, j, st.stage) && st.since == WindowStart(d, j)
      decreases tip + 1 - WindowStart(d, k)
    {
      var start := WindowStart(d, k);
      assert Began(vs, d, k, StageIn(vs, d, k)) || (k > 0 && StageIn(vs, d, k) == StageIn(vs, d, k - 1));
      if k == 0 {
        st := st.(stage := Started, since := start);
      } else if st.stage == Started {
        var n := CountVotes(vs, d, st.windowStart);
        if n >= d.threshold {
          st := st.(stage := LockedIn, since := start, activation := start + d.window);
        } else if start > d.timeout {
          st := st.(stage := Failed, since := start);
        }
      } else if st.stage == LockedIn {
        st := st.(stage := Active, since := start, activation := start);
      }
      st := st.(windowStart := start);
      WindowsRise(d, k, k + 1);
      k := k + 1;
    }
    if k > 0 {
      WindowOfUnique(d, tip, k - 1);
      WindowsRise(d, k - 1, k);
      assert WindowStart(d, k) == WindowStart(d, k - 1) + d.window;
      var n := CountVotes(vs, d, st.windowStart);
      st := st.(elapsed := tip - st.windowStart + 1, votes := n);
    }
  }
}
