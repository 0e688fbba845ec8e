/** Threshold signatures in the script language: distinct keys, and which witnesses an assembled
    M-of-N condition accepts. */
module ScriptMultisig {
  import opened Bytes
  import opened Script
  import opened ScriptMeaning
  import opened ScriptVm
  import opened ScriptBuild
  import opened ScriptPredicates

  /** `a` gives every signature a key of its own, outside `used`, that verifies it. */
  ghost predicate Assigns(e: Env, keys: seq<Bytes>, sigs: seq<Bytes>, used: set<nat>, a: seq<nat>) {
    && |a| == |sigs|
    && (forall i :: 0 <= i < |a| ==> a[i] < |keys| && a[i] !in used && e.verify(keys[a[i]], sigs[i]))
    && (forall i, j :: 0 <= i < j < |a| ==> a[i] != a[j])
  }

  /** A met threshold is met by distinct keys. */
  lemma {:induction false} MatchedDistinct(e: Env, keys: seq<Bytes>, sigs: seq<Bytes>, used: set<nat>) returns (a: seq<nat>)
    requires Matched(e, keys, sigs, used) == |sigs|
    ensures Assigns(e, keys, sigs, used, a)
    decreases |sigs|
  {
    if sigs == [] {
      a := [];
    } else {
      var k := FirstMatch(e, keys, sigs[0], used, 0).value;
      var rest := MatchedDistinct(e, keys, sigs[1..], used + {k});
      a := [k] + rest;
    }
  }

  /** No signature verifies under two different keys. */
  ghost predicate KeysDisagree(e: Env, keys: seq<Bytes>, sigs: seq<Bytes>) {
    forall s, i, j :: 0 <= s < |sigs| && 0 <= i < |keys| && 0 <= j < |keys| ==>
      e.verify(keys[i], sigs[s]) && e.verify(keys[j], sigs[s]) ==> keys[i] == keys[j]
  }

  /** An assignment that avoids `k`, by giving `k`'s signature the key just freed. */
  ghost function Rerouted(a: seq<nat>, k: nat, free: nat): (b: seq<nat>)
    ensures |b| == |a|
    ensures forall i :: 0 <= i < |a| ==> b[i] == if a[i] == k then free else a[i]
  {
    if a == [] then []
    else Rerouted(a[..|a| - 1], k, free) + [if a[|a| - 1] == k then free else a[|a| - 1]]
  }

  /** Taking keys greedily loses nothing when no signature verifies under two different keys: if
      any assignment exists, every signature is matched. */
  lemma {:induction false} MatchedComplete(e: Env, keys: seq<Bytes>, sigs: seq<Bytes>, used: set<nat>, a: seq<nat>)
    requires KeysDisagree(e, keys, sigs) && Assigns(e, keys, sigs, used, a)
    ensures Matched(e, keys, sigs, used) == |sigs|
    decreases |sigs|
  {
    if sigs != [] {
      var rest := sigs[1..];
      var k := FirstMatch(e, keys, sigs[0], used, 0);
      assert e.verify(keys[a[0]], sigs[0]);
      assert k.Some?;
      var b := Rerouted(a[1..], k.value, a[0]);
      assert Assigns(e, keys, rest, used + {k.value}, b) by {
        RerouteAssigns(e, keys, sigs, used, a, k.value);
      }
      assert KeysDisagree(e, keys, rest) by {
        forall s, i, j | 0 <= s < |rest| && 0 <= i < |keys| && 0 <= j < |keys|
          && e.verify(keys[i], rest[s]) && e.verify(keys[j], rest[s])
          ensures keys[i] == keys[j]
        {
          assert rest[s] == sigs[s + 1];
        }
      }
      MatchedComplete(e, keys, rest, used + {k.value}, b);
    }
  }

  lemma RerouteAssigns(e: Env, keys: seq<Bytes>, sigs: seq<Bytes>, used: set<nat>, a: seq<nat>, k: nat)
    requires sigs != [] && KeysDisagree(e, keys, sigs) && Assigns(e, keys, sigs, used, a)
    requires k < |keys| && k !in used && e.verify(keys[k], sigs[0])
    ensures Assigns(e, keys, sigs[1..], used + {k}, Rerouted(a[1..], k, a[0]))
  {
    var b := Rerouted(a[1..], k, a[0]);
    assert keys[k] == keys[a[0]];
    forall i | 0 <= i < |b|
      ensures b[i] < |keys| && b[i] !in used + {k} && e.verify(keys[b[i]], sigs[1..][i])
    {
      assert a[1..][i] == a[i + 1] && sigs[1..][i] == sigs[i + 1];
    }
  }

  /** Keys pushed last first. */
  ghost function PushedKeys(keys: seq<Bytes>, n: nat): (items: seq<Bytes>)
    requires n <= |keys|
    ensures |items| == n && forall j :: 0 <= j < n ==> items[j] == keys[n - 1 - j]
  {
    if n == 0 then [] else [keys[n - 1]] + PushedKeys(keys, n - 1)
  }

  ghost function KeysCode(keys: seq<Bytes>, n: nat, tail: Code): (c: Code)
    requires n <= |keys|
    ensures Plain(tail) ==> Plain(c)
  {
    if n == 0 then tail else Then(Push(keys[n - 1]), KeysCode(keys, n - 1, tail))
  }

  ghost function CountAndCheck(n: nat): (c: Code) {
    Then(Push(UintBytes(n)), Then(Do(OP_CHECK_MULTI_SIG), Done))
  }

  ghost function MultisigCode(threshold: nat, keys: seq<Bytes>): (c: Code) {
    Then(Push(UintBytes(threshold)), KeysCode(keys, |keys|, CountAndCheck(|keys|)))
  }

  predicate ItemsFit(items: seq<Bytes>) {
    forall i :: 0 <= i < |items| ==> |items[i]| <= MAX_ITEM_BYTES
  }

  /** Pushes the keys in reverse, so that they pop in order. */
  method PushKeys(s: Builder, keys: seq<Bytes>, ghost tail: Code)
    requires s.Valid() && !s.failed && !s.code.Garbled?
    modifies s
    ensures s.Valid() && (s.failed <==> !ItemsFit(keys))
    ensures !s.failed ==> !s.code.Garbled? && Printed(tail, s.code) == Printed(KeysCode(keys, |keys|, tail), old(s.code))
  {
    ghost var whole := Printed(KeysCode(keys, |keys|, tail), s.code);
    var i := |keys|;
    while i > 0
      invariant 0 <= i <= |keys| && s.Valid()
      invariant s.failed <==> exists j :: i <= j < |keys| && |keys[j]| > MAX_ITEM_BYTES
      invariant !s.failed ==> !s.code.Garbled? && Printed(KeysCode(keys, i, tail), s.code) == whole
      modifies s
    {
      i := i - 1;
      s.Push(keys[i]);
    }
  }

  /** Any `threshold` of the listed keys must sign. */
  method ScriptMultisig(threshold: int, keys: seq<Bytes>) returns (r: Result<Bytes>)
    requires |keys| < U64_LIMIT
    ensures r.Ok? <==>
      && 1 <= threshold <= |keys| && ItemsFit(keys) && |ScriptOf(MultisigCode(threshold, keys))| <= MAX_SCRIPT_BYTES
    ensures r.Ok? ==> r.value == ScriptOf(MultisigCode(threshold, keys))
  {
    if threshold < 1 || threshold > |keys| {
      return Err;
    }
    ghost var whole := Printed(MultisigCode(threshold, keys), Blank);
    var s := new Builder();
    s.PushUint(threshold);
    PushKeys(s, keys, CountAndCheck(|keys|));
    s.PushUint(|keys|);
    s.Op(OP_CHECK_MULTI_SIG);
    r := s.Build();
  }

  lemma {:induction false} KeysListing(keys: seq<Bytes>, n: nat, tail: Code, l: Listing)
    requires n <= |keys| && Legible(l) && ItemsFit(keys)
    ensures exists l' :: Legible(l') && Length(l') == Length(l) + n && Printed(KeysCode(keys, n, tail), l) == Printed(tail, l')
    decreases n
  {
    if n == 0 {
      assert Printed(KeysCode(keys, n, tail), l) == Printed(tail, l);
    } else {
      KeysListing(keys, n - 1, tail, Listed(l, Push(keys[n - 1])));
    }
  }

  lemma MultisigListing(threshold: nat, keys: seq<Bytes>)
    requires ItemsFit(keys)
    ensures var l := Printed(MultisigCode(threshold, keys), Blank);
            Legible(l) && Length(l) == |keys| + 3 && |Assembled(l)| > 0
    ensures Plain(MultisigCode(threshold, keys))
  {
    var tail, l := CountAndCheck(|keys|), Listed(Blank, Push(UintBytes(threshold)));
    assert Legible(Blank);
    ThenListing(Push(UintBytes(threshold)), KeysCode(keys, |keys|, tail), Blank);
    KeysListing(keys, |keys|, tail, l);
    var l' :| Legible(l') && Length(l') == Length(l) + |keys| && Printed(KeysCode(keys, |keys|, tail), l) == Printed(tail, l');
    var l'' := Listed(l', Push(UintBytes(|keys|)));
    ThenListing(Push(UintBytes(|keys|)), Then(Do(OP_CHECK_MULTI_SIG), Done), l');
    ThenListing(Do(OP_CHECK_MULTI_SIG), Done, l'');
    assert Plain(Then(Do(OP_CHECK_MULTI_SIG), Done));
  }

  /** Pushing the keys either overflows the stack or lays them on it, the first key on top. */
  lemma {:induction false} KeysRun(e: Env, keys: seq<Bytes>, n: nat, tail: Code, stack: seq<Bytes>)
    requires n <= |keys| && ItemsFit(keys) && |stack| <= MAX_SCRIPT_STACK
    ensures RunCode(ScriptSemantics(e), KeysCode(keys, n, tail), Machine(stack, 0, 0)) ==
            if |stack| + n > MAX_SCRIPT_STACK then Err
            else RunCode(ScriptSemantics(e), tail, Machine(stack + PushedKeys(keys, n), 0, 0))
    decreases n
  {
    if n == 0 {
      assert stack + PushedKeys(keys, 0) == stack;
    } else {
      var s, m, key := ScriptSemantics(e), Machine(stack, 0, 0), keys[n - 1];
      assert s.perform(Push(key), m) == PushItem(m, key);
      StepThen(s, Push(key), KeysCode(keys, n - 1, tail), m, PushItem(m, key));
      if |stack| < MAX_SCRIPT_STACK {
        KeysRun(e, keys, n - 1, tail, stack + [key]);
        assert stack + [key] + PushedKeys(keys, n - 1) == stack + PushedKeys(keys, n);
      }
    }
  }

  /** The witness with its last item first, as the interpreter pops it. */
  ghost function Backwards(args: seq<Bytes>): (r: seq<Bytes>)
    ensures |r| == |args| && forall i :: 0 <= i < |args| ==> r[i] == args[|args| - 1 - i]
  {
    if args == [] then [] else [args[|args| - 1]] + Backwards(args[..|args| - 1])
  }

  /** A group is its count on top of its items. */
  lemma TakesGroup(below: Machine, n: nat, limit: nat, items: seq<Bytes>, rest: Machine)
    requires n < U64_LIMIT && limit <= MAX_SIG_CHECKS
    requires n <= |below.stack| ==> items == TopItems(below, n) && rest == Popped(below, n)
    ensures TakeGroup(below.(stack := below.stack + [UintBytes(n)]), limit) ==
            if 1 <= n <= limit && n <= |below.stack| then Some(Group(items, rest)) else None
  {
    var m := below.(stack := below.stack + [UintBytes(n)]);
    SmallIntOfUint(n);
    assert Popped(m, 1).stack == below.stack;
  }

  lemma KeysTaken(base: seq<Bytes>, keys: seq<Bytes>, limit: nat)
    requires 1 <= |keys| < U64_LIMIT && limit <= MAX_SIG_CHECKS
    ensures TakeGroup(Machine(base + PushedKeys(keys, |keys|) + [UintBytes(|keys|)], 0, 0), limit)
         == if |keys| <= limit then Some(Group(keys, Machine(base, 0, 0))) else None
  {
    var below := Machine(base + PushedKeys(keys, |keys|), 0, 0);
    assert TopItems(below, |keys|) == keys;
    assert Popped(below, |keys|).stack == base;
    TakesGroup(below, |keys|, limit, keys, Machine(base, 0, 0));
  }

  lemma SigsOnTop(args: seq<Bytes>, n: nat)
    requires n <= |args|
    ensures TopItems(Machine(args, 0, 0), n) == Backwards(args)[..n]
  {
  }

  lemma SigsTaken(args: seq<Bytes>, n: nat, limit: nat, sigs: seq<Bytes>, rest: Machine)
    requires 1 <= n < U64_LIMIT && limit <= MAX_SIG_CHECKS
    requires n <= |args| ==> sigs == Backwards(args)[..n] && rest == Machine(args[..|args| - n], 0, 0)
    ensures TakeGroup(Machine(args + [UintBytes(n)], 0, 0), limit)
         == if n <= limit && n <= |args| then Some(Group(sigs, rest)) else None
  {
    if n <= |args| {
      SigsOnTop(args, n);
    }
    TakesGroup(Machine(args, 0, 0), n, limit, sigs, rest);
  }

  lemma ThresholdOnTop(e: Env, keys: seq<Bytes>, sigs: seq<Bytes>, below: seq<Bytes>)
    requires |below| < MAX_SCRIPT_STACK
    ensures MeetThreshold(e, Machine(below, 0, 0), keys, sigs, false) ==
            if SigCost(|sigs|, |keys|) > MAX_SIG_CHECKS then Err
            else Ok(Machine(below + [BoolItem(Matched(e, keys, sigs, {}) == |sigs|)], SigCost(|sigs|, |keys|), 0))
  {
  }

  /** The final check, on a stack holding the witness, the threshold and the keys. */
  lemma CheckOnTop(e: Env, threshold: nat, keys: seq<Bytes>, args: seq<Bytes>,
                   sigs: seq<Bytes>, rest: Machine)
    requires 1 <= threshold <= |keys| < U64_LIMIT && |args| < MAX_SCRIPT_STACK
    requires threshold <= |args| ==> sigs == Backwards(args)[..threshold] && rest == Machine(args[..|args| - threshold], 0, 0)
    ensures var m := Machine(args + [UintBytes(threshold)] + PushedKeys(keys, |keys|) + [UintBytes(|keys|)], 0, 0);
            CheckMultiSig(e, m, false) ==
            if |keys| > MAX_SIG_CHECKS || threshold > |args| then Err
            else MeetThreshold(e, rest, keys, sigs, false)
  {
    KeysTaken(args + [UintBytes(threshold)], keys, MAX_SIG_CHECKS);
    if |keys| <= MAX_SIG_CHECKS {
      SigsTaken(args, threshold, |keys|, sigs, rest);
    }
  }

  /** For every witness, the assembled condition succeeds exactly when the witness is one signature
      per required key, the signature checks fit their cap, and all are matched to distinct keys. */
  lemma MultisigSpends(e: Env, derive: Bytes -> Bytes, account: Bytes, threshold: nat, keys: seq<Bytes>,
                       script: Bytes, args: seq<Bytes>)
    requires 1 <= threshold <= |keys| < U64_LIMIT && ItemsFit(keys)
    requires script == ScriptOf(MultisigCode(threshold, keys)) && |script| <= MAX_SCRIPT_BYTES && derive(script) == account
    ensures Eval(e, derive, account, script, args).Ok? <==>
      && WitnessFits(args) && |args| == threshold && SigCost(threshold, |keys|) <= MAX_SIG_CHECKS
      && Matched(e, keys, Backwards(args), {}) == threshold
  {
    if WitnessFits(args) {
      MultisigListing(threshold, keys);
      var s, m := ScriptSemantics(e), Machine(args, 0, 0);
      AssembledRuns(s, MultisigCode(threshold, keys), Printed(MultisigCode(threshold, keys), Blank), m);
      MultisigRuns(e, threshold, keys, args);
      CheckCost(threshold, |keys|);
    }
  }

  lemma MultisigRuns(e: Env, threshold: nat, keys: seq<Bytes>, args: seq<Bytes>)
    requires 1 <= threshold <= |keys| < U64_LIMIT && ItemsFit(keys) && |args| <= MAX_WITNESS
    ensures var end := Ends(RunCode(ScriptSemantics(e), MultisigCode(threshold, keys), Machine(args, 0, 0)));
            end.Ok? <==> |args| == threshold && SigCost(threshold, |keys|) <= MAX_SIG_CHECKS
                         && Matched(e, keys, Backwards(args), {}) == threshold
  {
    var s, m, n := ScriptSemantics(e), Machine(args, 0, 0), |keys|;
    var base := args + [UintBytes(threshold)];
    var m1, tail := Machine(base, 0, 0), CountAndCheck(n);
    PushRuns(e, UintBytes(threshold), m);
    StepThen(s, Push(UintBytes(threshold)), KeysCode(keys, n, tail), m, Ok(m1));
    KeysRun(e, keys, n, tail, base);
    CheckCost(threshold, n);
    if |base| + n < MAX_SCRIPT_STACK {
      var m2 := Machine(base + PushedKeys(keys, n), 0, 0);
      var m3 := Machine(m2.stack + [UintBytes(n)], 0, 0);
      PushRuns(e, UintBytes(n), m2);
      StepThen(s, Push(UintBytes(n)), Then(Do(OP_CHECK_MULTI_SIG), Done), m2, Ok(m3));
      assert s.perform(Do(OP_CHECK_MULTI_SIG), m3) == CheckMultiSig(e, m3, false);
      StepThen(s, Do(OP_CHECK_MULTI_SIG), Done, m3, CheckMultiSig(e, m3, false));
      var sigs := if threshold <= |args| then Backwards(args)[..threshold] else [];
      var below := if threshold <= |args| then args[..|args| - threshold] else [];
      CheckOnTop(e, threshold, keys, args, sigs, Machine(below, 0, 0));
      if threshold <= |args| {
        ThresholdOnTop(e, keys, sigs, below);
        VerdictEnds(below, Matched(e, keys, sigs, {}) == threshold, SigCost(threshold, n));
        assert |args| == threshold ==> sigs == Backwards(args);
      }
    } else if |base| + n == MAX_SCRIPT_STACK {
      var m2 := Machine(base + PushedKeys(keys, n), 0, 0);
      assert s.perform(Push(UintBytes(n)), m2) == PushItem(m2, UintBytes(n));
      StepThen(s, Push(UintBytes(n)), Then(Do(OP_CHECK_MULTI_SIG), Done), m2, Err);
    }
  }

  lemma CheckCost(threshold: nat, n: nat)
    requires 1 <= threshold
    ensures SigCost(threshold, n) >= n
  {
  }

  lemma VerdictEnds(below: seq<Bytes>, ok: bool, checks: nat)
    ensures Ends(Ok(Machine(below + [BoolItem(ok)], checks, 0))).Ok? <==> below == [] && ok
  {
    var one: Bytes := [1];
    assert one[0] != 0;
  }
}
