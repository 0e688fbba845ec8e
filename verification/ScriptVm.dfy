/** One execution of an authorization script: the machine's fields change in place and every
    operation is tied to what the language says it does. */
module ScriptVm {
  import opened Bytes
  import opened Script

  /** A step that reports success left exactly the machine the language says, and one that
      reports failure has no outcome in the language. */
  predicate Outcome(ok: bool, want: Result<Machine>, m: Machine) {
    if ok then want == Ok(m) else want.Err?
  }

  lemma PopPop(m: Machine, a: nat, b: nat)
    requires a + b <= |m.stack|
    ensures Popped(Popped(m, a), b) == Popped(m, a + b)
    ensures b > 0 ==> Top(Popped(m, a), 0) == Top(m, a)
  {
    assert m.stack[..|m.stack| - a][..|m.stack| - a - b] == m.stack[..|m.stack| - a - b];
  }

  ghost function UsedKeys(used: seq<bool>): (s: set<nat>) {
    set i: nat | i < |used| && used[i]
  }

  class Vm {
    const e: Env
    var stack: seq<Bytes>
    var ops: nat
    var sigChecks: nat
    var minHeight: nat

    ghost function State(): (m: Machine)
      reads this
    {
      Machine(stack, sigChecks, minHeight)
    }

    constructor (e: Env)
      ensures this.e == e && State() == Machine([], 0, 0) && ops == 0
    {
      this.e := e;
      stack, ops, sigChecks, minHeight := [], 0, 0, 0;
    }

    method Push(item: Bytes) returns (ok: bool)
      modifies this`stack
      ensures Outcome(ok, PushItem(old(State()), item), State())
    {
      if |stack| >= MAX_SCRIPT_STACK || |item| > MAX_ITEM_BYTES {
        return false;
      }
      stack := stack + [item];
      return true;
    }

    method Pop() returns (ok: bool, item: Bytes)
      modifies this`stack
      ensures ok <==> |old(stack)| > 0
      ensures ok ==> item == Top(old(State()), 0) && State() == Popped(old(State()), 1)
      ensures !ok ==> stack == old(stack)
    {
      if |stack| == 0 {
        return false, [];
      }
      item := stack[|stack| - 1];
      stack := stack[..|stack| - 1];
      return true, item;
    }

    method IsTruthy(item: Bytes) returns (t: bool)
      ensures t <==> Truthy(item)
    {
      for i := 0 to |item|
        invariant forall j :: 0 <= j < i ==> item[j] == 0
      {
        if item[i] != 0 {
          return true;
        }
      }
      return false;
    }

    method ReadSmallInt(item: Bytes) returns (n: nat)
      ensures n == SmallInt(item)
    {
      if |item| == 0 || |item| > 8 {
        return 0;
      }
      n := 0;
      for i := 0 to |item|
        invariant n == Value(item[..i])
      {
        assert item[..i + 1][..i] == item[..i];
        n := 256 * n + item[i];
      }
      assert item[..|item|] == item;
      if n > SMALL_INT_CAP {
        return SMALL_INT_CAP;
      }
    }

    /** Ends a check: pushes its outcome, or fails unless it held. */
    method Conclude(held: bool, verify: bool) returns (ok: bool)
      modifies this`stack
      ensures Outcome(ok, Verdict(old(State()), held, verify), State())
    {
      if verify {
        return held;
      }
      ok := Push(BoolItem(held));
    }

    method DoCheckSig(verify: bool) returns (ok: bool)
      modifies this`stack, this`sigChecks
      ensures Outcome(ok, CheckSig(e, old(State()), verify), State())
    {
      sigChecks := sigChecks + 1;
      if sigChecks > MAX_SIG_CHECKS {
        return false;
      }
      var okPub, pub := Pop();
      if !okPub {
        return false;
      }
      var okSig, sig := Pop();
      if !okSig {
        return false;
      }
      PopPop(old(State()), 1, 1);
      ok := Conclude(e.verify(pub, sig), verify);
    }

    /** Pops `n` items, topmost first. */
    method PopMany(n: nat) returns (ok: bool, items: seq<Bytes>)
      modifies this`stack
      ensures ok <==> n <= |old(stack)|
      ensures ok ==> items == TopItems(old(State()), n) && State() == Popped(old(State()), n)
    {
      items := [];
      for i := 0 to n
        invariant i <= |old(stack)| && State() == Popped(old(State()), i)
        invariant items == TopItems(old(State()), i)
      {
        var okItem, item := Pop();
        if !okItem {
          return false, [];
        }
        items := items + [item];
      }
      return true, items;
    }

    /** Tries each signature against the keys no earlier signature has taken. */
    method MatchSigs(keys: seq<Bytes>, sigs: seq<Bytes>) returns (matched: nat)
      ensures matched == Matched(e, keys, sigs, {})
    {
      var used := seq(|keys|, _ => false);
      matched := 0;
      assert UsedKeys(used) == {};
      for i := 0 to |sigs|
        invariant |used| == |keys|
        invariant matched + Matched(e, keys, sigs[i..], UsedKeys(used)) == Matched(e, keys, sigs, {})
      {
        var k := FindKey(keys, sigs[i], used);
        assert sigs[i..][1..] == sigs[i + 1..];
        if k < |keys| {
          assert UsedKeys(used[k := true]) == UsedKeys(used) + {k};
          used := used[k := true];
          matched := matched + 1;
        }
      }
    }

    /** The first free key that verifies the signature, or the number of keys. */
    method FindKey(keys: seq<Bytes>, sig: Bytes, used: seq<bool>) returns (k: nat)
      requires |used| == |keys|
      ensures FirstMatch(e, keys, sig, UsedKeys(used), 0) == if k < |keys| then Some(k) else None
    {
      k := 0;
      while k < |keys|
        invariant k <= |keys|
        invariant FirstMatch(e, keys, sig, UsedKeys(used), 0) == FirstMatch(e, keys, sig, UsedKeys(used), k)
      {
        if !used[k] && e.verify(keys[k], sig) {
          return k;
        }
        k := k + 1;
      }
    }

    /** Pops a count of at most `limit` and then that many items. */
    method PopGroup(limit: nat) returns (ok: bool, items: seq<Bytes>)
      modifies this`stack
      ensures ok <==> TakeGroup(old(State()), limit).Some?
      ensures ok ==> TakeGroup(old(State()), limit) == Some(Group(items, State()))
    {
      var okN, nItem := Pop();
      if !okN {
        return false, [];
      }
      var n := ReadSmallInt(nItem);
      if n <= 0 || n > limit {
        return false, [];
      }
      ok, items := PopMany(n);
    }

    method DoCheckMultiSig(verify: bool) returns (ok: bool)
      modifies this`stack, this`sigChecks
      ensures Outcome(ok, CheckMultiSig(e, old(State()), verify), State())
    {
      var okKeys, keys := PopGroup(MAX_SIG_CHECKS);
      if !okKeys {
        return false;
      }
      var okSigs, sigs := PopGroup(|keys|);
      if !okSigs {
        return false;
      }
      sigChecks := sigChecks + SigCost(|sigs|, |keys|);
      if sigChecks > MAX_SIG_CHECKS {
        return false;
      }
      var matched := MatchSigs(keys, sigs);
      ok := Conclude(matched >= |sigs|, verify);
    }

    method DoCheckHeight() returns (ok: bool)
      modifies this`stack, this`minHeight
      ensures Outcome(ok, CheckHeight(old(State())), State())
    {
      var okItem, item := Pop();
      if !okItem {
        return false;
      }
      var h := ReadSmallInt(item);
      if |item| > 8 {
        return false;
      }
      if h > minHeight {
        minHeight := h;
      }
      return true;
    }

    method DoEqual(verify: bool) returns (ok: bool)
      modifies this`stack
      ensures |old(stack)| < 2 ==> !ok
      ensures |old(stack)| >= 2 ==>
        Outcome(ok, Verdict(Popped(old(State()), 2), Top(old(State()), 0) == Top(old(State()), 1), verify), State())
    {
      var okA, a := Pop();
      if !okA {
        return false;
      }
      var okB, b := Pop();
      if !okB {
        return false;
      }
      PopPop(old(State()), 1, 1);
      ok := Conclude(a == b, verify);
    }

    method Execute(op: Byte) returns (ok: bool)
      modifies this`stack, this`sigChecks, this`minHeight
      ensures Outcome(ok, Exec(e, op, old(State())), State())
    {
      if op == OP_TRUE {
        ok := Push([1]);
      } else if op == OP_FALSE {
        ok := Push([]);
      } else if op == OP_DUP {
        if |stack| == 0 {
          return false;
        }
        ok := Push(stack[|stack| - 1]);
      } else if op == OP_DROP {
        var item;
        ok, item := Pop();
      } else if op == OP_SWAP {
        if |stack| < 2 {
          return false;
        }
        var n := |stack|;
        stack := stack[..n - 2] + [stack[n - 1], stack[n - 2]];
        return true;
      } else if op == OP_EQUAL || op == OP_EQUAL_VERIFY {
        ok := DoEqual(op == OP_EQUAL_VERIFY);
      } else if op == OP_VERIFY {
        var item;
        ok, item := Pop();
        if ok {
          ok := IsTruthy(item);
        }
      } else if op == OP_SHA256 {
        var item;
        ok, item := Pop();
        if ok {
          ok := Push(e.sha(item));
        }
      } else if op == OP_CHECK_SIG || op == OP_CHECK_SIG_VERIFY {
        ok := DoCheckSig(op == OP_CHECK_SIG_VERIFY);
      } else if op == OP_CHECK_MULTI_SIG || op == OP_CHECK_MULTI_SIG_VERIFY {
        ok := DoCheckMultiSig(op == OP_CHECK_MULTI_SIG_VERIFY);
      } else if op == OP_CHECK_HEIGHT_VERIFY {
        ok := DoCheckHeight();
      } else {
        ok := false;
      }
    }

    method AllLive(branches: seq<bool>) returns (live: bool)
      ensures live <==> Live(branches)
    {
      for i := 0 to |branches|
        invariant Live(branches[..i])
      {
        if !branches[i] {
          return false;
        }
      }
      return true;
    }

    /** One instruction of the scan. */
    method Step(instr: Instr, branches: seq<bool>) returns (ok: bool, branches': seq<bool>)
      modifies this`stack, this`sigChecks, this`minHeight
      ensures var want := FlatStep(ScriptSemantics(e), instr, branches, old(State()));
              if ok then want == Ok((branches', State())) else want.Err?
    {
      ok, branches' := true, branches;
      match instr
      case If =>
        var live := AllLive(branches);
        var cond: Bytes := [];
        if live {
          ok, cond := Pop();
        }
        var taken := IsTruthy(cond);
        branches' := branches + [live && taken];
      case Else =>
        if |branches| == 0 {
          return false, branches;
        }
        var outer := branches[..|branches| - 1];
        var outerLive := AllLive(outer);
        if outerLive {
          branches' := outer + [!branches[|branches| - 1]];
        } else {
          assert outer + [branches[|branches| - 1]] == branches;
        }
      case EndIf =>
        if |branches| == 0 {
          return false, branches;
        }
        branches' := branches[..|branches| - 1];
      case Push(data) =>
        var live := AllLive(branches);
        if live {
          ok := Push(data);
        }
      case Do(op) =>
        var live := AllLive(branches);
        if live {
          ok := Execute(op);
        }
    }

    /** Scans the script once, forwards. */
    method RunScript(script: Bytes) returns (ok: bool)
      requires ops == 0
      modifies this
      ensures Outcome(ok, if |script| > MAX_SCRIPT_BYTES then Err else Run(ScriptSemantics(e), script, old(State())), State())
    {
      if |script| > MAX_SCRIPT_BYTES {
        return false;
      }
      var branches: seq<bool> := [];
      var i: nat := 0;
      ghost var want := Run(ScriptSemantics(e), script, State());
      while i < |script|
        invariant i <= |script|
        invariant Flat(ScriptSemantics(e), script, i, branches, State(), ops) == want
        decreases |script| - i
      {
        ops := ops + 1;
        if ops > MAX_SCRIPT_OPS {
          return false;
        }
        var read := Read(script, i);
        if read.None? {
          return false;
        }
        ok, branches := Step(read.value.0, branches);
        if !ok {
          return false;
        }
        i := read.value.1;
      }
      return branches == [];
    }
  }

  predicate WitnessFits(args: seq<Bytes>) {
    |args| <= MAX_WITNESS && forall i :: 0 <= i < |args| ==> |args[i]| <= MAX_ITEM_BYTES
  }

  /** What a script-authorized spend evaluates to: the script is the sender's account, the witness
      fits, and the run leaves exactly one true item. */
  function Eval(e: Env, derive: Bytes -> Bytes, sender: Bytes, script: Bytes, args: seq<Bytes>): (r: Result<Machine>) {
    if !(0 < |script| <= MAX_SCRIPT_BYTES) || derive(script) != sender || !WitnessFits(args) then Err
    else
      var end := Run(ScriptSemantics(e), script, Machine(args, 0, 0));
      if end.Ok? && |end.value.stack| == 1 && Truthy(end.value.stack[0]) then end else Err
  }

  /** Runs a predicate against its witness; the witness is pushed as data before anything runs. */
  method EvalScript(e: Env, derive: Bytes -> Bytes, sender: Bytes, script: Bytes, args: seq<Bytes>)
    returns (ok: bool, minHeight: nat, sigChecks: nat)
    ensures ok <==> Eval(e, derive, sender, script, args).Ok?
    ensures ok ==> minHeight == Eval(e, derive, sender, script, args).value.minHeight
    ensures ok ==> sigChecks == Eval(e, derive, sender, script, args).value.sigChecks
  {
    ok, minHeight, sigChecks := false, 0, 0;
    if |script| == 0 || |script| > MAX_SCRIPT_BYTES || derive(script) != sender || |args| > MAX_WITNESS {
      return;
    }
    var vm := new Vm(e);
    for i := 0 to |args|
      invariant vm.State() == Machine(args[..i], 0, 0) && vm.ops == 0
      invariant forall j :: 0 <= j < i ==> |args[j]| <= MAX_ITEM_BYTES
    {
      if |args[i]| > MAX_ITEM_BYTES {
        return;
      }
      var pushed := vm.Push(args[i]);
      assert args[..i + 1] == args[..i] + [args[i]];
      if !pushed {
        return;
      }
    }
    assert args[..|args|] == args;
    var ran := vm.RunScript(script);
    if !ran || |vm.stack| != 1 {
      return;
    }
    ok := vm.IsTruthy(vm.stack[0]);
    minHeight, sigChecks := vm.minHeight, vm.sigChecks;
  }
}
