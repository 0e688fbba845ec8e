/** The spending conditions the builder offers, and exactly which witnesses satisfy them. */
module ScriptPredicates {
  import opened Bytes
  import opened Script
  import opened ScriptMeaning
  import opened ScriptVm
  import opened ScriptBuild

  ghost function HtlcClaim(hash: Bytes, recipient: Bytes): (c: Code) {
    Then(Do(OP_SHA256), Then(Push(hash), Then(Do(OP_EQUAL_VERIFY), OneKey(recipient))))
  }

  ghost function OneKey(key: Bytes): (c: Code) {
    Then(Push(key), Then(Do(OP_CHECK_SIG), Done))
  }

  /** A key that may not spend before a height. */
  ghost function TimedKey(key: Bytes, height: nat): (c: Code) {
    Then(Push(UintBytes(height)), Then(Do(OP_CHECK_HEIGHT_VERIFY), OneKey(key)))
  }

  ghost function TwoArms(yes: Code, no: Code): (c: Code) {
    Cond(More(yes, Last(no)), Done)
  }

  ghost function HtlcCode(hash: Bytes, recipient: Bytes, sender: Bytes, timeout: nat): (c: Code) {
    TwoArms(HtlcClaim(hash, recipient), TimedKey(sender, timeout))
  }

  ghost function ScriptOf(c: Code): (b: Bytes) {
    Assembled(Printed(c, Blank))
  }

  lemma ThenListing(instr: Instr, rest: Code, l: Listing)
    ensures Printed(Then(instr, rest), l) == Printed(rest, Listed(l, instr))
    ensures Legible(Listed(l, instr)) <==> Legible(l) && Writable(instr)
    ensures Length(Listed(l, instr)) == Length(l) + 1
  {
  }

  lemma OneKeyListing(key: Bytes, l: Listing)
    ensures Printed(OneKey(key), l) == Listed(Listed(l, Push(key)), Do(OP_CHECK_SIG))
    ensures |key| <= MAX_ITEM_BYTES && Legible(l) ==> Legible(Printed(OneKey(key), l))
    ensures Length(Printed(OneKey(key), l)) == Length(l) + 2
  {
    ThenListing(Push(key), Then(Do(OP_CHECK_SIG), Done), l);
    ThenListing(Do(OP_CHECK_SIG), Done, Listed(l, Push(key)));
  }

  lemma TimedKeyListing(key: Bytes, height: nat, l: Listing)
    ensures Printed(TimedKey(key, height), l) ==
            Printed(OneKey(key), Listed(Listed(l, Push(UintBytes(height))), Do(OP_CHECK_HEIGHT_VERIFY)))
    ensures |key| <= MAX_ITEM_BYTES && Legible(l) ==> Legible(Printed(TimedKey(key, height), l))
    ensures Length(Printed(TimedKey(key, height), l)) == Length(l) + 4
  {
    var l' := Listed(l, Push(UintBytes(height)));
    ThenListing(Push(UintBytes(height)), Then(Do(OP_CHECK_HEIGHT_VERIFY), OneKey(key)), l);
    ThenListing(Do(OP_CHECK_HEIGHT_VERIFY), OneKey(key), l');
    OneKeyListing(key, Listed(l', Do(OP_CHECK_HEIGHT_VERIFY)));
  }

  lemma ClaimListing(hash: Bytes, recipient: Bytes, l: Listing)
    ensures Printed(HtlcClaim(hash, recipient), l) ==
            Printed(OneKey(recipient), Listed(Listed(Listed(l, Do(OP_SHA256)), Push(hash)), Do(OP_EQUAL_VERIFY)))
    ensures |hash| <= MAX_ITEM_BYTES && |recipient| <= MAX_ITEM_BYTES && Legible(l) ==>
            Legible(Printed(HtlcClaim(hash, recipient), l))
    ensures Length(Printed(HtlcClaim(hash, recipient), l)) == Length(l) + 5
  {
    var l1 := Listed(l, Do(OP_SHA256));
    var l2 := Listed(l1, Push(hash));
    var afterHash := Then(Do(OP_EQUAL_VERIFY), OneKey(recipient));
    ThenListing(Do(OP_SHA256), Then(Push(hash), afterHash), l);
    ThenListing(Push(hash), afterHash, l1);
    ThenListing(Do(OP_EQUAL_VERIFY), OneKey(recipient), l2);
    OneKeyListing(recipient, Listed(l2, Do(OP_EQUAL_VERIFY)));
  }

  lemma TwoArmsListing(yes: Code, no: Code)
    ensures Printed(TwoArms(yes, no), Blank) ==
            Listed(Printed(no, Listed(Printed(yes, Listed(Blank, If)), Else)), EndIf)
  {
    var l := Listed(Blank, If);
    assert PrintedArms(More(yes, Last(no)), l) == PrintedArms(Last(no), Listed(Printed(yes, l), Else));
  }

  method WriteKey(s: Builder, key: Bytes)
    requires s.Valid()
    modifies s
    ensures s.Valid() && (s.failed <==> old(s.failed) || |key| > MAX_ITEM_BYTES)
    ensures s.code == if old(s.code).Garbled? || |key| > MAX_ITEM_BYTES then Garbled else Printed(OneKey(key), old(s.code))
  {
    s.Push(key);
    s.Op(OP_CHECK_SIG);
    OneKeyListing(key, old(s.code));
  }

  method WriteTimedKey(s: Builder, key: Bytes, height: nat)
    requires s.Valid() && height < U64_LIMIT
    modifies s
    ensures s.Valid() && (s.failed <==> old(s.failed) || |key| > MAX_ITEM_BYTES)
    ensures s.code ==
      if old(s.code).Garbled? || |key| > MAX_ITEM_BYTES then Garbled else Printed(TimedKey(key, height), old(s.code))
  {
    s.PushUint(height);
    s.Op(OP_CHECK_HEIGHT_VERIFY);
    WriteKey(s, key);
    TimedKeyListing(key, height, old(s.code));
  }

  /** A hash-time-locked contract: the recipient claims with a preimage, or the sender reclaims
      after a timeout. */
  method ScriptHtlc(hash: Bytes, recipient: Bytes, sender: Bytes, timeout: nat) returns (r: Result<Bytes>)
    requires timeout < U64_LIMIT
    ensures r.Ok? <==>
      && |hash| <= MAX_ITEM_BYTES && |recipient| <= MAX_ITEM_BYTES && |sender| <= MAX_ITEM_BYTES
      && |ScriptOf(HtlcCode(hash, recipient, sender, timeout))| <= MAX_SCRIPT_BYTES
    ensures r.Ok? ==> r.value == ScriptOf(HtlcCode(hash, recipient, sender, timeout))
  {
    var s := new Builder();
    s.Op(OP_IF);
    s.Op(OP_SHA256);
    s.Push(hash);
    s.Op(OP_EQUAL_VERIFY);
    WriteKey(s, recipient);
    s.Op(OP_ELSE);
    WriteTimedKey(s, sender, timeout);
    s.Op(OP_END_IF);
    HtlcListing(hash, recipient, sender, timeout);
    r := s.Build();
  }

  lemma HtlcListing(hash: Bytes, recipient: Bytes, sender: Bytes, timeout: nat)
    ensures var l := Printed(HtlcCode(hash, recipient, sender, timeout), Blank);
            && Length(l) == 12 && |Assembled(l)| > 0
            && (|hash| <= MAX_ITEM_BYTES && |recipient| <= MAX_ITEM_BYTES && |sender| <= MAX_ITEM_BYTES ==> Legible(l))
    ensures var l := Listed(Listed(Listed(Listed(Blank, If), Do(OP_SHA256)), Push(hash)), Do(OP_EQUAL_VERIFY));
            Printed(HtlcCode(hash, recipient, sender, timeout), Blank) ==
            Listed(Printed(TimedKey(sender, timeout), Listed(Printed(OneKey(recipient), l), Else)), EndIf)
  {
    var yes, no, l := HtlcClaim(hash, recipient), TimedKey(sender, timeout), Listed(Blank, If);
    TwoArmsListing(yes, no);
    ClaimListing(hash, recipient, l);
    TimedKeyListing(sender, timeout, Listed(Printed(yes, l), Else));
  }

  /** The recipient's witness: signature, preimage, and a true selector on top. */
  ghost predicate Claims(e: Env, hash: Bytes, recipient: Bytes, args: seq<Bytes>) {
    |args| == 3 && Truthy(args[2]) && e.sha(args[1]) == hash && e.verify(recipient, args[0])
  }

  /** The sender's witness: signature and a false selector on top. */
  ghost predicate Refunds(e: Env, sender: Bytes, args: seq<Bytes>) {
    |args| == 2 && !Truthy(args[1]) && e.verify(sender, args[0])
  }

  function Capped(height: nat): (h: nat) {
    if height > SMALL_INT_CAP then SMALL_INT_CAP else height
  }

  lemma StepThen<M>(s: Semantics<M>, instr: Instr, rest: Code, m: M, next: Result<M>)
    requires s.perform(instr, m) == next
    ensures RunCode(s, Then(instr, rest), m) == if next.Err? then Err else RunCode(s, rest, next.value)
  {
  }

  lemma PushRuns(e: Env, data: Bytes, m: Machine)
    requires |data| <= MAX_ITEM_BYTES && |m.stack| < MAX_SCRIPT_STACK
    ensures ScriptSemantics(e).perform(Push(data), m) == Ok(m.(stack := m.stack + [data]))
  {
  }

  lemma CheckSigRuns(e: Env, key: Bytes, below: seq<Bytes>, minHeight: nat)
    requires |below| < MAX_SCRIPT_STACK
    ensures ScriptSemantics(e).perform(Do(OP_CHECK_SIG), Machine(below + [key], 0, minHeight))
         == if below == [] then Err
            else Ok(Machine(below[..|below| - 1] + [BoolItem(e.verify(key, below[|below| - 1]))], 1, minHeight))
  {
    var m := Machine(below + [key], 0, minHeight);
    assert ScriptSemantics(e).perform(Do(OP_CHECK_SIG), m) == CheckSig(e, m, false);
    if below != [] {
      assert m.stack[..|m.stack| - 2] == below[..|below| - 1];
    }
  }

  /** A key and a signature check. */
  lemma KeyRuns(e: Env, key: Bytes, stack: seq<Bytes>, minHeight: nat)
    requires |key| <= MAX_ITEM_BYTES && |stack| < MAX_SCRIPT_STACK
    ensures RunCode(ScriptSemantics(e), OneKey(key), Machine(stack, 0, minHeight))
         == if stack == [] then Err
            else Ok(Machine(stack[..|stack| - 1] + [BoolItem(e.verify(key, stack[|stack| - 1]))], 1, minHeight))
  {
    var s, m, m1 := ScriptSemantics(e), Machine(stack, 0, minHeight), Machine(stack + [key], 0, minHeight);
    PushRuns(e, key, m);
    StepThen(s, Push(key), Then(Do(OP_CHECK_SIG), Done), m, Ok(m1));
    CheckSigRuns(e, key, stack, minHeight);
    StepThen(s, Do(OP_CHECK_SIG), Done, m1, s.perform(Do(OP_CHECK_SIG), m1));
  }

  lemma CheckHeightRuns(e: Env, height: nat, stack: seq<Bytes>)
    requires height < U64_LIMIT
    ensures ScriptSemantics(e).perform(Do(OP_CHECK_HEIGHT_VERIFY), Machine(stack + [UintBytes(height)], 0, 0))
         == Ok(Machine(stack, 0, Capped(height)))
  {
    var m := Machine(stack + [UintBytes(height)], 0, 0);
    SmallIntOfUint(height);
    assert Popped(m, 1).stack == stack;
    assert ScriptSemantics(e).perform(Do(OP_CHECK_HEIGHT_VERIFY), m) == CheckHeight(m);
  }

  /** The same behind a height check, which only records the height. */
  lemma TimedKeyRuns(e: Env, key: Bytes, height: nat, stack: seq<Bytes>)
    requires |key| <= MAX_ITEM_BYTES && |stack| < MAX_SCRIPT_STACK && height < U64_LIMIT
    ensures RunCode(ScriptSemantics(e), TimedKey(key, height), Machine(stack, 0, 0))
         == RunCode(ScriptSemantics(e), OneKey(key), Machine(stack, 0, Capped(height)))
  {
    var s, m, m1 := ScriptSemantics(e), Machine(stack, 0, 0), Machine(stack + [UintBytes(height)], 0, 0);
    PushRuns(e, UintBytes(height), m);
    StepThen(s, Push(UintBytes(height)), Then(Do(OP_CHECK_HEIGHT_VERIFY), OneKey(key)), m, Ok(m1));
    CheckHeightRuns(e, height, stack);
    StepThen(s, Do(OP_CHECK_HEIGHT_VERIFY), OneKey(key), m1, s.perform(Do(OP_CHECK_HEIGHT_VERIFY), m1));
  }

  lemma ShaRuns(e: Env, stack: seq<Bytes>)
    requires |stack| < MAX_SCRIPT_STACK
    ensures ScriptSemantics(e).perform(Do(OP_SHA256), Machine(stack, 0, 0))
         == if stack == [] then Err
            else Ok(Machine(stack[..|stack| - 1] + [e.sha(stack[|stack| - 1])], 0, 0))
  {
  }

  lemma EqualRuns(e: Env, a: Bytes, b: Bytes, below: seq<Bytes>)
    ensures ScriptSemantics(e).perform(Do(OP_EQUAL_VERIFY), Machine(below + [a] + [b], 0, 0))
         == if a == b then Ok(Machine(below, 0, 0)) else Err
  {
    var m := Machine(below + [a] + [b], 0, 0);
    assert m.stack[..|m.stack| - 2] == below;
    assert Top(m, 0) == b && Top(m, 1) == a;
    assert ScriptSemantics(e).perform(Do(OP_EQUAL_VERIFY), m) == Verdict(Popped(m, 2), b == a, true);
  }

  /** The claim arm: the hash of the top item, then the recipient's key. */
  lemma ClaimRuns(e: Env, hash: Bytes, recipient: Bytes, stack: seq<Bytes>)
    requires |hash| <= MAX_ITEM_BYTES && |stack| < MAX_SCRIPT_STACK
    ensures RunCode(ScriptSemantics(e), HtlcClaim(hash, recipient), Machine(stack, 0, 0))
         == if stack == [] || e.sha(stack[|stack| - 1]) != hash then Err
            else RunCode(ScriptSemantics(e), OneKey(recipient), Machine(stack[..|stack| - 1], 0, 0))
  {
    var s, m := ScriptSemantics(e), Machine(stack, 0, 0);
    var afterHash := Then(Do(OP_EQUAL_VERIFY), OneKey(recipient));
    ShaRuns(e, stack);
    StepThen(s, Do(OP_SHA256), Then(Push(hash), afterHash), m, s.perform(Do(OP_SHA256), m));
    if stack != [] {
      var below, digest: Bytes := stack[..|stack| - 1], e.sha(stack[|stack| - 1]);
      var m1, m2 := Machine(below + [digest], 0, 0), Machine(below + [digest] + [hash], 0, 0);
      PushRuns(e, hash, m1);
      StepThen(s, Push(hash), afterHash, m1, Ok(m2));
      EqualRuns(e, digest, hash, below);
      StepThen(s, Do(OP_EQUAL_VERIFY), OneKey(recipient), m2, s.perform(Do(OP_EQUAL_VERIFY), m2));
    }
  }

  /** A run counts when it leaves exactly one true item. */
  ghost function Ends(r: Result<Machine>): (out: Result<Machine>) {
    if r.Ok? && |r.value.stack| == 1 && Truthy(r.value.stack[0]) then r else Err
  }

  /** A key check ends well exactly when its signature was all there was and verified. */
  lemma KeyEnds(below: seq<Bytes>, ok: bool, minHeight: nat)
    ensures Ends(Ok(Machine(below + [BoolItem(ok)], 1, minHeight)))
         == if below == [] && ok then Ok(Machine([[1]], 1, minHeight)) else Err
  {
    var one: Bytes := [1];
    assert one[0] != 0;
    if below == [] {
      assert below + [BoolItem(ok)] == [BoolItem(ok)];
    }
  }

  lemma KeyAlone(e: Env, key: Bytes, stack: seq<Bytes>, minHeight: nat)
    requires |key| <= MAX_ITEM_BYTES && |stack| < MAX_SCRIPT_STACK
    ensures Ends(RunCode(ScriptSemantics(e), OneKey(key), Machine(stack, 0, minHeight)))
         == if |stack| == 1 && e.verify(key, stack[0]) then Ok(Machine([[1]], 1, minHeight)) else Err
  {
    KeyRuns(e, key, stack, minHeight);
    if stack != [] {
      KeyEnds(stack[..|stack| - 1], e.verify(key, stack[|stack| - 1]), minHeight);
    }
  }

  /** An assembled two-armed script evaluates the arm the witness's last item selects. */
  lemma TwoArmsEval(e: Env, derive: Bytes -> Bytes, account: Bytes, yes: Code, no: Code, script: Bytes, args: seq<Bytes>)
    requires Plain(TwoArms(yes, no)) && script == ScriptOf(TwoArms(yes, no)) && 0 < |script| <= MAX_SCRIPT_BYTES
    requires Legible(Printed(TwoArms(yes, no), Blank)) && Length(Printed(TwoArms(yes, no), Blank)) <= MAX_SCRIPT_OPS
    requires derive(script) == account && WitnessFits(args)
    ensures Eval(e, derive, account, script, args) ==
            if args == [] then Err
            else
              var n := |args| - 1;
              Ends(RunCode(ScriptSemantics(e), if Truthy(args[n]) then yes else no, Machine(args[..n], 0, 0)))
  {
    var s, m := ScriptSemantics(e), Machine(args, 0, 0);
    AssembledRuns(s, TwoArms(yes, no), Printed(TwoArms(yes, no), Blank), m);
    CondRuns(s, yes, no, m);
    assert s.choose(m) == Choose(m);
  }

  /** For every witness, the assembled contract succeeds exactly on a claim or a refund; a claim
      is free of any height, a refund waits for the timeout as far as the operand cap reaches. */
  lemma HtlcSpends(e: Env, derive: Bytes -> Bytes, account: Bytes, hash: Bytes, recipient: Bytes, sender: Bytes,
                   timeout: nat, script: Bytes, args: seq<Bytes>)
    requires timeout < U64_LIMIT && |hash| <= MAX_ITEM_BYTES && |recipient| <= MAX_ITEM_BYTES && |sender| <= MAX_ITEM_BYTES
    requires script == ScriptOf(HtlcCode(hash, recipient, sender, timeout)) && |script| <= MAX_SCRIPT_BYTES
    requires derive(script) == account
    ensures var r := Eval(e, derive, account, script, args);
            && (r.Ok? <==> WitnessFits(args) && (Claims(e, hash, recipient, args) || Refunds(e, sender, args)))
            && (r.Ok? ==> r.value.sigChecks == 1)
            && (r.Ok? && Claims(e, hash, recipient, args) ==> r.value.minHeight == 0)
            && (r.Ok? && Refunds(e, sender, args) ==> r.value.minHeight == Capped(timeout))
  {
    if WitnessFits(args) {
      HtlcListing(hash, recipient, sender, timeout);
      PlainArmsOfHtlc(hash, recipient, sender, timeout);
      TwoArmsEval(e, derive, account, HtlcClaim(hash, recipient), TimedKey(sender, timeout), script, args);
      if args != [] {
        var below := args[..|args| - 1];
        if Truthy(args[|args| - 1]) {
          ClaimRuns(e, hash, recipient, below);
          if below != [] {
            KeyAlone(e, recipient, below[..|below| - 1], 0);
          }
        } else {
          TimedKeyRuns(e, sender, timeout, below);
          KeyAlone(e, sender, below, Capped(timeout));
        }
      }
    }
  }

  lemma PlainArmsOfHtlc(hash: Bytes, recipient: Bytes, sender: Bytes, timeout: nat)
    ensures Plain(HtlcCode(hash, recipient, sender, timeout))
  {
    assert Plain(OneKey(recipient)) && Plain(OneKey(sender));
    assert Plain(HtlcClaim(hash, recipient)) && Plain(TimedKey(sender, timeout));
    assert PlainArms(Last(TimedKey(sender, timeout)));
  }

  ghost function VaultCode(hot: Bytes, cold: Bytes, unlock: nat): (c: Code) {
    TwoArms(OneKey(cold), TimedKey(hot, unlock))
  }

  /** A time-delayed vault: the cold key at any height, the hot key from the unlock height. */
  method ScriptVault(hot: Bytes, cold: Bytes, unlock: nat) returns (r: Result<Bytes>)
    requires unlock < U64_LIMIT
    ensures r.Ok? <==>
      && |hot| <= MAX_ITEM_BYTES && |cold| <= MAX_ITEM_BYTES
      && |ScriptOf(VaultCode(hot, cold, unlock))| <= MAX_SCRIPT_BYTES
    ensures r.Ok? ==> r.value == ScriptOf(VaultCode(hot, cold, unlock))
  {
    var s := new Builder();
    s.Op(OP_IF);
    WriteKey(s, cold);
    s.Op(OP_ELSE);
    WriteTimedKey(s, hot, unlock);
    s.Op(OP_END_IF);
    VaultListing(hot, cold, unlock);
    r := s.Build();
  }

  lemma VaultListing(hot: Bytes, cold: Bytes, unlock: nat)
    ensures var l := Printed(VaultCode(hot, cold, unlock), Blank);
            && Length(l) == 9 && |Assembled(l)| > 0
            && (|hot| <= MAX_ITEM_BYTES && |cold| <= MAX_ITEM_BYTES ==> Legible(l))
    ensures Printed(VaultCode(hot, cold, unlock), Blank) ==
            Listed(Printed(TimedKey(hot, unlock), Listed(Printed(OneKey(cold), Listed(Blank, If)), Else)), EndIf)
  {
    var yes, no, l := OneKey(cold), TimedKey(hot, unlock), Listed(Blank, If);
    TwoArmsListing(yes, no);
    OneKeyListing(cold, l);
    TimedKeyListing(hot, unlock, Listed(Printed(yes, l), Else));
  }

  /** For every witness, the vault opens to exactly one signature and a selector: cold with no
      height, hot from the unlock height as far as the operand cap reaches. */
  lemma VaultSpends(e: Env, derive: Bytes -> Bytes, account: Bytes, hot: Bytes, cold: Bytes, unlock: nat,
                    script: Bytes, args: seq<Bytes>)
    requires unlock < U64_LIMIT && |hot| <= MAX_ITEM_BYTES && |cold| <= MAX_ITEM_BYTES
    requires script == ScriptOf(VaultCode(hot, cold, unlock)) && |script| <= MAX_SCRIPT_BYTES && derive(script) == account
    ensures var r := Eval(e, derive, account, script, args);
            && (r.Ok? <==> WitnessFits(args) && |args| == 2 && e.verify(if Truthy(args[1]) then cold else hot, args[0]))
            && (r.Ok? ==> r.value.minHeight == if Truthy(args[1]) then 0 else Capped(unlock))
  {
    if WitnessFits(args) {
      VaultListing(hot, cold, unlock);
      assert Plain(OneKey(cold)) && Plain(OneKey(hot));
      assert Plain(TimedKey(hot, unlock));
      assert PlainArms(Last(TimedKey(hot, unlock)));
      TwoArmsEval(e, derive, account, OneKey(cold), TimedKey(hot, unlock), script, args);
      if args != [] {
        var below := args[..|args| - 1];
        if Truthy(args[|args| - 1]) {
          KeyAlone(e, cold, below, 0);
        } else {
          TimedKeyRuns(e, hot, unlock, below);
          KeyAlone(e, hot, below, Capped(unlock));
        }
      }
    }
  }
}
