/** What scripts do, byte by byte: one after the other they run in turn, each operation has its effect on
    the stack, and some of them cancel. */
module ScriptLaws {
  import opened Bytes
  import opened Seqs
  import opened Script
  import opened ScriptMeaning
  import opened ScriptVm

  /** One program after the other. */
  function Follow(p: Program, q: Program): (r: Program)
    ensures Size(r) == Size(p) + Size(q)
  {
    if p.End? then q else Next(p.instr, Follow(p.rest, q))
  }

  /** What comes behind an instruction does not change how it reads. */
  lemma ReadBefore(x: Bytes, y: Bytes, i: nat)
    requires i < |x| && Read(x, i).Some?
    ensures Read(x + y, i) == Read(x, i)
  {
    var (instr, next) := Read(x, i).value;
    if x[i] < OP_PUSH_DATA {
      assert (x + y)[i + 1..next] == x[i + 1..next];
    } else if x[i] == OP_PUSH_DATA {
      assert (x + y)[i + 1..i + 3] == x[i + 1..i + 3];
      assert (x + y)[i + 3..next] == x[i + 3..next];
    }
  }

  lemma ReadBehind(x: Bytes, y: Bytes, i: nat)
    requires i < |y|
    ensures Read(x + y, |x| + i) == if Read(y, i).None? then None else Some((Read(y, i).value.0, |x| + Read(y, i).value.1))
  {
    var w := x + y;
    assert w[|x| + i] == y[i];
    if y[i] < OP_PUSH_DATA {
      var n := y[i];
      if i + 1 + n <= |y| {
        assert w[|x| + i + 1..|x| + i + 1 + n] == y[i + 1..i + 1 + n];
      }
    } else if y[i] == OP_PUSH_DATA && i + 3 <= |y| {
      assert w[|x| + i + 1..|x| + i + 3] == y[i + 1..i + 3];
      var n := Value(y[i + 1..i + 3]);
      if i + 3 + n <= |y| {
        assert w[|x| + i + 3..|x| + i + 3 + n] == y[i + 3..i + 3 + n];
      }
    }
  }

  lemma {:induction false} DecodedBehind(x: Bytes, y: Bytes, i: nat)
    requires i <= |y|
    ensures Decoded(x + y, |x| + i) == Decoded(y, i)
    decreases |y| - i
  {
    if i < |y| {
      ReadBehind(x, y, i);
      if Read(y, i).Some? {
        DecodedBehind(x, y, Read(y, i).value.1);
      }
    }
  }

  lemma {:induction false} DecodedBefore(x: Bytes, y: Bytes, i: nat)
    requires i <= |x| && Decoded(x, i).Some? && Decoded(y, 0).Some?
    ensures Decoded(x + y, i) == Some(Follow(Decoded(x, i).value, Decoded(y, 0).value))
    decreases |x| - i
  {
    if i == |x| {
      DecodedBehind(x, y, 0);
    } else {
      ReadBefore(x, y, i);
      DecodedBefore(x, y, Read(x, i).value.1);
    }
  }

  lemma {:induction false} OverFollow<M>(s: Semantics<M>, p: Program, q: Program, branches: seq<bool>, m: M, ops: nat)
    requires FlatOver(s, p, branches, m, ops).Ok?
    ensures ops + Size(p) <= MAX_SCRIPT_OPS || p.End?
    ensures FlatOver(s, Follow(p, q), branches, m, ops) == FlatOver(s, q, [], FlatOver(s, p, branches, m, ops).value, ops + Size(p))
    decreases p
  {
    if !p.End? {
      var step := FlatStep(s, p.instr, branches, m);
      OverFollow(s, p.rest, q, step.value.0, step.value.1, ops + 1);
    }
  }

  lemma {:induction false} OverShifts<M>(s: Semantics<M>, p: Program, branches: seq<bool>, m: M, ops: nat, more: nat)
    requires more + ops + Size(p) <= MAX_SCRIPT_OPS
    ensures FlatOver(s, p, branches, m, more + ops) == FlatOver(s, p, branches, m, ops)
    decreases p
  {
    if !p.End? {
      var step := FlatStep(s, p.instr, branches, m);
      if step.Ok? {
        OverShifts(s, p.rest, step.value.0, step.value.1, ops + 1, more);
      }
    }
  }

  /** A script of this many whole instructions. */
  ghost predicate Whole(x: Bytes, n: nat) {
    Decoded(x, 0).Some? && Size(Decoded(x, 0).value) == n
  }

  /** Two scripts in a row: the second runs on what the first leaves. */
  lemma InTurn<M>(s: Semantics<M>, x: Bytes, n: nat, y: Bytes, k: nat, m: M)
    requires Whole(x, n) && Whole(y, k) && n + k <= MAX_SCRIPT_OPS && Run(s, x, m).Ok?
    ensures Whole(x + y, n + k) && Run(s, x + y, m) == Run(s, y, Run(s, x, m).value)
  {
    var p, q := Decoded(x, 0).value, Decoded(y, 0).value;
    DecodedBefore(x, y, 0);
    FlatDecodes(s, x + y, 0, [], m, 0);
    FlatDecodes(s, x, 0, [], m, 0);
    OverFollow(s, p, q, [], m, 0);
    var mid := Run(s, x, m).value;
    FlatDecodes(s, y, 0, [], mid, 0);
    OverShifts(s, q, [], mid, 0, n);
  }

  /** A program without conditionals. */
  ghost predicate Straight(p: Program) {
    p.Next? ==> (p.instr.Do? || p.instr.Push?) && Straight(p.rest)
  }

  lemma {:induction false} StraightOn<M>(s: Semantics<M>, p: Program, q: Program, m: M, ops: nat)
    requires Straight(p) && Straight(q)
    ensures Straight(Follow(p, q))
    ensures FlatOver(s, p, [], m, ops).Err? ==> FlatOver(s, Follow(p, q), [], m, ops).Err?
    decreases p
  {
    if !p.End? {
      assert Live([]);
      var step := FlatStep(s, p.instr, [], m);
      StraightOn(s, p.rest, q, if step.Ok? then step.value.1 else m, ops + 1);
    }
  }

  /** A script of this many instructions, none of them a conditional. */
  ghost predicate Plain(x: Bytes, n: nat) {
    Whole(x, n) && Straight(Decoded(x, 0).value)
  }

  /** Without conditionals what fails before goes on failing, too. */
  lemma Both(e: Env, x: Bytes, n: nat, y: Bytes, k: nat, m: Machine)
    requires Plain(x, n) && Plain(y, k) && n + k <= 256
    ensures Plain(x + y, n + k)
    ensures Run(ScriptSemantics(e), x + y, m)
         == if Run(ScriptSemantics(e), x, m).Err? then Err else Run(ScriptSemantics(e), y, Run(ScriptSemantics(e), x, m).value)
  {
    var s := ScriptSemantics(e);
    DecodedBefore(x, y, 0);
    StraightOn(s, Decoded(x, 0).value, Decoded(y, 0).value, m, 0);
    if Run(s, x, m).Ok? {
      InTurn(s, x, n, y, k, m);
    } else {
      FlatDecodes(s, x + y, 0, [], m, 0);
      FlatDecodes(s, x, 0, [], m, 0);
    }
  }

  // single operations

  lemma OneInstr<M>(s: Semantics<M>, b: Bytes, instr: Instr, m: M)
    requires b != [] && Read(b, 0) == Some((instr, |b|)) && (instr.Do? || instr.Push?)
    ensures Plain(b, 1) && Run(s, b, m) == s.perform(instr, m)
  {
    assert Decoded(b, |b|) == Some(End);
    var done := s.perform(instr, m);
    assert Live([]);
    if done.Ok? {
      assert Flat(s, b, |b|, [], done.value, 1) == Ok(done.value);
    }
  }

  lemma OneByte(e: Env, op: Byte, m: Machine)
    requires 0x50 < op && op !in {0x90, 0x91, 0x92}
    ensures Plain([op], 1) && Run(ScriptSemantics(e), [op], m) == Exec(e, op, m)
  {
    OneInstr(ScriptSemantics(e), [op], Do(op), m);
  }

  /** A short item is pushed by its length and its bytes. */
  function Pushing(d: Bytes): (b: Bytes)
    requires |d| < 0x50
  {
    [|d|] + d
  }

  lemma PushRuns(e: Env, d: Bytes, m: Machine)
    requires |d| < 0x50
    ensures Plain(Pushing(d), 1)
    ensures Run(ScriptSemantics(e), Pushing(d), m) == if |m.stack| < 64 then Ok(m.(stack := m.stack + [d])) else Err
  {
    var b := Pushing(d);
    assert b[1..1 + |d|] == d;
    OneInstr(ScriptSemantics(e), b, Push(d), m);
  }

  /** The stack from the top. */
  function Pile(m: Machine, i: nat): (item: Bytes)
    requires i < |m.stack|
  {
    m.stack[|m.stack| - 1 - i]
  }

  function Under(m: Machine, n: nat): (items: seq<Bytes>)
    requires n <= |m.stack|
  {
    m.stack[..|m.stack| - n]
  }

  ghost predicate NonZero(item: Bytes) {
    exists i :: 0 <= i < |item| && item[i] != 0
  }

  /** 0x64: takes the top away if it has a nonzero byte, and fails if it has none. */
  lemma VerifyDoes(e: Env, m: Machine)
    ensures Run(ScriptSemantics(e), [0x64], m)
         == if m.stack != [] && NonZero(Pile(m, 0)) then Ok(m.(stack := Under(m, 1))) else Err
  {
    OneByte(e, 0x64, m);
  }

  /** 0x60, 0x61, 0x62: double the top, drop it, swap it with the next. */
  lemma DupDoes(e: Env, m: Machine)
    ensures Run(ScriptSemantics(e), [0x60], m)
         == if m.stack == [] || |m.stack| >= 64 || |Pile(m, 0)| > 520 then Err else Ok(m.(stack := m.stack + [Pile(m, 0)]))
  {
    OneByte(e, 0x60, m);
  }

  lemma DropDoes(e: Env, m: Machine)
    ensures Run(ScriptSemantics(e), [0x61], m) == if m.stack == [] then Err else Ok(m.(stack := Under(m, 1)))
  {
    OneByte(e, 0x61, m);
  }

  lemma SwapDoes(e: Env, m: Machine)
    ensures Run(ScriptSemantics(e), [0x62], m)
         == if |m.stack| < 2 then Err else Ok(m.(stack := Under(m, 2) + [Pile(m, 0), Pile(m, 1)]))
  {
    OneByte(e, 0x62, m);
  }

  /** 0x63 and 0x85: whether the top two are equal, as an item or as a demand. */
  lemma EqualDoes(e: Env, m: Machine)
    ensures Run(ScriptSemantics(e), [0x63], m)
         == if |m.stack| < 2 || |m.stack| > 65 then Err
            else Ok(m.(stack := Under(m, 2) + [if Pile(m, 0) == Pile(m, 1) then [1] else []]))
    ensures Run(ScriptSemantics(e), [0x85], m)
         == if |m.stack| < 2 || Pile(m, 0) != Pile(m, 1) then Err else Ok(m.(stack := Under(m, 2)))
  {
    OneByte(e, 0x63, m);
    OneByte(e, 0x85, m);
  }

  /** 0x65 and 0x66: true and false. */
  lemma TruthDoes(e: Env, m: Machine)
    ensures Run(ScriptSemantics(e), [0x65], m) == if |m.stack| >= 64 then Err else Ok(m.(stack := m.stack + [[1]]))
    ensures Run(ScriptSemantics(e), [0x66], m) == if |m.stack| >= 64 then Err else Ok(m.(stack := m.stack + [[]]))
  {
    OneByte(e, 0x65, m);
    OneByte(e, 0x66, m);
  }

  /** 0x70: the top's hash in its place. */
  lemma HashDoes(e: Env, m: Machine)
    ensures Run(ScriptSemantics(e), [0x70], m)
         == if m.stack == [] || |m.stack| > 64 then Err else Ok(m.(stack := Under(m, 1) + [e.sha(Pile(m, 0))]))
  {
    OneByte(e, 0x70, m);
  }

  /** 0x80 and 0x81: whether the signature below a key is that key's, as an item or as a demand; at most
      twenty checks. */
  lemma CheckSigDoes(e: Env, m: Machine)
    ensures Run(ScriptSemantics(e), [0x80], m)
         == if m.sigChecks >= 20 || |m.stack| < 2 || |m.stack| > 65 then Err
            else Ok(Machine(Under(m, 2) + [if e.verify(Pile(m, 0), Pile(m, 1)) then [1] else []], m.sigChecks + 1, m.minHeight))
    ensures Run(ScriptSemantics(e), [0x81], m)
         == if m.sigChecks >= 20 || |m.stack| < 2 || !e.verify(Pile(m, 0), Pile(m, 1)) then Err
            else Ok(Machine(Under(m, 2), m.sigChecks + 1, m.minHeight))
  {
    OneByte(e, 0x80, m);
    OneByte(e, 0x81, m);
  }

  /** 0x83: the least height rises to the top, read big-endian and capped at 2^31. */
  lemma HeightDoes(e: Env, m: Machine)
    ensures Run(ScriptSemantics(e), [0x83], m)
         == if m.stack == [] || |Pile(m, 0)| > 8 then Err
            else
              var h := if Value(Pile(m, 0)) > 0x8000_0000 then 0x8000_0000 else Value(Pile(m, 0));
              Ok(Machine(Under(m, 1), m.sigChecks, if h > m.minHeight then h else m.minHeight))
  {
    OneByte(e, 0x83, m);
  }

  // pairs that cancel, and pairs that decide

  /** A push and a drop are nothing. */
  lemma PushDrop(e: Env, d: Bytes, m: Machine)
    requires |d| < 0x50 && |m.stack| < 64
    ensures Run(ScriptSemantics(e), Pushing(d) + [0x61], m) == Ok(m)
  {
    PushRuns(e, d, m);
    OneByte(e, 0x61, m);
    Both(e, Pushing(d), 1, [0x61], 1, m);
    DropDoes(e, m.(stack := m.stack + [d]));
    assert (m.stack + [d])[..|m.stack|] == m.stack;
  }

  /** Two swaps are nothing. */
  lemma SwapSwap(e: Env, m: Machine)
    requires |m.stack| >= 2
    ensures Run(ScriptSemantics(e), [0x62] + [0x62], m) == Ok(m)
  {
    SwapDoes(e, m);
    OneByte(e, 0x62, m);
    Both(e, [0x62], 1, [0x62], 1, m);
    var once := m.(stack := Under(m, 2) + [Pile(m, 0), Pile(m, 1)]);
    SwapDoes(e, once);
    assert once.stack[..|once.stack| - 2] == Under(m, 2);
    assert Under(m, 2) + [Pile(m, 1), Pile(m, 0)] == m.stack;
  }

  lemma TwoPushes(e: Env, a: Bytes, b: Bytes, m: Machine)
    requires |a| < 0x50 && |b| < 0x50 && |m.stack| < 63
    ensures Plain(Pushing(a) + Pushing(b), 2)
    ensures Run(ScriptSemantics(e), Pushing(a) + Pushing(b), m) == Ok(m.(stack := m.stack + [a, b]))
  {
    PushRuns(e, a, m);
    PushRuns(e, b, m.(stack := m.stack + [a]));
    Both(e, Pushing(a), 1, Pushing(b), 1, m);
    assert m.stack + [a] + [b] == m.stack + [a, b];
  }

  /** Two pushes and a swap are the pushes the other way round. */
  lemma PushPushSwap(e: Env, a: Bytes, b: Bytes, m: Machine)
    requires |a| < 0x50 && |b| < 0x50 && |m.stack| < 63
    ensures Run(ScriptSemantics(e), Pushing(a) + Pushing(b) + [0x62], m) == Run(ScriptSemantics(e), Pushing(b) + Pushing(a), m)
  {
    TwoPushes(e, a, b, m);
    TwoPushes(e, b, a, m);
    OneByte(e, 0x62, m);
    Both(e, Pushing(a) + Pushing(b), 2, [0x62], 1, m);
    var k := m.(stack := m.stack + [a, b]);
    SwapDoes(e, k);
    assert Under(k, 2) == m.stack;
  }

  /** Two pushes are equal exactly when they push the same. */
  lemma PushPushEqual(e: Env, a: Bytes, b: Bytes, m: Machine)
    requires |a| < 0x50 && |b| < 0x50 && |m.stack| < 63
    ensures Run(ScriptSemantics(e), Pushing(a) + Pushing(b) + [0x63], m) == Ok(m.(stack := m.stack + [if a == b then [1] else []]))
  {
    TwoPushes(e, a, b, m);
    OneByte(e, 0x63, m);
    Both(e, Pushing(a) + Pushing(b), 2, [0x63], 1, m);
    var k := m.(stack := m.stack + [a, b]);
    EqualDoes(e, k);
    assert Under(k, 2) == m.stack;
  }

  /** An item equals its own double. */
  lemma DupEqual(e: Env, m: Machine)
    requires 1 <= |m.stack| < 64 && |Pile(m, 0)| <= 520
    ensures Run(ScriptSemantics(e), [0x60] + [0x63], m) == Ok(m.(stack := Under(m, 1) + [[1]]))
  {
    DupDoes(e, m);
    OneByte(e, 0x60, m);
    OneByte(e, 0x63, m);
    Both(e, [0x60], 1, [0x63], 1, m);
    var k := m.(stack := m.stack + [Pile(m, 0)]);
    EqualDoes(e, k);
    assert Under(k, 2) == Under(m, 1);
  }

  /** False, demanded, fails whatever was on the stack. */
  lemma FalseVerify(e: Env, m: Machine)
    requires |m.stack| < 64
    ensures Run(ScriptSemantics(e), [0x66] + [0x64], m) == Err
  {
    TruthDoes(e, m);
    OneByte(e, 0x66, m);
    OneByte(e, 0x64, m);
    Both(e, [0x66], 1, [0x64], 1, m);
    VerifyDoes(e, m.(stack := m.stack + [[]]));
  }

  lemma TrueVerify(e: Env, m: Machine)
    requires |m.stack| < 64
    ensures Run(ScriptSemantics(e), [0x65] + [0x64], m) == Ok(m)
  {
    TruthDoes(e, m);
    OneByte(e, 0x65, m);
    OneByte(e, 0x64, m);
    Both(e, [0x65], 1, [0x64], 1, m);
    var k := m.(stack := m.stack + [[1]]);
    assert Pile(k, 0)[0] != 0;
    VerifyDoes(e, k);
    assert Under(k, 1) == m.stack;
  }

  // whole predicates

  /** A key, a check, and what the check left demanded. */
  function KeyDemanded(pub: Bytes): (b: Bytes)
    requires |pub| < 0x50
  {
    Pushing(pub) + [0x80] + [0x64] + [0x65]
  }

  lemma KeyChecked(e: Env, pub: Bytes, m: Machine)
    requires |pub| < 0x50 && |m.stack| < 64 && m.sigChecks == 0
    ensures Plain(Pushing(pub) + [0x80], 2)
    ensures Run(ScriptSemantics(e), Pushing(pub) + [0x80], m)
         == if m.stack == [] then Err
            else Ok(Machine(Under(m, 1) + [if e.verify(pub, Pile(m, 0)) then [1] else []], 1, m.minHeight))
  {
    PushRuns(e, pub, m);
    OneByte(e, 0x80, m);
    Both(e, Pushing(pub), 1, [0x80], 1, m);
    var k := m.(stack := m.stack + [pub]);
    CheckSigDoes(e, k);
    if m.stack != [] {
      assert Under(k, 2) == Under(m, 1);
    }
  }

  lemma NonZeroIs(ok: bool)
    ensures NonZero(if ok then [1] else []) <==> ok
  {
    if ok {
      assert [1][0] != 0;
    }
  }

  /** Run on any witness, it leaves true on the rest exactly when the last item is the key's signature. */
  lemma KeyDemandedRuns(e: Env, pub: Bytes, m: Machine)
    requires |pub| < 0x50 && |m.stack| < 64 && m.sigChecks == 0
    ensures Run(ScriptSemantics(e), KeyDemanded(pub), m)
         == if m.stack == [] || !e.verify(pub, Pile(m, 0)) then Err else Ok(Machine(Under(m, 1) + [[1]], 1, m.minHeight))
  {
    var x := Pushing(pub) + [0x80];
    KeyChecked(e, pub, m);
    OneByte(e, 0x64, m);
    OneByte(e, 0x65, m);
    Both(e, x, 2, [0x64], 1, m);
    Both(e, x + [0x64], 3, [0x65], 1, m);
    if m.stack != [] {
      var ok := e.verify(pub, Pile(m, 0));
      var k := Machine(Under(m, 1) + [if ok then [1] else []], 1, m.minHeight);
      NonZeroIs(ok);
      VerifyDoes(e, k);
      assert Under(k, 1) == Under(m, 1);
      TruthDoes(e, Machine(Under(m, 1), 1, m.minHeight));
    }
  }

  /** So it is spent by one matching signature and by nothing else. */
  lemma KeyDemandedSpends(e: Env, derive: Bytes -> Bytes, sender: Bytes, pub: Bytes, args: seq<Bytes>)
    requires |pub| < 0x50 && derive(KeyDemanded(pub)) == sender
    ensures Eval(e, derive, sender, KeyDemanded(pub), args).Ok? <==> |args| == 1 && |args[0]| <= 520 && e.verify(pub, args[0])
  {
    if WitnessFits(args) {
      KeyDemandedRuns(e, pub, Machine(args, 0, 0));
      NonZeroIs(true);
    }
    if |args| == 1 {
      assert args == [args[0]];
    }
  }

  /** After any script at all: its top is demanded. */
  lemma VerifyAfter(e: Env, x: Bytes, n: nat, m: Machine)
    requires Whole(x, n) && n < 256 && Run(ScriptSemantics(e), x, m).Ok?
    ensures var k := Run(ScriptSemantics(e), x, m).value;
            Run(ScriptSemantics(e), x + [0x64], m) == if k.stack != [] && NonZero(Pile(k, 0)) then Ok(k.(stack := Under(k, 1))) else Err
  {
    OneByte(e, 0x64, m);
    InTurn(ScriptSemantics(e), x, n, [0x64], 1, m);
    VerifyDoes(e, Run(ScriptSemantics(e), x, m).value);
  }

  // conditionals

  /** A straight program inside an open arm runs as it does on its own. */
  lemma {:induction false} StraightLive<M>(s: Semantics<M>, p: Program, rest: Program, branches: seq<bool>, m: M, ops: nat)
    requires Straight(p) && Live(branches) && ops + Size(p) <= MAX_SCRIPT_OPS
    ensures FlatOver(s, Follow(p, rest), branches, m, ops)
         == if FlatOver(s, p, [], m, 0).Err? then Err else FlatOver(s, rest, branches, FlatOver(s, p, [], m, 0).value, ops + Size(p))
    decreases p
  {
    if !p.End? {
      assert Live([]);
      var step := FlatStep(s, p.instr, [], m);
      if step.Ok? {
        StraightLive(s, p.rest, rest, branches, step.value.1, ops + 1);
        OverShifts(s, p.rest, [], step.value.1, 0, 1);
      }
    }
  }

  /** And inside a dead one it is skipped. */
  lemma {:induction false} StraightDead<M>(s: Semantics<M>, p: Program, rest: Program, branches: seq<bool>, m: M, ops: nat)
    requires Straight(p) && !Live(branches) && ops + Size(p) <= MAX_SCRIPT_OPS
    ensures FlatOver(s, Follow(p, rest), branches, m, ops) == FlatOver(s, rest, branches, m, ops + Size(p))
    decreases p
  {
    if !p.End? {
      StraightDead(s, p.rest, rest, branches, m, ops + 1);
    }
  }

  /** If, one arm, else, the other, and the end. */
  function Either(x: Bytes, y: Bytes): (b: Bytes) {
    [0x90] + (x + ([0x91] + (y + [0x92])))
  }

  lemma OneMark(op: Byte, instr: Instr, y: Bytes)
    requires Decoded(y, 0).Some?
    requires (op == 0x90 && instr == If) || (op == 0x91 && instr == Else) || (op == 0x92 && instr == EndIf)
    ensures Decoded([op] + y, 0) == Some(Next(instr, Decoded(y, 0).value))
  {
    assert Read([op], 0) == Some((instr, 1)) && Decoded([op], 1) == Some(End);
    DecodedBefore([op], y, 0);
  }

  lemma EitherDecodes(x: Bytes, n: nat, y: Bytes, k: nat)
    requires Plain(x, n) && Plain(y, k)
    ensures Decoded(Either(x, y), 0)
         == Some(Next(If, Follow(Decoded(x, 0).value, Next(Else, Follow(Decoded(y, 0).value, Next(EndIf, End))))))
  {
    assert [0x92] + [] == [0x92] && Decoded([], 0) == Some(End);
    OneMark(0x92, EndIf, []);
    DecodedBefore(y, [0x92], 0);
    OneMark(0x91, Else, y + [0x92]);
    DecodedBefore(x, [0x91] + (y + [0x92]), 0);
    OneMark(0x90, If, x + ([0x91] + (y + [0x92])));
  }

  /** The top decides which of the two runs on the rest. */
  lemma EitherRuns(e: Env, x: Bytes, n: nat, y: Bytes, k: nat, m: Machine)
    requires Plain(x, n) && Plain(y, k) && n + k + 3 <= 256
    ensures Run(ScriptSemantics(e), Either(x, y), m)
         == if m.stack == [] then Err
            else Run(ScriptSemantics(e), if NonZero(Pile(m, 0)) then x else y, m.(stack := Under(m, 1)))
  {
    var s, p, q := ScriptSemantics(e), Decoded(x, 0).value, Decoded(y, 0).value;
    EitherDecodes(x, n, y, k);
    FlatDecodes(s, Either(x, y), 0, [], m, 0);
    assert Live([]);
    if m.stack != [] {
      var took, rest := NonZero(Pile(m, 0)), m.(stack := Under(m, 1));
      assert FlatStep(s, If, [], m) == Ok(([] + [took], rest)) && [] + [took] == [took];
      FlatDecodes(s, x, 0, [], rest, 0);
      FlatDecodes(s, y, 0, [], rest, 0);
      ArmsRun(s, p, q, took, rest);
    }
  }

  lemma ArmsRun<M>(s: Semantics<M>, p: Program, q: Program, took: bool, m: M)
    requires Straight(p) && Straight(q) && Size(p) + Size(q) + 3 <= MAX_SCRIPT_OPS
    ensures FlatOver(s, Follow(p, Next(Else, Follow(q, Next(EndIf, End)))), [took], m, 1) == FlatOver(s, if took then p else q, [], m, 0)
  {
    var close := Next(EndIf, End);
    var other := Next(Else, Follow(q, close));
    LiveOne(true);
    LiveOne(false);
    assert Live([]);
    if took {
      StraightLive(s, p, other, [true], m, 1);
      var r := FlatOver(s, p, [], m, 0);
      if r.Ok? {
        TurnsOver(s, [true], q, close, r.value, 1 + Size(p));
        StraightDead(s, q, close, [false], r.value, 2 + Size(p));
        Closes(s, false, r.value, 2 + Size(p) + Size(q));
      }
    } else {
      StraightDead(s, p, other, [false], m, 1);
      TurnsOver(s, [false], q, close, m, 1 + Size(p));
      StraightLive(s, q, close, [true], m, 2 + Size(p));
      var r := FlatOver(s, q, [], m, 0);
      if r.Ok? {
        Closes(s, true, r.value, 2 + Size(p) + Size(q));
      }
    }
  }

  lemma LiveOne(arm: bool)
    ensures Live([arm]) <==> arm
  {
    assert [arm][0] == arm;
  }

  lemma TurnsOver<M>(s: Semantics<M>, branches: seq<bool>, q: Program, close: Program, m: M, ops: nat)
    requires |branches| == 1 && ops < MAX_SCRIPT_OPS
    ensures FlatOver(s, Next(Else, Follow(q, close)), branches, m, ops) == FlatOver(s, Follow(q, close), [!branches[0]], m, ops + 1)
  {
    assert branches[..0] == [] && Live([]);
  }

  lemma Closes<M>(s: Semantics<M>, arm: bool, m: M, ops: nat)
    requires ops < MAX_SCRIPT_OPS
    ensures FlatOver(s, Next(EndIf, End), [arm], m, ops) == Ok(m)
  {
    assert [arm][..0] == [];
  }

  // one of one

  lemma OneIsOne()
    ensures SmallInt([1]) == 1
  {
    assert [1][..0] == [];
    assert Value([]) == 0;
  }

  lemma TakesOne(m: Machine, limit: nat, item: Bytes, rest: seq<Bytes>)
    requires limit >= 1 && m.stack == rest + [item, [1]]
    ensures TakeGroup(m, limit) == Some(Group([item], m.(stack := rest)))
  {
    OneIsOne();
    var below := Popped(m, 1);
    assert Top(m, 0) == [1];
    assert below.stack == rest + [item];
    assert Popped(below, 1).stack == rest;
    assert TopItems(below, 1) == TopItems(below, 0) + [Top(below, 0)] == [item];
  }

  lemma MatchOne(e: Env, pub: Bytes, sig: Bytes)
    ensures Matched(e, [pub], [sig], {}) == if e.verify(pub, sig) then 1 else 0
  {
    assert [sig][1..] == [];
    var k := FirstMatch(e, [pub], sig, {}, 0);
    assert k.Some? ==> k.value == 0 && [pub][0] == pub;
    assert k.None? ==> !e.verify([pub][0], sig);
    assert Matched(e, [pub], [], {}) == 0;
    if k.Some? {
      assert Matched(e, [pub], [], {} + {k.value}) == 0;
    }
  }

  /** 0x82: one signature of one key is what a single check is. */
  lemma OneOfOne(e: Env, pub: Bytes, m: Machine)
    requires |pub| < 0x50 && 1 <= |m.stack| < 62 && m.sigChecks == 0
    ensures Run(ScriptSemantics(e), Pushing([1]) + Pushing(pub) + Pushing([1]) + [0x82], m)
         == Run(ScriptSemantics(e), Pushing(pub) + [0x80], m)
  {
    var rest, sig := Under(m, 1), Pile(m, 0);
    var k := m.(stack := m.stack + [[1], pub]);
    var full := m.(stack := rest + [sig, [1], pub, [1]]);
    assert m.stack == rest + [sig];
    TwoPushes(e, [1], pub, m);
    PushRuns(e, [1], k);
    assert k.stack + [[1]] == full.stack;
    OneByte(e, 0x82, m);
    OneByte(e, 0x82, full);
    Both(e, Pushing([1]) + Pushing(pub), 2, Pushing([1]), 1, m);
    Both(e, Pushing([1]) + Pushing(pub) + Pushing([1]), 3, [0x82], 1, m);
    GroupsOfOne(e, pub, sig, rest, full);
    KeyChecked(e, pub, m);
  }

  lemma GroupsOfOne(e: Env, pub: Bytes, sig: Bytes, rest: seq<Bytes>, full: Machine)
    requires full.stack == rest + [sig, [1], pub, [1]] && |rest| < 64 && full.sigChecks == 0
    ensures Exec(e, 0x82, full) == Ok(Machine(rest + [if e.verify(pub, sig) then [1] else []], 1, full.minHeight))
  {
    var mid := full.(stack := rest + [sig, [1]]);
    assert full.stack == (rest + [sig, [1]]) + [pub, [1]];
    TakesOne(full, MAX_SIG_CHECKS, pub, rest + [sig, [1]]);
    TakesOne(mid, 1, sig, rest);
    MatchOne(e, pub, sig);
  }

  // bounds

  /** Within the machine's limits. */
  ghost predicate Bounded(m: Machine) {
    |m.stack| <= 64 && m.sigChecks <= 20 && forall i :: 0 <= i < |m.stack| ==> |m.stack[i]| <= 520
  }

  lemma PushBounded(m: Machine, item: Bytes)
    requires Bounded(m) && PushItem(m, item).Ok?
    ensures Bounded(PushItem(m, item).value)
  {
  }

  lemma PoppedBounded(m: Machine, n: nat)
    requires Bounded(m) && n <= |m.stack|
    ensures Bounded(Popped(m, n))
  {
  }

  lemma VerdictBounded(m: Machine, ok: bool, verify: bool)
    requires Bounded(m) && Verdict(m, ok, verify).Ok?
    ensures Bounded(Verdict(m, ok, verify).value)
  {
    if !verify {
      PushBounded(m, BoolItem(ok));
    }
  }

  lemma GroupBounded(m: Machine, limit: nat)
    requires Bounded(m) && TakeGroup(m, limit).Some?
    ensures Bounded(TakeGroup(m, limit).value.rest)
  {
    PoppedBounded(m, 1);
    PoppedBounded(Popped(m, 1), SmallInt(Top(m, 0)));
  }

  lemma MultiSigBounded(e: Env, m: Machine, verify: bool)
    requires Bounded(m) && CheckMultiSig(e, m, verify).Ok?
    ensures Bounded(CheckMultiSig(e, m, verify).value)
  {
    var keys := TakeGroup(m, MAX_SIG_CHECKS).value;
    GroupBounded(m, MAX_SIG_CHECKS);
    var sigs := TakeGroup(keys.rest, |keys.items|).value;
    GroupBounded(keys.rest, |keys.items|);
    ThresholdBounded(e, sigs.rest, keys.items, sigs.items, verify);
  }

  lemma ThresholdBounded(e: Env, m: Machine, keys: seq<Bytes>, sigs: seq<Bytes>, verify: bool)
    requires Bounded(m) && MeetThreshold(e, m, keys, sigs, verify).Ok?
    ensures Bounded(MeetThreshold(e, m, keys, sigs, verify).value)
  {
    var checks := m.sigChecks + SigCost(|sigs|, |keys|);
    VerdictBounded(m.(sigChecks := checks), Matched(e, keys, sigs, {}) >= |sigs|, verify);
  }

  lemma CheckSigBounded(e: Env, m: Machine, verify: bool)
    requires Bounded(m) && CheckSig(e, m, verify).Ok?
    ensures Bounded(CheckSig(e, m, verify).value)
  {
    PoppedBounded(m, 2);
    VerdictBounded(Popped(m, 2).(sigChecks := m.sigChecks + 1), e.verify(Top(m, 0), Top(m, 1)), verify);
  }

  lemma ExecBounded(e: Env, op: Byte, m: Machine)
    requires Bounded(m) && Exec(e, op, m).Ok?
    ensures Bounded(Exec(e, op, m).value)
  {
    if op in {OP_CHECK_SIG, OP_CHECK_SIG_VERIFY} {
      CheckSigBounded(e, m, op == OP_CHECK_SIG_VERIFY);
    } else if op in {OP_CHECK_MULTI_SIG, OP_CHECK_MULTI_SIG_VERIFY} {
      MultiSigBounded(e, m, op == OP_CHECK_MULTI_SIG_VERIFY);
    } else if op in {OP_EQUAL, OP_EQUAL_VERIFY} {
      PoppedBounded(m, 2);
      VerdictBounded(Popped(m, 2), Top(m, 0) == Top(m, 1), op == OP_EQUAL_VERIFY);
    } else if op == OP_SHA256 {
      PoppedBounded(m, 1);
      PushBounded(Popped(m, 1), e.sha(Top(m, 0)));
    } else if op in {OP_DROP, OP_VERIFY, OP_CHECK_HEIGHT_VERIFY} {
      PoppedBounded(m, 1);
    }
  }

  lemma PerformBounded(e: Env, instr: Instr, m: Machine)
    requires Bounded(m) && Perform(e, instr, m).Ok?
    ensures Bounded(Perform(e, instr, m).value)
  {
    match instr
    case Push(data) => PushBounded(m, data);
    case Do(op) => ExecBounded(e, op, m);
    case _ =>
  }

  lemma {:induction false} OverBounded(e: Env, p: Program, branches: seq<bool>, m: Machine, ops: nat)
    requires Bounded(m) && FlatOver(ScriptSemantics(e), p, branches, m, ops).Ok?
    ensures Bounded(FlatOver(ScriptSemantics(e), p, branches, m, ops).value) && (p.End? || ops + Size(p) <= 256)
    decreases p
  {
    if !p.End? {
      var s := ScriptSemantics(e);
      var step := FlatStep(s, p.instr, branches, m);
      if p.instr.Do? || p.instr.Push? {
        if Live(branches) {
          PerformBounded(e, p.instr, m);
        }
      }
      OverBounded(e, p.rest, branches := step.value.0, m := step.value.1, ops := ops + 1);
    }
  }

  /** Whatever the script and the witness: an accepted run scanned at most 256 instructions and made at
      most twenty signature checks. */
  lemma EvalBounded(e: Env, derive: Bytes -> Bytes, sender: Bytes, script: Bytes, args: seq<Bytes>)
    requires Eval(e, derive, sender, script, args).Ok?
    ensures 1 <= |script| <= 1024 && |args| <= 32 && Decoded(script, 0).Some? && Size(Decoded(script, 0).value) <= 256
    ensures Eval(e, derive, sender, script, args).value.sigChecks <= 20 && derive(script) == sender
  {
    var s, m := ScriptSemantics(e), Machine(args, 0, 0);
    FlatDecodes(s, script, 0, [], m, 0);
    OverBounded(e, Decoded(script, 0).value, [], m, 0);
  }
}
