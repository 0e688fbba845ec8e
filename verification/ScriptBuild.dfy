/** Assembling scripts: what the builder writes is read back as the instructions meant. */
module ScriptBuild {
  import opened Bytes
  import opened Seqs
  import opened Script
  import opened ScriptMeaning

  function Encode(instr: Instr): (b: Bytes)
    ensures |b| > 0
  {
    match instr
    case Push(data) => PushHeader(|data|) + data
    case Do(op) => [op]
    case If => [OP_IF]
    case Else => [OP_ELSE]
    case EndIf => [OP_END_IF]
  }

  function PushHeader(n: nat): (b: Bytes)
    ensures |b| > 0
  {
    if n < OP_PUSH_DATA then [n] else [OP_PUSH_DATA] + BigEndian(n, 2)
  }

  /** An instruction the bytes can tell from every other one. */
  predicate Writable(instr: Instr) {
    match instr
    case Push(data) => |data| <= MAX_ITEM_BYTES
    case Do(op) => op > OP_PUSH_DATA && op != OP_IF && op != OP_ELSE && op != OP_END_IF
    case _ => true
  }

  /** Instructions in the order written; garbled once one could not be told from the others. */
  datatype Listing = Blank | Garbled | Listed(before: Listing, last: Instr)

  function Write(l: Listing, instr: Instr): (r: Listing) {
    if l.Garbled? || !Writable(instr) then Garbled else Listed(l, instr)
  }

  ghost predicate Legible(l: Listing) {
    l.Blank? || (l.Listed? && Legible(l.before) && Writable(l.last))
  }

  function Assembled(l: Listing): (b: Bytes) {
    if l.Listed? then Assembled(l.before) + Encode(l.last) else []
  }

  lemma LongPushAt(script: Bytes, n: nat, size: Bytes, data: Bytes)
    requires |size| == 2 && n + 3 + |data| <= |script|
    requires var code := [OP_PUSH_DATA] + size + data; forall i :: 0 <= i < |code| ==> script[n + i] == code[i]
    ensures script[n + 1..n + 3] == size && script[n + 3..n + 3 + |data|] == data
  {
    var code := [OP_PUSH_DATA] + size + data;
    assert script[n + 1] == code[1] == size[0] && script[n + 2] == code[2] == size[1];
    forall i | 0 <= i < |data| ensures script[n + 3 + i] == data[i] {
      assert script[n + (3 + i)] == code[3 + i];
    }
  }

  /** One encoded instruction, wherever it stands, reads back as itself. */
  lemma ReadEncoded(pre: Bytes, instr: Instr, post: Bytes)
    requires Writable(instr)
    ensures var script := pre + (Encode(instr) + post);
            Read(script, |pre|) == Some((instr, |pre| + |Encode(instr)|))
  {
    var code := Encode(instr);
    var script := pre + (code + post);
    assert forall i :: 0 <= i < |code| ==> script[|pre| + i] == code[i];
    assert script[|pre|] == code[0];
    if instr.Push? && |instr.data| >= OP_PUSH_DATA {
      LongPushAt(script, |pre|, BigEndian(|instr.data|, 2), instr.data);
      assert Pow256(2) == 256 * Pow256(1);
      ValueOfBigEndian(|instr.data|, 2);
    } else if instr.Push? {
      assert script[|pre| + 1..|pre| + 1 + |instr.data|] == instr.data;
    }
  }

  /** A listing followed by a program. */
  ghost function Onto(l: Listing, rest: Program): (p: Program) {
    if l.Listed? then Onto(l.before, Next(l.last, rest)) else rest
  }

  ghost function Length(l: Listing): (n: nat) {
    if l.Listed? then Length(l.before) + 1 else 0
  }

  lemma {:induction false} OntoSize(l: Listing, rest: Program)
    ensures Size(Onto(l, rest)) == Length(l) + Size(rest)
  {
    if l.Listed? {
      OntoSize(l.before, Next(l.last, rest));
    }
  }

  lemma DecodedCons(script: Bytes, at: nat, instr: Instr, next: nat, rest: Program)
    requires at < |script| && Read(script, at) == Some((instr, next)) && Decoded(script, next) == Some(rest)
    ensures Decoded(script, at) == Some(Next(instr, rest))
  {
  }

  lemma {:induction false} DecodesOnto(l: Listing, post: Bytes, whole: Bytes, rest: Program)
    requires Legible(l) && whole == Assembled(l) + post && Decoded(whole, |Assembled(l)|) == Some(rest)
    ensures Decoded(whole, 0) == Some(Onto(l, rest))
    decreases l
  {
    if l.Listed? {
      var pre, code := Assembled(l.before), Encode(l.last);
      Regroup(pre, code, post);
      ReadEncoded(pre, l.last, post);
      DecodedCons(whole, |pre|, l.last, |pre| + |code|, rest);
      DecodesOnto(l.before, code + post, whole, Next(l.last, rest));
    }
  }

  /** Structured code written flat in front of `rest`. */
  ghost function Flattened(c: Code, rest: Program): (p: Program)
    decreases c
  {
    match c
    case Done => rest
    case Then(instr, after) => Next(instr, Flattened(after, rest))
    case Cond(arms, after) => Next(If, FlattenedArms(arms, Flattened(after, rest)))
  }

  ghost function FlattenedArms(arms: Arms, rest: Program): (p: Program)
    decreases arms
  {
    match arms
    case Last(body) => Flattened(body, Next(EndIf, rest))
    case More(body, others) => Flattened(body, Next(Else, FlattenedArms(others, rest)))
  }

  ghost predicate Plain(c: Code)
    decreases c
  {
    match c
    case Done => true
    case Then(instr, rest) => (instr.Push? || instr.Do?) && Plain(rest)
    case Cond(arms, after) => PlainArms(arms) && Plain(after)
  }

  ghost predicate PlainArms(arms: Arms)
    decreases arms
  {
    match arms
    case Last(body) => Plain(body)
    case More(body, others) => Plain(body) && PlainArms(others)
  }

  /** Nesting undoes flattening. */
  lemma {:induction false} BlockOfFlattened(c: Code, rest: Program)
    requires Plain(c) && Closes(rest)
    ensures Block(Flattened(c, rest)) == Opening(c, rest)
    decreases c
  {
    match c
    case Done =>
    case Then(_, after) => BlockOfFlattened(after, rest);
    case Cond(arms, after) =>
      ArmsOfFlattened(arms, Flattened(after, rest));
      BlockOfFlattened(after, rest);
  }

  lemma {:induction false} ArmsOfFlattened(arms: Arms, rest: Program)
    requires PlainArms(arms)
    ensures ArmsOf(FlattenedArms(arms, rest)) == Opening(arms, rest)
    decreases arms
  {
    match arms
    case Last(body) => BlockOfFlattened(body, Next(EndIf, rest));
    case More(body, others) =>
      BlockOfFlattened(body, Next(Else, FlattenedArms(others, rest)));
      ArmsOfFlattened(others, rest);
  }

  /** Structured code written after what is already listed. */
  ghost function Printed(c: Code, l: Listing): (r: Listing)
    decreases c
  {
    match c
    case Done => l
    case Then(instr, after) => Printed(after, Listed(l, instr))
    case Cond(arms, after) => Printed(after, Listed(PrintedArms(arms, Listed(l, If)), EndIf))
  }

  ghost function PrintedArms(arms: Arms, l: Listing): (r: Listing)
    decreases arms
  {
    match arms
    case Last(body) => Printed(body, l)
    case More(body, others) => PrintedArms(others, Listed(Printed(body, l), Else))
  }

  lemma {:induction false} PrintedOnto(c: Code, l: Listing, rest: Program)
    ensures Onto(Printed(c, l), rest) == Onto(l, Flattened(c, rest))
    decreases c
  {
    match c
    case Done =>
    case Then(instr, after) => PrintedOnto(after, Listed(l, instr), rest);
    case Cond(arms, after) =>
      PrintedOnto(after, Listed(PrintedArms(arms, Listed(l, If)), EndIf), rest);
      PrintedArmsOnto(arms, Listed(l, If), Flattened(after, rest));
  }

  lemma {:induction false} PrintedArmsOnto(arms: Arms, l: Listing, rest: Program)
    ensures Onto(Listed(PrintedArms(arms, l), EndIf), rest) == Onto(l, FlattenedArms(arms, rest))
    decreases arms
  {
    match arms
    case Last(body) => PrintedOnto(body, l, Next(EndIf, rest));
    case More(body, others) =>
      PrintedArmsOnto(others, Listed(Printed(body, l), Else), rest);
      PrintedOnto(body, l, Next(Else, FlattenedArms(others, rest)));
  }

  /** A script assembled from well-nested code runs as that code, within the instruction limit. */
  lemma AssembledRuns<M>(s: Semantics<M>, c: Code, l: Listing, m: M)
    requires Plain(c) && l == Printed(c, Blank) && Legible(l)
    ensures Run(s, Assembled(l), m) == if Length(l) > MAX_SCRIPT_OPS then Err else RunCode(s, c, m)
  {
    var whole := Assembled(l);
    assert whole + [] == whole;
    DecodesOnto(l, [], whole, End);
    PrintedOnto(c, Blank, End);
    OntoSize(l, End);
    BlockOfFlattened(c, End);
    RunIsStructured(s, whole, m);
  }

  function Stripped(b: Bytes): (r: Bytes)
    ensures |b| > 0 ==> 1 <= |r| <= |b|
  {
    if |b| > 1 && b[0] == 0 then Stripped(b[1..]) else b
  }

  /** An unsigned operand, minimally encoded; zero is the empty item. */
  function UintBytes(v: nat): (b: Bytes)
    ensures |b| <= 8
  {
    if v == 0 then [] else Stripped(U64(v))
  }

  lemma {:induction false} ValueLeadingZero(b: Bytes)
    requires b != [] && b[0] == 0
    ensures Value(b) == Value(b[1..])
  {
    if |b| > 1 {
      ValueLeadingZero(b[..|b| - 1]);
      assert b[..|b| - 1][1..] == b[1..][..|b| - 2];
    }
  }

  lemma {:induction false} ValueStripped(b: Bytes)
    ensures Value(Stripped(b)) == Value(b)
  {
    if |b| > 1 && b[0] == 0 {
      ValueLeadingZero(b);
      ValueStripped(b[1..]);
    }
  }

  lemma Pow256Of8()
    ensures Pow256(8) == U64_LIMIT
  {
    assert Pow256(1) == 256 && Pow256(2) == 0x1_0000 && Pow256(4) == U32_LIMIT;
    assert Pow256(5) == 256 * Pow256(4) && Pow256(6) == 256 * Pow256(5);
    assert Pow256(7) == 256 * Pow256(6) && Pow256(8) == 256 * Pow256(7);
  }

  /** An operand reads back as itself, up to the interpreter's cap. */
  lemma SmallIntOfUint(v: nat)
    requires v < U64_LIMIT
    ensures SmallInt(UintBytes(v)) == if v > SMALL_INT_CAP then SMALL_INT_CAP else v
  {
    if v > 0 {
      Pow256Of8();
      ValueOfBigEndian(v, 8);
      ValueStripped(U64(v));
    }
  }

  lemma CondRuns<M>(s: Semantics<M>, yes: Code, no: Code, m: M)
    ensures RunCode(s, Cond(More(yes, Last(no)), Done), m)
         == if s.choose(m).Err? then Err else RunCode(s, if s.choose(m).value.0 then yes else no, s.choose(m).value.1)
  {
    var choice := s.choose(m);
    if choice.Ok? {
      var m' := choice.value.1;
      var arms := RunArms(s, More(yes, Last(no)), choice.value.0, m');
      assert arms == if choice.value.0 then RunCode(s, yes, m') else RunCode(s, no, m') by {
        if choice.value.0 && RunCode(s, yes, m').Ok? {
          var m'' := RunCode(s, yes, m').value;
          assert RunArms(s, Last(no), false, m'') == Ok(m'');
        } else if !choice.value.0 {
          assert RunArms(s, Last(no), true, m') == RunCode(s, no, m');
        }
      }
      assert arms.Ok? ==> RunCode(s, Done, arms.value) == Ok(arms.value);
    }
  }

  function OpInstr(op: Byte): (instr: Instr) {
    if op == OP_IF then If else if op == OP_ELSE then Else else if op == OP_END_IF then EndIf else Do(op)
  }

  /** The builder: bytes so far, and whether any call was refused. */
  class Builder {
    var b: Bytes
    var failed: bool
    ghost var code: Listing

    ghost predicate Valid()
      reads this
    {
      code.Garbled? || (!failed && Legible(code) && b == Assembled(code))
    }

    constructor ()
      ensures Valid() && code == Blank && !failed
    {
      b, failed, code := [], false, Blank;
    }

    /** Appends an operation byte; a push length is refused. */
    method Op(op: Byte)
      requires Valid()
      modifies this
      ensures Valid() && code == Write(old(code), OpInstr(op))
      ensures failed <==> old(failed) || op < OP_PUSH_DATA
    {
      if !failed {
        if op < OP_PUSH_DATA {
          failed := true;
        } else {
          b := b + [op];
        }
      }
      code := Write(code, OpInstr(op));
    }

    method Push(data: Bytes)
      requires Valid()
      modifies this
      ensures Valid() && code == Write(old(code), Instr.Push(data))
      ensures failed <==> old(failed) || |data| > MAX_ITEM_BYTES
    {
      if !failed {
        if |data| > MAX_ITEM_BYTES {
          failed := true;
        } else if |data| < OP_PUSH_DATA {
          b := b + ([|data|] + data);
        } else {
          b := b + ([OP_PUSH_DATA] + BigEndian(|data|, 2) + data);
        }
      }
      code := Write(code, Instr.Push(data));
    }

    method PushUint(v: nat)
      requires Valid() && v < U64_LIMIT
      modifies this
      ensures Valid() && code == Write(old(code), Instr.Push(UintBytes(v))) && failed == old(failed)
    {
      if v == 0 {
        Push([]);
        return;
      }
      var buf := U64(v);
      var i := 0;
      while i < 7 && buf[i] == 0
        invariant 0 <= i <= 7 && Stripped(buf[i..]) == Stripped(buf)
      {
        assert buf[i..][1..] == buf[i + 1..];
        i := i + 1;
      }
      Push(buf[i..]);
    }

    method Build() returns (r: Result<Bytes>)
      ensures r == if failed || |b| == 0 || |b| > MAX_SCRIPT_BYTES then Err else Ok(b)
    {
      if failed || |b| == 0 || |b| > MAX_SCRIPT_BYTES {
        return Err;
      }
      return Ok(b);
    }
  }
}
