/** The flat, branch-skipping scan means exactly the structured program its bytes nest into. */
module ScriptMeaning {
  import opened Bytes
  import opened Script

  datatype Program = End | Next(instr: Instr, rest: Program)

  function Size(p: Program): (n: nat) {
    match p
    case End => 0
    case Next(_, rest) => 1 + Size(rest)
  }

  /** The instructions of the bytes from `i` on; none when some push is cut short. */
  function Decoded(script: Bytes, i: nat): (r: Option<Program>)
    requires i <= |script|
    decreases |script| - i
  {
    if i == |script| then Some(End)
    else
      var read := Read(script, i);
      if read.None? then None
      else
        var rest := Decoded(script, read.value.1);
        if rest.None? then None else Some(Next(read.value.0, rest.value))
  }

  predicate Closes(p: Program) {
    p.End? || p.instr.Else? || p.instr.EndIf?
  }

  datatype Opening<T> = Unclosed | Opening(part: T, rest: Program)

  /** The longest structured block a program starts with, and what follows it; unclosed when a
      conditional inside never ends. */
  function Block(p: Program): (r: Opening<Code>)
    ensures r.Opening? ==> Size(r.rest) <= Size(p) && Closes(r.rest)
    ensures r.Opening? && !Closes(p) ==> Size(r.rest) < Size(p)
    decreases Size(p), 1
  {
    if Closes(p) then Opening(Done, p)
    else if p.instr.If? then
      var arms := ArmsOf(p.rest);
      if arms.Unclosed? then Unclosed
      else
        var after := Block(arms.rest);
        if after.Unclosed? then Unclosed else Opening(Cond(arms.part, after.part), after.rest)
    else
      var after := Block(p.rest);
      if after.Unclosed? then Unclosed else Opening(Then(p.instr, after.part), after.rest)
  }

  /** The arms up to the `EndIf` that closes them, and what follows it. */
  function ArmsOf(p: Program): (r: Opening<Arms>)
    ensures r.Opening? ==> Size(r.rest) < Size(p)
    decreases Size(p), 2
  {
    var body := Block(p);
    if body.Unclosed? || body.rest.End? then Unclosed
    else if body.rest.instr.EndIf? then Opening(Last(body.part), body.rest.rest)
    else
      var others := ArmsOf(body.rest.rest);
      if others.Unclosed? then Unclosed else Opening(More(body.part, others.part), others.rest)
  }

  /** The structured program a script's bytes spell, if its conditionals nest, and how many
      instructions that is. */
  function Structured(script: Bytes): (r: Option<(Code, nat)>) {
    var p := Decoded(script, 0);
    if p.None? then None
    else
      var b := Block(p.value);
      if b.Unclosed? || !b.rest.End? then None else Some((b.part, Size(p.value)))
  }

  /** The flat scan over decoded instructions. */
  function FlatOver<M>(s: Semantics<M>, p: Program, branches: seq<bool>, m: M, ops: nat): (r: Result<M>)
    decreases p
  {
    if p.End? then (if branches == [] then Ok(m) else Err)
    else if ops + 1 > MAX_SCRIPT_OPS then Err
    else
      var step := FlatStep(s, p.instr, branches, m);
      if step.Err? then Err else FlatOver(s, p.rest, step.value.0, step.value.1, ops + 1)
  }

  /** Decoding first changes nothing: a push that is cut short fails either way. */
  lemma {:induction false} FlatDecodes<M>(s: Semantics<M>, script: Bytes, i: nat, branches: seq<bool>, m: M, ops: nat)
    requires i <= |script|
    ensures Decoded(script, i).None? ==> Flat(s, script, i, branches, m, ops) == Err
    ensures Decoded(script, i).Some? ==>
      Flat(s, script, i, branches, m, ops) == FlatOver(s, Decoded(script, i).value, branches, m, ops)
    decreases |script| - i
  {
    if i < |script| && ops + 1 <= MAX_SCRIPT_OPS && Read(script, i).Some? {
      var (instr, next) := Read(script, i).value;
      var step := FlatStep(s, instr, branches, m);
      if step.Ok? {
        FlatDecodes(s, script, next, step.value.0, step.value.1, ops + 1);
      }
    }
  }

  lemma LiveSnoc(outer: seq<bool>, arm: bool)
    ensures Live(outer + [arm]) <==> Live(outer) && arm
  {
    var all := outer + [arm];
    assert all[|outer|] == arm && forall i :: 0 <= i < |outer| ==> all[i] == outer[i];
  }

  /** What is left to do once `ops` instructions have left the machine as `r`. */
  function Resume<M>(s: Semantics<M>, r: Result<M>, rest: Program, branches: seq<bool>, ops: nat): (out: Result<M>) {
    if ops > MAX_SCRIPT_OPS || r.Err? then Err else FlatOver(s, rest, branches, r.value, ops)
  }

  function CodeIfLive<M>(s: Semantics<M>, live: bool, c: Code, m: M): (r: Result<M>) {
    if live then RunCode(s, c, m) else Ok(m)
  }

  function ArmsIfLive<M>(s: Semantics<M>, live: bool, arms: Arms, arm: bool, m: M): (r: Result<M>) {
    if live then RunArms(s, arms, arm, m) else Ok(m)
  }

  /** Scanning a block runs it when every open arm is live and otherwise only counts it. */
  lemma {:induction false} FlatBlock<M>(s: Semantics<M>, p: Program, branches: seq<bool>, m: M, ops: nat)
    requires ops <= MAX_SCRIPT_OPS
    ensures var b := Block(p);
            FlatOver(s, p, branches, m, ops) ==
            if b.Unclosed? then Err
            else Resume(s, CodeIfLive(s, Live(branches), b.part, m), b.rest, branches, ops + Size(p) - Size(b.rest))
    decreases Size(p), 1
  {
    if !Closes(p) && ops + 1 <= MAX_SCRIPT_OPS {
      var step := FlatStep(s, p.instr, branches, m);
      if step.Ok? && p.instr.If? {
        FlatCond(s, p, branches, m, ops);
      } else if step.Ok? {
        FlatBlock(s, p.rest, branches, step.value.1, ops + 1);
      }
    }
  }

  /** A block that starts with a conditional. */
  lemma {:induction false} FlatCond<M>(s: Semantics<M>, p: Program, branches: seq<bool>, m: M, ops: nat)
    requires ops + 1 <= MAX_SCRIPT_OPS && p.Next? && p.instr.If? && FlatStep(s, p.instr, branches, m).Ok?
    ensures var b := Block(p);
            FlatOver(s, p, branches, m, ops) ==
            if b.Unclosed? then Err
            else Resume(s, CodeIfLive(s, Live(branches), b.part, m), b.rest, branches, ops + Size(p) - Size(b.rest))
    decreases Size(p), 0
  {
    var (branches', m') := FlatStep(s, p.instr, branches, m).value;
    var arm := branches'[|branches|];
    FlatArms(s, p.rest, branches, arm, m', ops + 1);
    var arms := ArmsOf(p.rest);
    if arms.Opening? {
      var used := ops + 1 + Size(p.rest) - Size(arms.rest);
      var r := ArmsIfLive(s, Live(branches), arms.part, arm, m');
      if used <= MAX_SCRIPT_OPS && r.Ok? {
        FlatBlock(s, arms.rest, branches, r.value, used);
      }
    }
  }

  /** What follows one arm: the conditional ends, or its other arms are scanned. */
  function AfterArm<M>(s: Semantics<M>, p: Program, outer: seq<bool>, arm: bool, m: M, ops: nat): (r: Result<M>)
    requires p.Next?
  {
    if p.instr.EndIf? then Resume(s, Ok(m), p.rest, outer, ops + 1)
    else ArmsMeaning(s, p.rest, outer, if Live(outer) then !arm else arm, m, ops + 1)
  }

  lemma {:induction false} ArmEnds<M>(s: Semantics<M>, p: Program, outer: seq<bool>, arm: bool, m: M, ops: nat)
    requires ops <= MAX_SCRIPT_OPS && p.Next? && Closes(p)
    ensures FlatOver(s, p, outer + [arm], m, ops) == AfterArm(s, p, outer, arm, m, ops)
    decreases Size(p), 0
  {
    assert (outer + [arm])[..|outer|] == outer;
    if ops + 1 <= MAX_SCRIPT_OPS && p.instr.Else? {
      FlatArms(s, p.rest, outer, if Live(outer) then !arm else arm, m, ops + 1);
    }
  }

  /** The meaning of a conditional's arms from where the scan of its first arm starts. */
  function ArmsMeaning<M>(s: Semantics<M>, p: Program, outer: seq<bool>, arm: bool, m: M, ops: nat): (r: Result<M>) {
    var a := ArmsOf(p);
    if a.Unclosed? then Err
    else Resume(s, ArmsIfLive(s, Live(outer), a.part, arm, m), a.rest, outer, ops + Size(p) - Size(a.rest))
  }

  lemma FirstArm<M>(s: Semantics<M>, p: Program, outer: seq<bool>, arm: bool, m: M, ops: nat)
    requires ops <= MAX_SCRIPT_OPS && Block(p).Opening? && Block(p).rest.Next?
    ensures var used, r := ops + Size(p) - Size(Block(p).rest), CodeIfLive(s, Live(outer) && arm, Block(p).part, m);
            ArmsMeaning(s, p, outer, arm, m, ops) ==
            if used > MAX_SCRIPT_OPS || r.Err? then Err else AfterArm(s, Block(p).rest, outer, arm, r.value, used)
  {
  }

  /** Scanning the arms of a conditional alternates them when everything outside is live. */
  lemma {:induction false} FlatArms<M>(s: Semantics<M>, p: Program, outer: seq<bool>, arm: bool, m: M, ops: nat)
    requires ops <= MAX_SCRIPT_OPS
    ensures FlatOver(s, p, outer + [arm], m, ops) == ArmsMeaning(s, p, outer, arm, m, ops)
    decreases Size(p), 2
  {
    LiveSnoc(outer, arm);
    FlatBlock(s, p, outer + [arm], m, ops);
    var body := Block(p);
    if body.Opening? && body.rest.Next? {
      FirstArm(s, p, outer, arm, m, ops);
      var used := ops + Size(p) - Size(body.rest);
      var r := CodeIfLive(s, Live(outer) && arm, body.part, m);
      if used <= MAX_SCRIPT_OPS && r.Ok? {
        ArmEnds(s, body.rest, outer, arm, r.value, used);
      }
    }
  }

  lemma FlatProgram<M>(s: Semantics<M>, p: Program, branches: seq<bool>, m: M, ops: nat)
    requires ops <= MAX_SCRIPT_OPS && branches == []
    ensures FlatOver(s, p, branches, m, ops) ==
            if Block(p).Unclosed? || !Block(p).rest.End? || ops + Size(p) > MAX_SCRIPT_OPS then Err
            else RunCode(s, Block(p).part, m)
  {
    FlatBlock(s, p, branches, m, ops);
  }

  lemma FlatIsStructured<M>(s: Semantics<M>, script: Bytes, start: nat, branches: seq<bool>, m: M, ops: nat)
    requires start == 0 && branches == [] && ops == 0
    ensures Structured(script).None? ==> Flat(s, script, start, branches, m, ops) == Err
    ensures Structured(script).Some? ==>
      Flat(s, script, start, branches, m, ops) ==
      if Structured(script).value.1 > MAX_SCRIPT_OPS then Err else RunCode(s, Structured(script).value.0, m)
  {
    FlatDecodes(s, script, start, branches, m, ops);
    var p := Decoded(script, start);
    if p.Some? {
      FlatProgram(s, p.value, branches, m, ops);
    }
  }

  /** For every byte string, machine and meaning of the plain instructions: the flat scan succeeds
      exactly when the bytes decode, their conditionals nest, the instructions fit the limit and
      the structured program succeeds, and then it leaves the same machine. */
  lemma RunIsStructured<M>(s: Semantics<M>, script: Bytes, m: M)
    ensures Structured(script).None? ==> Run(s, script, m) == Err
    ensures Structured(script).Some? ==>
      Run(s, script, m) ==
      if Structured(script).value.1 > MAX_SCRIPT_OPS then Err else RunCode(s, Structured(script).value.0, m)
  {
    FlatIsStructured(s, script, 0, [], m, 0);
  }
}
