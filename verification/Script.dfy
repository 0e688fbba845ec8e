/** The authorization script language: what one instruction does, the flat interpreter that scans
    the bytes once and skips dead arms, and the structured meaning it agrees with. */
module Script {
  import opened Bytes

  const MAX_SCRIPT_BYTES := 1024
  const MAX_SCRIPT_OPS := 256
  const MAX_SCRIPT_STACK := 64
  const MAX_ITEM_BYTES := 520
  const MAX_WITNESS := 32
  const MAX_SIG_CHECKS := 20

  const OP_PUSH_DATA: Byte := 0x50
  const OP_DUP: Byte := 0x60
  const OP_DROP: Byte := 0x61
  const OP_SWAP: Byte := 0x62
  const OP_EQUAL: Byte := 0x63
  const OP_VERIFY: Byte := 0x64
  const OP_TRUE: Byte := 0x65
  const OP_FALSE: Byte := 0x66
  const OP_SHA256: Byte := 0x70
  const OP_CHECK_SIG: Byte := 0x80
  const OP_CHECK_SIG_VERIFY: Byte := 0x81
  const OP_CHECK_MULTI_SIG: Byte := 0x82
  const OP_CHECK_HEIGHT_VERIFY: Byte := 0x83
  const OP_CHECK_SENDER_VERIFY: Byte := 0x84
  const OP_EQUAL_VERIFY: Byte := 0x85
  const OP_CHECK_MULTI_SIG_VERIFY: Byte := 0x86
  const OP_IF: Byte := 0x90
  const OP_ELSE: Byte := 0x91
  const OP_END_IF: Byte := 0x92

  const SHA_LEN := 32
  type Sum = s: Bytes | |s| == SHA_LEN witness seq(SHA_LEN, _ => 0)

  /** The hash and the signature check, the latter over the spending transaction's signing bytes. */
  datatype Env = Env(sha: Bytes -> Sum, verify: (Bytes, Bytes) -> bool)

  datatype Machine = Machine(stack: seq<Bytes>, sigChecks: nat, minHeight: nat)

  predicate Truthy(item: Bytes) {
    exists i :: 0 <= i < |item| && item[i] != 0
  }

  function BoolItem(b: bool): (item: Bytes) {
    if b then [1] else []
  }

  function PushItem(m: Machine, item: Bytes): (r: Result<Machine>) {
    if |m.stack| >= MAX_SCRIPT_STACK || |item| > MAX_ITEM_BYTES then Err
    else Ok(m.(stack := m.stack + [item]))
  }

  function Popped(m: Machine, n: nat): (r: Machine)
    requires n <= |m.stack|
  {
    m.(stack := m.stack[..|m.stack| - n])
  }

  /** The item `i` places below the top. */
  function Top(m: Machine, i: nat): (item: Bytes)
    requires i < |m.stack|
  {
    m.stack[|m.stack| - 1 - i]
  }

  const SMALL_INT_CAP := 0x8000_0000

  /** A big-endian operand, capped at `2^31`; empty or over-long items read as zero. */
  function SmallInt(item: Bytes): (n: nat)
    ensures n <= SMALL_INT_CAP
  {
    if |item| > 8 then 0 else if Value(item) > SMALL_INT_CAP then SMALL_INT_CAP else Value(item)
  }

  /** The first key not yet used that verifies the signature. */
  function FirstMatch(e: Env, keys: seq<Bytes>, sig: Bytes, used: set<nat>, from: nat): (k: Option<nat>)
    requires from <= |keys|
    ensures k.Some? ==> from <= k.value < |keys| && k.value !in used && e.verify(keys[k.value], sig)
    ensures k.None? ==> forall i :: from <= i < |keys| && i !in used ==> !e.verify(keys[i], sig)
    decreases |keys| - from
  {
    if from == |keys| then None
    else if from !in used && e.verify(keys[from], sig) then Some(from)
    else FirstMatch(e, keys, sig, used, from + 1)
  }

  /** How many signatures find a key of their own, taken greedily in order. */
  function Matched(e: Env, keys: seq<Bytes>, sigs: seq<Bytes>, used: set<nat>): (n: nat)
    ensures n <= |sigs|
    decreases |sigs|
  {
    if sigs == [] then 0
    else
      match FirstMatch(e, keys, sigs[0], used, 0)
      case None => Matched(e, keys, sigs[1..], used)
      case Some(k) => 1 + Matched(e, keys, sigs[1..], used + {k})
  }

  /** Items popped one by one, topmost first. */
  function TopItems(m: Machine, n: nat): (items: seq<Bytes>)
    requires n <= |m.stack|
    ensures |items| == n
    ensures forall i :: 0 <= i < n ==> items[i] == Top(m, i)
  {
    if n == 0 then [] else TopItems(m, n - 1) + [Top(m, n - 1)]
  }

  datatype Group = Group(items: seq<Bytes>, rest: Machine)

  /** A count between 1 and `limit` on top, then that many items. */
  function TakeGroup(m: Machine, limit: nat): (g: Option<Group>)
    ensures g.Some? ==> 1 <= |g.value.items| <= limit && g.value.rest.sigChecks == m.sigChecks
  {
    if |m.stack| < 1 then None
    else
      var n, below := SmallInt(Top(m, 0)), Popped(m, 1);
      if n < 1 || n > limit || n > |below.stack| then None
      else Some(Group(TopItems(below, n), Popped(below, n)))
  }

  function Verdict(m: Machine, ok: bool, verify: bool): (r: Result<Machine>) {
    if !verify then PushItem(m, BoolItem(ok)) else if ok then Ok(m) else Err
  }

  function CheckSig(e: Env, m: Machine, verify: bool): (r: Result<Machine>) {
    if m.sigChecks + 1 > MAX_SIG_CHECKS || |m.stack| < 2 then Err
    else Verdict(Popped(m, 2).(sigChecks := m.sigChecks + 1), e.verify(Top(m, 0), Top(m, 1)), verify)
  }

  /** Every signature may be tried against every key. */
  function SigCost(need: nat, n: nat): (cost: nat) {
    need * n
  }

  function CheckMultiSig(e: Env, m: Machine, verify: bool): (r: Result<Machine>) {
    var keys := TakeGroup(m, MAX_SIG_CHECKS);
    if keys.None? then Err
    else
      var sigs := TakeGroup(keys.value.rest, |keys.value.items|);
      if sigs.None? then Err
      else MeetThreshold(e, sigs.value.rest, keys.value.items, sigs.value.items, verify)
  }

  /** Every signature must find a key of its own. */
  function MeetThreshold(e: Env, m: Machine, keys: seq<Bytes>, sigs: seq<Bytes>, verify: bool): (r: Result<Machine>) {
    var checks := m.sigChecks + SigCost(|sigs|, |keys|);
    if checks > MAX_SIG_CHECKS then Err
    else Verdict(m.(sigChecks := checks), Matched(e, keys, sigs, {}) >= |sigs|, verify)
  }

  function CheckHeight(m: Machine): (r: Result<Machine>) {
    if |m.stack| < 1 || |Top(m, 0)| > 8 then Err
    else
      var h := SmallInt(Top(m, 0));
      Ok(Popped(m, 1).(minHeight := if h > m.minHeight then h else m.minHeight))
  }

  function Exec(e: Env, op: Byte, m: Machine): (r: Result<Machine>) {
    var n := |m.stack|;
    if op == OP_TRUE then PushItem(m, [1])
    else if op == OP_FALSE then PushItem(m, [])
    else if op == OP_DUP then (if n < 1 then Err else PushItem(m, Top(m, 0)))
    else if op == OP_DROP then (if n < 1 then Err else Ok(Popped(m, 1)))
    else if op == OP_SWAP then (if n < 2 then Err else Ok(m.(stack := m.stack[..n - 2] + [Top(m, 0), Top(m, 1)])))
    else if op == OP_EQUAL || op == OP_EQUAL_VERIFY then
      (if n < 2 then Err else Verdict(Popped(m, 2), Top(m, 0) == Top(m, 1), op == OP_EQUAL_VERIFY))
    else if op == OP_VERIFY then (if n < 1 || !Truthy(Top(m, 0)) then Err else Ok(Popped(m, 1)))
    else if op == OP_SHA256 then (if n < 1 then Err else PushItem(Popped(m, 1), e.sha(Top(m, 0))))
    else if op == OP_CHECK_SIG || op == OP_CHECK_SIG_VERIFY then CheckSig(e, m, op == OP_CHECK_SIG_VERIFY)
    else if op == OP_CHECK_MULTI_SIG || op == OP_CHECK_MULTI_SIG_VERIFY then
      CheckMultiSig(e, m, op == OP_CHECK_MULTI_SIG_VERIFY)
    else if op == OP_CHECK_HEIGHT_VERIFY then CheckHeight(m)
    else Err
  }

  /** One decoded instruction.  `Do` is any operation byte, known or not: an unknown one only
      fails when it is executed. */
  datatype Instr = Push(data: Bytes) | Do(op: Byte) | If | Else | EndIf

  function Perform(e: Env, instr: Instr, m: Machine): (r: Result<Machine>) {
    match instr
    case Push(data) => PushItem(m, data)
    case Do(op) => Exec(e, op, m)
    case _ => Err
  }

  function Choose(m: Machine): (r: Result<(bool, Machine)>) {
    if |m.stack| < 1 then Err else Ok((Truthy(Top(m, 0)), Popped(m, 1)))
  }

  /** What control flow needs to know of the machine: how a plain instruction changes it, and how
      a conditional takes its choice from it. */
  datatype Semantics<!M> = Semantics(perform: (Instr, M) -> Result<M>, choose: M -> Result<(bool, M)>)

  function ScriptSemantics(e: Env): (s: Semantics<Machine>) {
    Semantics((instr, m) => Perform(e, instr, m), m => Choose(m))
  }

  /** The instruction at byte `i`, and where the next one starts; none when a push is cut short. */
  function Read(script: Bytes, i: nat): (r: Option<(Instr, nat)>)
    requires i < |script|
    ensures r.Some? ==> i < r.value.1 <= |script|
  {
    var op := script[i];
    if op < OP_PUSH_DATA then ReadData(script, i + 1, op)
    else if op == OP_PUSH_DATA then
      if i + 3 > |script| then None else ReadData(script, i + 3, Value(script[i + 1..i + 3]))
    else Some((if op == OP_IF then If else if op == OP_ELSE then Else else if op == OP_END_IF then EndIf else Do(op), i + 1))
  }

  function ReadData(script: Bytes, i: nat, n: nat): (r: Option<(Instr, nat)>)
    requires i <= |script|
    ensures r.Some? ==> r.value.1 == i + n <= |script|
  {
    if i + n > |script| then None else Some((Push(script[i..i + n]), i + n))
  }

  /** Every open arm is executing. */
  predicate Live(branches: seq<bool>) {
    forall i :: 0 <= i < |branches| ==> branches[i]
  }

  /** One instruction of the flat scan: control flow is tracked even while skipping. */
  function FlatStep<M>(s: Semantics<M>, instr: Instr, branches: seq<bool>, m: M): (r: Result<(seq<bool>, M)>) {
    match instr
    case If =>
      if !Live(branches) then Ok((branches + [false], m))
      else
        var choice := s.choose(m);
        if choice.Err? then Err else Ok((branches + [choice.value.0], choice.value.1))
    case Else =>
      if branches == [] then Err
      else
        var outer, arm := branches[..|branches| - 1], branches[|branches| - 1];
        Ok((outer + [if Live(outer) then !arm else arm], m))
    case EndIf => if branches == [] then Err else Ok((branches[..|branches| - 1], m))
    case _ =>
      if !Live(branches) then Ok((branches, m))
      else
        var done := s.perform(instr, m);
        if done.Err? then Err else Ok((branches, done.value))
  }

  /** The flat scan of the bytes from `i` on, `ops` instructions having been scanned. */
  function Flat<M>(s: Semantics<M>, script: Bytes, i: nat, branches: seq<bool>, m: M, ops: nat): (r: Result<M>)
    requires i <= |script|
    decreases |script| - i
  {
    if i == |script| then (if branches == [] then Ok(m) else Err)
    else if ops + 1 > MAX_SCRIPT_OPS then Err
    else
      var read := Read(script, i);
      if read.None? then Err
      else
        var step := FlatStep(s, read.value.0, branches, m);
        if step.Err? then Err else Flat(s, script, read.value.1, step.value.0, step.value.1, ops + 1)
  }

  /** Running a script from its first byte. */
  function Run<M>(s: Semantics<M>, script: Bytes, m: M): (r: Result<M>) {
    Flat(s, script, 0, [], m, 0)
  }

  /** Structured programs: a conditional has one or more arms separated by `Else`, of which every
      other one executes. */
  datatype Code = Done | Then(instr: Instr, rest: Code) | Cond(arms: Arms, after: Code)

  datatype Arms = Last(body: Code) | More(body: Code, others: Arms)

  function RunCode<M>(s: Semantics<M>, c: Code, m: M): (r: Result<M>)
    decreases c
  {
    match c
    case Done => Ok(m)
    case Then(instr, rest) =>
      var done := s.perform(instr, m);
      if done.Err? then Err else RunCode(s, rest, done.value)
    case Cond(arms, after) =>
      var choice := s.choose(m);
      if choice.Err? then Err
      else
        var done := RunArms(s, arms, choice.value.0, choice.value.1);
        if done.Err? then Err else RunCode(s, after, done.value)
  }

  function RunArms<M>(s: Semantics<M>, arms: Arms, live: bool, m: M): (r: Result<M>)
    decreases arms
  {
    match arms
    case Last(body) => if live then RunCode(s, body, m) else Ok(m)
    case More(body, others) =>
      var done := if live then RunCode(s, body, m) else Ok(m);
      if done.Err? then Err else RunArms(s, others, !live, done.value)
  }
}
