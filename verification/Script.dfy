/** Scenarios as programs: lowering to stack bytecode, the virtual machine, and the direct
    interpreter (the embedded modules `script_bytecode.rue`, `script_lower.rue`, `script_vm.rue`,
    `script_interpreter.rue` and `script_oracle.rue`).  Plain 64-bit arithmetic traps on
    overflow; `Mix` wraps. */
module Script {
  import opened Metric
  import opened Scenarios

  datatype Checked<+T> = Ok(value: T) | Overflow

  function CheckU64(n: nat): Checked<nat> {
    if n < TWO64 then Ok(n) else Overflow
  }

  // ----- bytecode -----

  const PUSH := 1
  const ADD := 2
  const MUL := 3
  const MIX := 4
  const HALT := 5

  datatype Op = Op(kind: nat, operand: nat)

  datatype Program = Program(ops: seq<Op>, entities: nat, valid: bool)

  /** The word that stands for an instruction in the machine's digest. */
  function Code(op: Op): nat {
    op.kind * 257 + op.operand
  }

  function Codes(ops: seq<Op>): seq<nat> {
    seq(|ops|, i requires 0 <= i < |ops| => Code(ops[i]))
  }

  // ----- lowering -----

  function EntityOps(e: EntitySpec): seq<Op> {
    [Op(PUSH, e.kind), Op(PUSH, e.faction), Op(MUL, 0), Op(ADD, 0), Op(PUSH, e.x + e.y), Op(MIX, 0)]
  }

  function AllEntityOps(es: seq<EntitySpec>): seq<Op> {
    if es == [] then [] else AllEntityOps(es[..|es| - 1]) + EntityOps(es[|es| - 1])
  }

  function HeadOps(s: Scenario): seq<Op> {
    [Op(PUSH, s.width), Op(PUSH, s.height), Op(MUL, 0)]
  }

  function TailOps(s: Scenario): seq<Op> {
    [Op(PUSH, s.ticks), Op(MIX, 0), Op(HALT, 0)]
  }

  /** The sums that lowering computes fit. */
  predicate SumsFit(es: seq<EntitySpec>) {
    forall i :: 0 <= i < |es| ==> es[i].x + es[i].y < TWO64
  }

  method Lower(s: Scenario) returns (r: Checked<Program>)
    ensures r.Ok? <==> SumsFit(s.entities)
    ensures r.Ok? ==>
      r.value == Program(HeadOps(s) + AllEntityOps(s.entities) + TailOps(s), |s.entities|, s.valid)
  {
    var ops := [Op(PUSH, s.width)];
    ops := ops + [Op(PUSH, s.height)];
    ops := ops + [Op(MUL, 0)];
    var entities, i := 0, 0;
    while i < |s.entities|
      invariant i <= |s.entities| && entities == i && SumsFit(s.entities[..i])
      invariant ops == HeadOps(s) + AllEntityOps(s.entities[..i])
    {
      var item := s.entities[i];
      var before := ops;
      ops := ops + [Op(PUSH, item.kind)];
      ops := ops + [Op(PUSH, item.faction)];
      ops := ops + [Op(MUL, 0)];
      ops := ops + [Op(ADD, 0)];
      var sum := item.x + item.y;
      if sum >= TWO64 {
        return Overflow;
      }
      ops := ops + [Op(PUSH, sum)];
      ops := ops + [Op(MIX, 0)];
      assert ops == before + EntityOps(item);
      assert s.entities[..i + 1][..i] == s.entities[..i];
      entities, i := entities + 1, i + 1;
    }
    assert s.entities[..i] == s.entities;
    var all := ops;
    ops := ops + [Op(PUSH, s.ticks)];
    ops := ops + [Op(MIX, 0)];
    ops := ops + [Op(HALT, 0)];
    assert ops == all + TailOps(s);
    r := Ok(Program(ops, entities, s.valid && entities == |s.entities|));
  }

  // ----- the virtual machine -----

  datatype Machine = Machine(stack: seq<nat>, steps: nat, maximumStack: nat, digest: nat, valid: bool)

  datatype VmResult = VmResult(value: nat, steps: nat, maximumStack: nat, digest: nat, valid: bool)

  datatype StepResult = Next(m: Machine) | Stop(m: Machine) | Trap

  function Apply(kind: nat, left: nat, right: nat): Checked<nat> {
    if kind == ADD then CheckU64(left + right)
    else if kind == MUL then CheckU64(left * right)
    else Ok(Mix(left, right))
  }

  function Settle(m: Machine, stack: seq<nat>): Machine {
    m.(stack := stack, maximumStack := if |stack| > m.maximumStack then |stack| else m.maximumStack)
  }

  function Step(op: Op, m: Machine): StepResult {
    if Code(op) >= TWO64 then Trap
    else
      var m1 := m.(steps := m.steps + 1, digest := Mix(m.digest, Code(op)));
      var n := |m.stack|;
      if op.kind == PUSH then Next(Settle(m1, m.stack + [op.operand]))
      else if op.kind == ADD || op.kind == MUL || op.kind == MIX then
        if n < 2 then Stop(m1.(valid := false))
        else
          match Apply(op.kind, m.stack[n - 2], m.stack[n - 1])
          case Overflow => Trap
          case Ok(v) => Next(Settle(m1, m.stack[..n - 2] + [v]))
      else if op.kind == HALT then Stop(m1)
      else Stop(m1.(valid := false))
  }

  function Finish(m: Machine): VmResult {
    VmResult(if |m.stack| > 0 then m.stack[0] else 0, m.steps, m.maximumStack, m.digest, m.valid && |m.stack| == 1)
  }

  function Exec(ops: seq<Op>, pc: nat, m: Machine): Checked<VmResult>
    requires pc <= |ops|
    decreases |ops| - pc
  {
    if pc == |ops| then Ok(Finish(m))
    else
      match Step(ops[pc], m)
      case Next(m') => Exec(ops, pc + 1, m')
      case Stop(m') => Ok(Finish(m'))
      case Trap => Overflow
  }

  function Boot(valid: bool): Machine {
    Machine([], 0, 0, OFFSET_BASIS, valid)
  }

  method Execute(program: Program) returns (r: Checked<VmResult>)
    ensures r == Exec(program.ops, 0, Boot(program.valid))
  {
    hide Mix;
    hide Apply;
    var stack: seq<nat> := [];
    var steps: nat, maximumStack: nat, digest: nat, valid := 0, 0, OFFSET_BASIS, program.valid;
    var pc := 0;
    while pc < |program.ops|
      invariant pc <= |program.ops|
      invariant Exec(program.ops, pc, Machine(stack, steps, maximumStack, digest, valid)) ==
        Exec(program.ops, 0, Boot(program.valid))
    {
      var op := program.ops[pc];
      steps := steps + 1;
      if op.kind * 257 + op.operand >= TWO64 {
        return Overflow;
      }
      digest := Mix(digest, op.kind * 257 + op.operand);
      if op.kind == PUSH {
        stack := stack + [op.operand];
      } else if op.kind == ADD || op.kind == MUL || op.kind == MIX {
        if |stack| < 2 {
          valid := false;
          break;
        }
        ghost var before := stack;
        var right := stack[|stack| - 1];
        stack := stack[..|stack| - 1];
        var left := stack[|stack| - 1];
        stack := stack[..|stack| - 1];
        assert stack == before[..|before| - 2];
        var result := Apply(op.kind, left, right);
        if result.Overflow? {
          return Overflow;
        }
        stack := stack + [result.value];
      } else if op.kind == HALT {
        break;
      } else {
        valid := false;
        break;
      }
      if |stack| > maximumStack {
        maximumStack := |stack|;
      }
      pc := pc + 1;
    }
    r := Ok(Finish(Machine(stack, steps, maximumStack, digest, valid)));
  }

  /** The digest covers exactly the instructions executed, in order, whatever the program. */
  lemma {:induction false} DigestOfRun(ops: seq<Op>, pc: nat, m: Machine)
    requires pc <= |ops| && Exec(ops, pc, m).Ok?
    ensures var r := Exec(ops, pc, m).value;
      && m.steps <= r.steps <= m.steps + |ops| - pc
      && r.digest == Digest(m.digest, Codes(ops[pc..pc + (r.steps - m.steps)]))
    decreases |ops| - pc
  {
    hide Step;
    hide Mix;
    hide Digest;
    hide Codes;
    var r := Exec(ops, pc, m).value;
    if pc == |ops| {
      NoCodes(ops, pc);
      DigestEmpty(m.digest);
    } else {
      var c, end := Code(ops[pc]), pc + (r.steps - m.steps);
      DigestOfStep(ops[pc], m);
      if Step(ops[pc], m).Next? {
        DigestOfRun(ops, pc + 1, Step(ops[pc], m).m);
      } else {
        NoCodes(ops, pc + 1);
        DigestEmpty(Mix(m.digest, c));
      }
      CodesCons(ops, pc, end);
      DigestEmpty(m.digest);
      DigestSnoc(m.digest, [], c);
      assert [] + [c] == [c];
      DigestConcat(m.digest, [c], Codes(ops[pc + 1..end]));
    }
  }

  lemma DigestOfStep(op: Op, m: Machine)
    requires !Step(op, m).Trap?
    ensures Step(op, m).m.digest == Mix(m.digest, Code(op)) && Step(op, m).m.steps == m.steps + 1
  {
    hide Mix;
    hide Apply;
  }

  lemma NoCodes(ops: seq<Op>, pc: nat)
    requires pc <= |ops|
    ensures Codes(ops[pc..pc]) == []
  {
  }

  lemma CodesCons(ops: seq<Op>, pc: nat, end: nat)
    requires pc < end <= |ops|
    ensures Codes(ops[pc..end]) == [Code(ops[pc])] + Codes(ops[pc + 1..end])
  {
  }

  // ----- the interpreter -----

  function Entry(e: EntitySpec, value: nat): Checked<nat> {
    if e.kind * e.faction >= TWO64 || value + e.kind * e.faction >= TWO64 || e.x + e.y >= TWO64 then Overflow
    else Ok(Mix(value + e.kind * e.faction, e.x + e.y))
  }

  /** Folds the entities into the interpreter's value. */
  function Evaluate(value: Checked<nat>, es: seq<EntitySpec>): Checked<nat>
    decreases es
  {
    match value
    case Overflow => Overflow
    case Ok(v) => if es == [] then value else Evaluate(Entry(es[0], v), es[1..])
  }

  function Meaning(s: Scenario): Checked<nat> {
    match Evaluate(CheckU64(s.width * s.height), s.entities)
    case Overflow => Overflow
    case Ok(v) => Ok(Mix(v, s.ticks))
  }

  method Interpret(s: Scenario) returns (r: Checked<nat>)
    ensures r == Meaning(s)
  {
    hide Mix;
    var value: nat := s.width * s.height;
    if value >= TWO64 {
      return Overflow;
    }
    var i := 0;
    assert s.entities[0..] == s.entities;
    while i < |s.entities|
      invariant i <= |s.entities|
      invariant Evaluate(Ok(value), s.entities[i..]) == Evaluate(CheckU64(s.width * s.height), s.entities)
    {
      var item := s.entities[i];
      assert s.entities[i..][1..] == s.entities[i + 1..];
      var product := item.kind * item.faction;
      if product >= TWO64 || value + product >= TWO64 || item.x + item.y >= TWO64 {
        return Overflow;
      }
      value := value + product;
      value := Mix(value, item.x + item.y);
      i := i + 1;
    }
    r := Ok(Mix(value, s.ticks));
  }

  // ----- lowering preserves meaning -----

  /** Every operand leaves room for the opcode in the machine's 64-bit digest word. */
  predicate EntityFits(e: EntitySpec) {
    e.kind + 257 < TWO64 && e.faction + 257 < TWO64 && e.x + e.y + 257 < TWO64
  }

  predicate OperandsFit(s: Scenario) {
    && s.width + 257 < TWO64 && s.height + 257 < TWO64 && s.ticks + 257 < TWO64
    && forall i :: 0 <= i < |s.entities| ==> EntityFits(s.entities[i])
  }

  lemma {:induction false} EntityOpsAt(es: seq<EntitySpec>, i: nat)
    requires i < |es|
    ensures |AllEntityOps(es)| == 6 * |es|
    ensures AllEntityOps(es)[6 * i..6 * i + 6] == EntityOps(es[i])
  {
    var n := |es| - 1;
    if n > 0 {
      EntityOpsAt(es[..n], if i < n then i else 0);
    }
    if i < n {
      assert AllEntityOps(es)[6 * i..6 * i + 6] == AllEntityOps(es[..n])[6 * i..6 * i + 6];
    }
  }

  lemma OpsAt(s: Scenario, ops: seq<Op>, i: nat)
    requires ops == HeadOps(s) + AllEntityOps(s.entities) + TailOps(s) && i < |s.entities|
    ensures 9 + 6 * i <= |ops| && ops[3 + 6 * i..9 + 6 * i] == EntityOps(s.entities[i])
  {
    EntityOpsAt(s.entities, i);
    assert ops[3..] == AllEntityOps(s.entities) + TailOps(s);
    assert ops[3 + 6 * i..9 + 6 * i] == ops[3..][6 * i..6 * i + 6];
  }

  function On(r: StepResult, op: Op): StepResult {
    if r.Next? then Step(op, r.m) else r
  }

  /** Steps through a block of instructions while they continue. */
  function StepAll(block: seq<Op>, r: StepResult): StepResult {
    if block == [] then r else StepAll(block[1..], On(r, block[0]))
  }

  function Resume(r: StepResult, ops: seq<Op>, pc: nat): Checked<VmResult>
    requires pc <= |ops|
  {
    match r
    case Next(m) => Exec(ops, pc, m)
    case Stop(m) => Ok(Finish(m))
    case Trap => Overflow
  }

  lemma {:induction false} StoppedStays(block: seq<Op>, r: StepResult)
    requires !r.Next?
    ensures StepAll(block, r) == r
  {
    if block != [] {
      StoppedStays(block[1..], r);
    }
  }

  lemma {:induction false} ExecBlock(ops: seq<Op>, pc: nat, n: nat, m: Machine)
    requires pc + n <= |ops|
    ensures Exec(ops, pc, m) == Resume(StepAll(ops[pc..pc + n], Next(m)), ops, pc + n)
    decreases n
  {
    hide Step;
    if n > 0 {
      var block := ops[pc..pc + n];
      assert block[0] == ops[pc] && block[1..] == ops[pc + 1..pc + n];
      if Step(ops[pc], m).Next? {
        ExecBlock(ops, pc + 1, n - 1, Step(ops[pc], m).m);
      } else {
        StoppedStays(block[1..], Step(ops[pc], m));
      }
    }
  }

  lemma {:induction false} StepAllConcat(a: seq<Op>, b: seq<Op>, r: StepResult)
    ensures StepAll(a + b, r) == StepAll(b, StepAll(a, r))
  {
    if a == [] {
      assert a + b == b;
    } else {
      assert (a + b)[1..] == a[1..] + b;
      StepAllConcat(a[1..], b, On(r, a[0]));
    }
  }

  lemma StepAllThree(a: Op, b: Op, c: Op, r: StepResult)
    ensures StepAll([a, b, c], r) == On(On(On(r, a), b), c)
  {
    hide Step;
    assert [a, b, c][1..] == [b, c] && [b, c][1..] == [c] && [c][1..] == [];
    assert StepAll([c], On(On(r, a), b)) == StepAll([], On(On(On(r, a), b), c));
  }

  /** Two pushes and an operation combine their operands without touching the stack below. */
  lemma PushPush(a: nat, b: nat, kind: nat, m: Machine)
    requires kind == ADD || kind == MUL || kind == MIX
    ensures var r := On(On(On(Next(m), Op(PUSH, a)), Op(PUSH, b)), Op(kind, 0));
      if a + 257 < TWO64 && b + 257 < TWO64 && Apply(kind, a, b).Ok? then
        && r.Next? && r.m.stack == m.stack + [Apply(kind, a, b).value] && r.m.steps == m.steps + 3
        && r.m.maximumStack == (if m.maximumStack < |m.stack| + 2 then |m.stack| + 2 else m.maximumStack)
        && r.m.valid == m.valid
      else r == Trap
  {
    hide Mix;
    hide Apply;
  }

  /** An addition, a push and a mix: the second half of one entity. */
  lemma AddPushMix(c: nat, m: Machine)
    requires |m.stack| == 2 && m.maximumStack >= 2
    ensures var r := On(On(On(Next(m), Op(ADD, 0)), Op(PUSH, c)), Op(MIX, 0));
      if m.stack[0] + m.stack[1] < TWO64 && c + 257 < TWO64 then
        && r.Next? && r.m.stack == [Mix(m.stack[0] + m.stack[1], c)] && r.m.steps == m.steps + 3
        && r.m.maximumStack == m.maximumStack && r.m.valid == m.valid
      else r == Trap
  {
    hide Mix;
  }

  /** One entity's instructions take the value on the stack to the interpreter's next value. */
  lemma EntityBlock(e: EntitySpec, m: Machine)
    requires |m.stack| == 1 && m.maximumStack >= 1
    ensures var r := StepAll(EntityOps(e), Next(m));
      if EntityFits(e) && Entry(e, m.stack[0]).Ok? then
        && r.Next? && r.m.stack == [Entry(e, m.stack[0]).value] && r.m.steps == m.steps + 6
        && r.m.maximumStack == (if m.maximumStack < 3 then 3 else m.maximumStack) && r.m.valid == m.valid
      else r == Trap
  {
    hide Step;
    hide Mix;
    var ops := EntityOps(e);
    StepAllConcat(ops[..3], ops[3..], Next(m));
    assert ops == ops[..3] + ops[3..];
    assert ops[..3] == [ops[0], ops[1], ops[2]] && ops[3..] == [ops[3], ops[4], ops[5]];
    StepAllThree(ops[0], ops[1], ops[2], Next(m));
    PushPush(e.kind, e.faction, MUL, m);
    var r := StepAll(ops[..3], Next(m));
    StepAllThree(ops[3], ops[4], ops[5], r);
    if r.Next? {
      AddPushMix(e.x + e.y, r.m);
    }
  }

  /** What a run of the machine should give, if the remaining interpretation gives `value`. */
  ghost predicate Matches(s: Scenario, r: Checked<VmResult>, fits: bool, value: Checked<nat>) {
    if fits && value.Ok? then
      && r.Ok? && r.value.value == Mix(value.value, s.ticks)
      && r.value.steps == 6 * |s.entities| + 6
      && r.value.maximumStack == (if |s.entities| == 0 then 2 else 3)
      && r.value.valid == s.valid
    else r == Overflow
  }

  ghost predicate Lowered(s: Scenario, ops: seq<Op>) {
    ops == HeadOps(s) + AllEntityOps(s.entities) + TailOps(s)
  }

  lemma FinalBlock(s: Scenario, ops: seq<Op>, m: Machine)
    requires Lowered(s, ops) && |m.stack| == 1 && m.valid == s.valid
    requires m.steps == 3 + 6 * |s.entities| && m.maximumStack == (if |s.entities| == 0 then 2 else 3)
    ensures |ops| == 6 * |s.entities| + 6
    ensures Matches(s, Exec(ops, 3 + 6 * |s.entities|, m), s.ticks + 257 < TWO64, Ok(m.stack[0]))
  {
    hide Lowered;
    hide Exec;
    hide Mix;
    hide Step;
    var pc := 3 + 6 * |s.entities|;
    TailAt(s, ops);
    assert ops[pc..pc + 3] == [ops[pc], ops[pc + 1], ops[pc + 2]];
    ExecBlock(ops, pc, 3, m);
    StepAllThree(ops[pc], ops[pc + 1], ops[pc + 2], Next(m));
    PushMixHalt(s.ticks, m);
  }

  lemma PushMixHalt(c: nat, m: Machine)
    requires |m.stack| == 1 && m.maximumStack >= 2
    ensures var r := On(On(On(Next(m), Op(PUSH, c)), Op(MIX, 0)), Op(HALT, 0));
      if c + 257 < TWO64 then
        r.Stop? && r.m.stack == [Mix(m.stack[0], c)] && r.m.steps == m.steps + 3
        && r.m.maximumStack == m.maximumStack && r.m.valid == m.valid
      else r == Trap
  {
    hide Mix;
  }

  lemma TailAt(s: Scenario, ops: seq<Op>)
    requires Lowered(s, ops)
    ensures var pc := 3 + 6 * |s.entities|;
      |ops| == pc + 3 && ops[pc] == Op(PUSH, s.ticks) && ops[pc + 1] == Op(MIX, 0) && ops[pc + 2] == Op(HALT, 0)
  {
    if s.entities != [] {
      EntityOpsAt(s.entities, 0);
    }
  }

  predicate FitsFrom(s: Scenario, i: nat) {
    s.ticks + 257 < TWO64 && forall k :: i <= k < |s.entities| ==> EntityFits(s.entities[k])
  }

  lemma {:induction false} EntitiesRun(s: Scenario, ops: seq<Op>, i: nat, m: Machine)
    requires Lowered(s, ops) && i <= |s.entities| && |m.stack| == 1 && m.valid == s.valid
    requires m.steps == 3 + 6 * i && m.maximumStack == (if i == 0 then 2 else 3)
    requires 3 + 6 * i <= |ops|
    ensures Matches(s, Exec(ops, 3 + 6 * i, m), FitsFrom(s, i), Evaluate(Ok(m.stack[0]), s.entities[i..]))
    decreases |s.entities| - i
  {
    hide Exec;
    hide Matches;
    hide EntityFits;
    hide Entry;
    hide StepAll;
    if i == |s.entities| {
      FinalBlock(s, ops, m);
    } else {
      var e, pc := s.entities[i], 3 + 6 * i;
      OpsAt(s, ops, i);
      hide Lowered;
      ExecBlock(ops, pc, 6, m);
      EntityBlock(e, m);
      assert s.entities[i..][1..] == s.entities[i + 1..];
      var r := StepAll(EntityOps(e), Next(m));
      if r.Next? {
        EntitiesRun(s, ops, i + 1, r.m);
        assert FitsFrom(s, i) <==> FitsFrom(s, i + 1);
      } else {
        assert FitsFrom(s, i) ==> EntityFits(s.entities[i]);
        assert Evaluate(Ok(m.stack[0]), s.entities[i..]) == Evaluate(Entry(e, m.stack[0]), s.entities[i + 1..]);
        OverflowMatches(s, FitsFrom(s, i), Evaluate(Ok(m.stack[0]), s.entities[i..]));
      }
    }
  }

  lemma OverflowMatches(s: Scenario, fits: bool, value: Checked<nat>)
    requires !fits || value == Overflow
    ensures Matches(s, Overflow, fits, value)
  {
  }

  lemma HeadAt(s: Scenario, ops: seq<Op>)
    requires ops == HeadOps(s) + AllEntityOps(s.entities) + TailOps(s)
    ensures Lowered(s, ops) && |ops| == 6 + 6 * |s.entities| && ops[0..|ops|] == ops
    ensures ops[0..3] == [ops[0], ops[1], ops[2]]
    ensures ops[0] == Op(PUSH, s.width) && ops[1] == Op(PUSH, s.height) && ops[2] == Op(MUL, 0)
    ensures s.entities[0..] == s.entities
  {
    TailAt(s, ops);
  }

  /** Compiler correctness.  The machine runs the lowered program to the interpreter's value, in
      exactly 6n + 6 steps and never deeper than 3, exactly when the interpreter does not trap
      and every operand leaves room for the digest word; otherwise it traps. */
  lemma LoweringIsCorrect(s: Scenario)
    ensures var r := Exec(HeadOps(s) + AllEntityOps(s.entities) + TailOps(s), 0, Boot(s.valid));
      if Meaning(s).Ok? && OperandsFit(s) then
        && r.Ok? && r.value.value == Meaning(s).value
        && r.value.steps == 6 * |s.entities| + 6
        && r.value.maximumStack == (if |s.entities| == 0 then 2 else 3)
        && r.value.valid == s.valid
        && r.value.digest == Digest(OFFSET_BASIS, Codes(HeadOps(s) + AllEntityOps(s.entities) + TailOps(s)))
      else r == Overflow
  {
    hide Exec;
    hide Lowered;
    hide Mix;
    hide Digest;
    hide Codes;
    hide AllEntityOps;
    hide HeadOps;
    hide TailOps;
    hide Step;
    hide EntityFits;
    var ops := HeadOps(s) + AllEntityOps(s.entities) + TailOps(s);
    HeadAt(s, ops);
    var m := Boot(s.valid);
    if Exec(ops, 0, m).Ok? {
      DigestOfRun(ops, 0, m);
    }
    ExecBlock(ops, 0, 3, m);
    StepAllThree(ops[0], ops[1], ops[2], Next(m));
    PushPush(s.width, s.height, MUL, m);
    var r := StepAll(ops[0..3], Next(m));
    if r.Next? {
      EntitiesRun(s, ops, 0, r.m);
      assert OperandsFit(s) <==> FitsFrom(s, 0);
    }
  }

  /** An operand the interpreter accepts and the machine does not: the digest word of a push of
      the largest 64-bit number does not fit. */
  lemma DigestWordCanOverflow()
    ensures var s := DEFAULT.(ticks := MAX64, entities := [EntitySpec(1, 1, 0, 0)]);
      Meaning(s).Ok? && !OperandsFit(s)
  {
    hide Mix;
    var s := DEFAULT.(ticks := MAX64, entities := [EntitySpec(1, 1, 0, 0)]);
    assert s.entities[1..] == [];
    assert Entry(s.entities[0], 64).Ok?;
  }

  datatype Agreement = Agreement(vmValue: nat, interpreterValue: nat, vmSteps: nat, valid: bool)

  /** The oracle, on the program lowered from the same scenario: valid exactly when the scenario is. */
  method Verify(s: Scenario, program: Program) returns (r: Checked<Agreement>)
    requires program == Program(HeadOps(s) + AllEntityOps(s.entities) + TailOps(s), |s.entities|, s.valid)
    ensures r.Ok? <==> Meaning(s).Ok? && OperandsFit(s)
    ensures r.Ok? ==>
      && r.value.vmValue == r.value.interpreterValue == Meaning(s).value
      && r.value.vmSteps == 6 * |s.entities| + 6
      && (r.value.valid <==> s.valid)
  {
    hide Exec;
    hide OperandsFit;
    LoweringIsCorrect(s);
    var actual := Execute(program);
    var expected := Interpret(s);
    if actual.Overflow? || expected.Overflow? {
      return Overflow;
    }
    r := Ok(Agreement(actual.value.value, expected.value, actual.value.steps,
                      actual.value.valid && s.valid && actual.value.value == expected.value
                      && program.entities == |s.entities|));
  }
}
