/** The register machine: 32 signed 32-bit registers, a byte-offset program
    counter, an append-only program buffer, a remainder register and an
    equality flag, driven by a fetch-decode-execute step.

    `Step` is the meaning of one step as a function of the machine state;
    the class `VM` executes the step in place, reading and advancing `pc`
    one operand at a time, and is proved to do exactly what `Step` says.
    Where the original aborts the process (a read past the end of the
    program, a register index above 31, checked-arithmetic overflow,
    division by zero, a program counter leaving the `usize` range) a step
    here ends in `Faulted` and leaves the state as it was. */
module Vm {
  import opened Common
  import opened Instructions

  const REGISTER_COUNT: nat := 32

  /** `isize::MAX`: no `Vec<u8>` holds more bytes than this. */
  const MAX_PROGRAM_LEN: nat := 0x7fff_ffff_ffff_ffff

  datatype Fault =
    | ProgramOverrun            // an operand byte lies past the end of the program
    | BadRegister(index: byte)  // a register operand outside 0..31
    | ArithmeticOverflow(op: Opcode)
    | DivisionByZero
    | PcOverflow                // JMPF beyond the `usize` range
    | PcUnderflow               // JMPB below offset 0

  /** `Running` is the original's "not done"; `Halted` its "done". */
  datatype Outcome = Running | Halted | Faulted(fault: Fault) {
    predicate Done() {
      !Running?
    }
  }

  datatype State = State(
    registers: seq<int>,
    pc: nat,
    program: seq<byte>,
    remainder: nat,
    equalFlag: bool)

  /** The ranges of the original's field types: `[i32; 32]`, `usize`, `u32`. */
  predicate WellFormed(s: State) {
    && |s.registers| == REGISTER_COUNT
    && (forall i | 0 <= i < |s.registers| :: IsI32(s.registers[i]))
    && s.pc < USIZE_MODULUS
    && |s.program| <= MAX_PROGRAM_LEN
    && s.remainder < U32_MODULUS
  }

  /** `VM::default()`. */
  const Initial: State := State(seq(REGISTER_COUNT, i => 0), 0, [], 0, false)

  datatype StepResult = StepResult(outcome: Outcome, next: State)

  predicate IsArithmetic(op: Opcode) {
    op == ADD || op == SUB || op == MUL || op == DIV
  }

  predicate IsComparison(op: Opcode) {
    op == EQ || op == NEQ || op == GTE || op == LTE || op == LT || op == GT
  }

  predicate IsJump(op: Opcode) {
    op == JMP || op == JMPF || op == JMPB || op == JMPE
  }

  predicate IsHalt(op: Opcode) {
    op == HLT || op == IGL
  }

  /** The opcode under the program counter. */
  function CurrentOpcode(s: State): Opcode
    requires s.pc < |s.program|
  {
    FromByte(s.program[s.pc])
  }

  function Fail(s: State, f: Fault): StepResult {
    StepResult(Faulted(f), s)
  }

  /** A faulting step leaves the state alone; any step keeps the field ranges
      and the program. */
  predicate Preserves(s: State, r: StepResult) {
    && WellFormed(r.next)
    && r.next.program == s.program
    && (r.outcome.Faulted? ==> r.next == s)
  }

  /** The value of the register named by the operand byte at offset `at`
      (`self.registers[self.next_8_bits() as usize]`). */
  function RegisterOperand(s: State, at: nat): (r: Result<int, Fault>)
    requires WellFormed(s)
    // a missing byte is an out-of-bounds read, a byte of 32 or more an
    // out-of-bounds register index; otherwise that register is read
    ensures at >= |s.program| <==> r == Err(ProgramOverrun)
    ensures at < |s.program| ==> (r.Ok? <==> s.program[at] < REGISTER_COUNT)
    ensures at < |s.program| && r.Err? ==> r == Err(BadRegister(s.program[at]))
    ensures r.Ok? ==>
      at < |s.program| && s.program[at] < REGISTER_COUNT &&
      r.value == s.registers[s.program[at]] && IsI32(r.value)
  {
    if at >= |s.program| then Err(ProgramOverrun)
    else if s.program[at] >= REGISTER_COUNT then Err(BadRegister(s.program[at]))
    else Ok(s.registers[s.program[at]])
  }

  /** Checked `i32` arithmetic, as a debug build performs it. */
  function Checked(op: Opcode, x: int): (r: Result<int, Fault>)
    ensures r.Ok? <==> IsI32(x)
    ensures r.Ok? ==> r.value == x
  {
    if IsI32(x) then Ok(x) else Err(ArithmeticOverflow(op))
  }

  function ArithmeticValue(op: Opcode, a: int, b: int): (r: Result<int, Fault>)
    requires IsArithmetic(op)
    ensures r.Ok? ==> IsI32(r.value)
    ensures op == DIV && r.Ok? ==> b != 0
    ensures op == DIV && b == 0 ==> r == Err(DivisionByZero)
  {
    if op == ADD then Checked(op, a + b)
    else if op == SUB then Checked(op, a - b)
    else if op == MUL then Checked(op, a * b)
    else if b == 0 then Err(DivisionByZero)
    else Checked(op, TruncDiv(a, b))
  }

  /** The relation each comparison opcode writes into `equal_flag`. */
  function Relation(op: Opcode, a: int, b: int): bool
    requires IsComparison(op)
  {
    if op == EQ then a == b
    else if op == NEQ then a != b
    else if op == GTE then a >= b
    else if op == LTE then a <= b
    else if op == LT then a < b
    else a > b
  }

  /** LOAD: register byte, then a big-endian 16-bit immediate. */
  function ExecLoad(s: State): (r: StepResult)
    requires WellFormed(s) && s.pc < |s.program|
    ensures Preserves(s, r)
    ensures r.outcome == Running || r.outcome.Faulted?
    ensures r.outcome == Running ==>
      r.next.pc == s.pc + 4 && r.next.equalFlag == s.equalFlag && r.next.remainder == s.remainder
  {
    var p := s.pc;
    if p + 1 >= |s.program| then Fail(s, ProgramOverrun)
    else
      var reg := s.program[p + 1];
      if p + 3 >= |s.program| then Fail(s, ProgramOverrun)
      else
        var number := (s.program[p + 2] as int) * 256 + s.program[p + 3];
        if reg >= REGISTER_COUNT then Fail(s, BadRegister(reg))
        else StepResult(Running, s.(registers := s.registers[reg := number], pc := p + 4))
  }

  /** ADD, SUB, MUL, DIV: two source registers, then the destination register. */
  function ExecArithmetic(s: State, op: Opcode): (r: StepResult)
    requires WellFormed(s) && s.pc < |s.program| && IsArithmetic(op)
    ensures Preserves(s, r)
    ensures r.outcome == Running || r.outcome.Faulted?
    ensures r.outcome == Running ==> r.next.pc == s.pc + 4 && r.next.equalFlag == s.equalFlag
    ensures op != DIV ==> r.next.remainder == s.remainder
  {
    match RegisterOperand(s, s.pc + 1)
    case Err(f) => Fail(s, f)
    case Ok(a) =>
      match RegisterOperand(s, s.pc + 2)
      case Err(f) => Fail(s, f)
      case Ok(b) => ArithmeticWrite(s, op, a, b)
  }

  /** The rest of an arithmetic step once both source registers are read:
      the value is computed before the destination byte is read. */
  function ArithmeticWrite(s: State, op: Opcode, a: int, b: int): (r: StepResult)
    requires WellFormed(s) && s.pc < |s.program| && IsArithmetic(op)
    ensures Preserves(s, r)
    ensures r.outcome == Running || r.outcome.Faulted?
    ensures r.outcome == Running ==> r.next.pc == s.pc + 4 && r.next.equalFlag == s.equalFlag
    ensures op != DIV ==> r.next.remainder == s.remainder
  {
    var p := s.pc;
    match ArithmeticValue(op, a, b)
    case Err(f) => Fail(s, f)
    case Ok(v) =>
      if p + 3 >= |s.program| then Fail(s, ProgramOverrun)
      else if s.program[p + 3] >= REGISTER_COUNT then Fail(s, BadRegister(s.program[p + 3]))
      else
        StepResult(Running, s.(
          registers := s.registers[s.program[p + 3] := v],
          pc := p + 4,
          remainder := if op == DIV then AsU32(TruncRem(a, b)) else s.remainder))
  }

  /** EQ, NEQ, GTE, LTE, LT, GT: two registers and one padding byte. */
  function ExecComparison(s: State, op: Opcode): (r: StepResult)
    requires WellFormed(s) && s.pc < |s.program| && IsComparison(op)
    ensures Preserves(s, r)
    ensures r.outcome == Running || r.outcome.Faulted?
    ensures r.next.registers == s.registers && r.next.remainder == s.remainder
    ensures r.outcome == Running ==> r.next.pc == s.pc + 4
  {
    var p := s.pc;
    match RegisterOperand(s, p + 1)
    case Err(f) => Fail(s, f)
    case Ok(a) =>
      match RegisterOperand(s, p + 2)
      case Err(f) => Fail(s, f)
      case Ok(b) => ComparisonWrite(s, op, a, b)
  }

  /** The rest of a comparison once both registers are read: the padding
      byte must be there. */
  function ComparisonWrite(s: State, op: Opcode, a: int, b: int): (r: StepResult)
    requires WellFormed(s) && s.pc < |s.program| && IsComparison(op)
    ensures Preserves(s, r)
    ensures r.outcome == Running || r.outcome.Faulted?
    ensures r.next.registers == s.registers && r.next.remainder == s.remainder
    ensures r.outcome == Running <==> s.pc + 3 < |s.program|
    ensures r.outcome.Faulted? ==> r.outcome == Faulted(ProgramOverrun)
    ensures r.outcome == Running ==> r.next.pc == s.pc + 4 && r.next.equalFlag == Relation(op, a, b)
  {
    if s.pc + 3 >= |s.program| then Fail(s, ProgramOverrun)
    else StepResult(Running, s.(equalFlag := Relation(op, a, b), pc := s.pc + 4))
  }

  /** JMP, JMPF, JMPB, JMPE: one register. The relative jumps count from the
      offset just after the register byte. */
  function ExecJump(s: State, op: Opcode): (r: StepResult)
    requires WellFormed(s) && s.pc < |s.program| && IsJump(op)
    ensures Preserves(s, r)
    ensures r.outcome == Running || r.outcome.Faulted?
    ensures r.next.registers == s.registers && r.next.remainder == s.remainder
    ensures r.next.equalFlag == s.equalFlag
  {
    var after := s.pc + 2;
    match RegisterOperand(s, s.pc + 1)
    case Err(f) => Fail(s, f)
    case Ok(v) =>
      if op == JMP then StepResult(Running, s.(pc := AsUsize(v)))
      else if op == JMPF then
        if after + AsUsize(v) >= USIZE_MODULUS then Fail(s, PcOverflow)
        else StepResult(Running, s.(pc := after + AsUsize(v)))
      else if op == JMPB then
        if after < AsUsize(v) then Fail(s, PcUnderflow)
        else StepResult(Running, s.(pc := after - AsUsize(v)))
      else StepResult(Running, s.(pc := if s.equalFlag then AsUsize(v) else after))
  }

  /** One fetch-decode-execute cycle (`execute_instruction`). */
  function Step(s: State): (r: StepResult)
    requires WellFormed(s)
    ensures Preserves(s, r)
    // at the end of the program a step is done and changes nothing
    ensures s.pc >= |s.program| ==> r == StepResult(Halted, s)
    ensures s.pc < |s.program| ==>
      (r.outcome == Halted <==> IsHalt(CurrentOpcode(s)))
    ensures r.outcome == Halted ==>
      r.next.registers == s.registers && r.next.remainder == s.remainder &&
      r.next.equalFlag == s.equalFlag && (r.next.pc == s.pc || r.next.pc == s.pc + 1)
    // only comparisons write the flag, only DIV the remainder
    ensures r.next.equalFlag != s.equalFlag ==>
      s.pc < |s.program| && IsComparison(CurrentOpcode(s))
    ensures r.next.remainder != s.remainder ==>
      s.pc < |s.program| && CurrentOpcode(s) == DIV
    ensures r.next.registers != s.registers ==>
      s.pc < |s.program| && (CurrentOpcode(s) == LOAD || IsArithmetic(CurrentOpcode(s)))
    // every instruction other than a jump is four bytes wide
    ensures r.outcome == Running && !IsJump(CurrentOpcode(s)) ==> r.next.pc == s.pc + 4
  {
    if s.pc >= |s.program| then StepResult(Halted, s)
    else
      var op := CurrentOpcode(s);
      if op == LOAD then ExecLoad(s)
      else if IsArithmetic(op) then ExecArithmetic(s, op)
      else if IsComparison(op) then ExecComparison(s, op)
      else if IsJump(op) then ExecJump(s, op)
      else StepResult(Halted, s.(pc := s.pc + 1))  // HLT, IGL
  }

  /** `run`, with a bound on the number of steps: repeat `Step` until one is
      done. The outcome is `Running` only when the budget ran out. */
  function RunSpec(s: State, fuel: nat): (r: StepResult)
    requires WellFormed(s)
    ensures WellFormed(r.next) && r.next.program == s.program
    decreases fuel, 0
  {
    if fuel == 0 then StepResult(Running, s) else RunFrom(Step(s), s.program, fuel - 1)
  }

  /** The rest of a run after a step with result `r`: done if the step was
      done, otherwise `fuel` more steps from the new state. */
  function RunFrom(r: StepResult, program: seq<byte>, fuel: nat): (q: StepResult)
    requires WellFormed(r.next) && r.next.program == program
    ensures WellFormed(q.next) && q.next.program == program
    ensures r.outcome != Running ==> q == r
    decreases fuel, 1
  {
    if r.outcome == Running then RunSpec(r.next, fuel) else r
  }

  class VM {
    var registers: array<int>
    var pc: nat
    var program: seq<byte>
    var remainder: nat
    var equalFlag: bool

    ghost function Snapshot(): State
      reads this, registers
    {
      State(registers[..], pc, program, remainder, equalFlag)
    }

    ghost predicate Valid()
      reads this, registers
    {
      registers.Length == REGISTER_COUNT && WellFormed(Snapshot())
    }

    /** `VM::default()`: zeroed registers, `pc` 0, an empty program. */
    constructor ()
      ensures Valid() && fresh(registers)
      ensures Snapshot() == Initial
    {
      registers := new int[REGISTER_COUNT](_ => 0);
      pc := 0;
      program := [];
      remainder := 0;
      equalFlag := false;
      new;
      assert registers[..] == Initial.registers;
    }

    /** Appends one byte to the program; nothing else changes. A `Vec`
        cannot grow past `isize::MAX` bytes. */
    method AddByte(b: byte)
      requires Valid() && |program| < MAX_PROGRAM_LEN
      modifies this`program
      ensures Valid()
      ensures program == old(program) + [b]
      ensures Snapshot() == old(Snapshot()).(program := old(program) + [b])
    {
      program := program + [b];
    }

    method DecodeOpcode() returns (op: Opcode)
      requires pc < |program|
      modifies this`pc
      ensures pc == old(pc) + 1
      ensures op == FromByte(program[old(pc)])
    {
      op := FromByte(program[pc]);
      pc := pc + 1;
    }

    /** Reads the byte under `pc` and moves past it; `None` (and `pc`
        untouched) where the original would index past the end. */
    method Next8Bits() returns (b: Option<byte>)
      modifies this`pc
      ensures old(pc) < |program| ==> b == Some(program[old(pc)]) && pc == old(pc) + 1
      ensures old(pc) >= |program| ==> b == None && pc == old(pc)
    {
      if pc < |program| {
        b := Some(program[pc]);
        pc := pc + 1;
      } else {
        b := None;
      }
    }

    /** Reads a big-endian 16-bit value (`(hi << 8) | lo`) and moves past it. */
    method Next16Bits() returns (n: Option<nat>)
      modifies this`pc
      ensures old(pc) + 1 < |program| ==>
        n == Some((program[old(pc)] as int) * 256 + program[old(pc) + 1]) && pc == old(pc) + 2
      ensures old(pc) + 1 >= |program| ==> n == None && pc == old(pc)
    {
      if pc + 1 < |program| {
        n := Some((program[pc] as int) * 256 + program[pc + 1]);
        pc := pc + 2;
      } else {
        n := None;
      }
    }

    /** `self.registers[self.next_8_bits() as usize]`. */
    method NextRegister() returns (v: Result<int, Fault>)
      requires Valid()
      modifies this`pc
      ensures v == RegisterOperand(old(Snapshot()), old(pc))
      ensures v.Ok? ==> pc == old(pc) + 1
    {
      var index := Next8Bits();
      if index.None? {
        v := Err(ProgramOverrun);
      } else if index.value >= REGISTER_COUNT {
        v := Err(BadRegister(index.value));
      } else {
        v := Ok(registers[index.value]);
      }
    }

    method ExecuteLoad(start: nat) returns (outcome: Outcome)
      requires Valid() && start < |program| && pc == start + 1
      modifies this`pc, registers
      ensures Valid()
      ensures StepResult(outcome, Snapshot()) == ExecLoad(old(Snapshot()).(pc := start))
    {
      var reg := Next8Bits();
      if reg.None? {
        pc := start;
        return Faulted(ProgramOverrun);
      }
      var number := Next16Bits();
      if number.None? {
        pc := start;
        return Faulted(ProgramOverrun);
      }
      if reg.value >= REGISTER_COUNT {
        pc := start;
        return Faulted(BadRegister(reg.value));
      }
      registers[reg.value] := number.value;
      outcome := Running;
    }

    method ExecuteArithmetic(op: Opcode, start: nat) returns (outcome: Outcome)
      requires Valid() && start < |program| && pc == start + 1 && IsArithmetic(op)
      modifies this`pc, this`remainder, registers
      ensures Valid()
      ensures StepResult(outcome, Snapshot()) == ExecArithmetic(old(Snapshot()).(pc := start), op)
    {
      ghost var s := Snapshot().(pc := start);
      var a := NextRegister();
      assert a == RegisterOperand(s, start + 1);
      if a.Err? {
        pc := start;
        return Faulted(a.error);
      }
      var b := NextRegister();
      assert b == RegisterOperand(s, start + 2);
      if b.Err? {
        pc := start;
        return Faulted(b.error);
      }
      outcome := WriteArithmetic(op, a.value, b.value, start);
    }

    method WriteArithmetic(op: Opcode, a: int, b: int, start: nat) returns (outcome: Outcome)
      requires Valid() && start < |program| && pc == start + 3 && IsArithmetic(op)
      modifies this`pc, this`remainder, registers
      ensures Valid()
      ensures StepResult(outcome, Snapshot()) == ArithmeticWrite(old(Snapshot()).(pc := start), op, a, b)
    {
      ghost var s := Snapshot().(pc := start);
      var v := ArithmeticValue(op, a, b);
      if v.Err? {
        pc := start;
        return Faulted(v.error);
      }
      var dest := Next8Bits();
      if dest.None? {
        pc := start;
        return Faulted(ProgramOverrun);
      }
      if dest.value >= REGISTER_COUNT {
        pc := start;
        return Faulted(BadRegister(dest.value));
      }
      registers[dest.value] := v.value;
      assert registers[..] == s.registers[dest.value := v.value];
      if op == DIV {
        remainder := AsU32(TruncRem(a, b));
      }
      outcome := Running;
    }

    method ExecuteComparison(op: Opcode, start: nat) returns (outcome: Outcome)
      requires Valid() && start < |program| && pc == start + 1 && IsComparison(op)
      modifies this`pc, this`equalFlag
      ensures Valid()
      ensures StepResult(outcome, Snapshot()) == ExecComparison(old(Snapshot()).(pc := start), op)
    {
      var a := NextRegister();
      if a.Err? {
        pc := start;
        return Faulted(a.error);
      }
      var b := NextRegister();
      if b.Err? {
        pc := start;
        return Faulted(b.error);
      }
      outcome := WriteComparison(op, a.value, b.value, start);
    }

    method WriteComparison(op: Opcode, a: int, b: int, start: nat) returns (outcome: Outcome)
      requires Valid() && start < |program| && pc == start + 3 && IsComparison(op)
      modifies this`pc, this`equalFlag
      ensures Valid()
      ensures StepResult(outcome, Snapshot()) == ComparisonWrite(old(Snapshot()).(pc := start), op, a, b)
    {
      var flag := Relation(op, a, b);
      var padding := Next8Bits();
      if padding.None? {
        pc := start;
        return Faulted(ProgramOverrun);
      }
      equalFlag := flag;
      outcome := Running;
    }

    method ExecuteJump(op: Opcode, start: nat) returns (outcome: Outcome)
      requires Valid() && start < |program| && pc == start + 1 && IsJump(op)
      modifies this`pc
      ensures Valid()
      ensures StepResult(outcome, Snapshot()) == ExecJump(old(Snapshot()).(pc := start), op)
    {
      var v := NextRegister();
      if v.Err? {
        pc := start;
        return Faulted(v.error);
      }
      var target := AsUsize(v.value);
      outcome := Running;
      match op {
        case JMP =>
          pc := target;
        case JMPF =>
          if pc + target >= USIZE_MODULUS {
            pc := start;
            outcome := Faulted(PcOverflow);
          } else {
            pc := pc + target;
          }
        case JMPB =>
          if pc < target {
            pc := start;
            outcome := Faulted(PcUnderflow);
          } else {
            pc := pc - target;
          }
        case JMPE =>
          if equalFlag {
            pc := target;
          }
      }
    }

    /** `execute_instruction`: one fetch-decode-execute cycle. */
    method ExecuteInstruction() returns (outcome: Outcome)
      requires Valid()
      modifies this, registers
      ensures Valid() && registers == old(registers)
      ensures StepResult(outcome, Snapshot()) == Step(old(Snapshot()))
    {
      if pc >= |program| {
        return Halted;
      }
      var start := pc;
      var op := DecodeOpcode();
      match op {
        case LOAD =>
          outcome := ExecuteLoad(start);
        case ADD =>
          outcome := ExecuteArithmetic(op, start);
        case SUB =>
          outcome := ExecuteArithmetic(op, start);
        case MUL =>
          outcome := ExecuteArithmetic(op, start);
        case DIV =>
          outcome := ExecuteArithmetic(op, start);
        case HLT =>
          outcome := Halted;
        case JMP =>
          outcome := ExecuteJump(op, start);
        case JMPF =>
          outcome := ExecuteJump(op, start);
        case JMPB =>
          outcome := ExecuteJump(op, start);
        case EQ =>
          outcome := ExecuteComparison(op, start);
        case NEQ =>
          outcome := ExecuteComparison(op, start);
        case GTE =>
          outcome := ExecuteComparison(op, start);
        case LTE =>
          outcome := ExecuteComparison(op, start);
        case LT =>
          outcome := ExecuteComparison(op, start);
        case GT =>
          outcome := ExecuteComparison(op, start);
        case JMPE =>
          outcome := ExecuteJump(op, start);
        case IGL =>
          outcome := Halted;
      }
    }

    /** `run_once`: a single step, whose outcome the caller may inspect. */
    method RunOnce() returns (outcome: Outcome)
      requires Valid()
      modifies this, registers
      ensures Valid() && registers == old(registers)
      ensures StepResult(outcome, Snapshot()) == Step(old(Snapshot()))
    {
      outcome := ExecuteInstruction();
    }

    /** `run`: steps until one is done, or until `fuel` steps have run. */
    method Run(fuel: nat) returns (outcome: Outcome)
      requires Valid()
      modifies this, registers
      ensures Valid() && registers == old(registers)
      ensures StepResult(outcome, Snapshot()) == RunSpec(old(Snapshot()), fuel)
    {
      var remaining := fuel;
      outcome := Running;
      while !outcome.Done() && remaining > 0
        invariant Valid() && registers == old(registers)
        invariant !outcome.Done() ==> RunSpec(old(Snapshot()), fuel) == RunSpec(Snapshot(), remaining)
        invariant outcome.Done() ==> RunSpec(old(Snapshot()), fuel) == StepResult(outcome, Snapshot())
        decreases remaining
      {
        outcome := ExecuteInstruction();
        remaining := remaining - 1;
      }
    }
  }
}
