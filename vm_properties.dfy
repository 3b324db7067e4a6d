/** What one step of the register machine does, opcode by opcode, the
    examples the original's unit tests check, and properties of runs. */
module VmProperties {
  import opened Common
  import opened Instructions
  import opened Vm

  /** The untruncated mathematical result of an arithmetic opcode. */
  function Math(op: Opcode, a: int, b: int): int
    requires IsArithmetic(op) && (op == DIV ==> b != 0)
  {
    if op == ADD then a + b
    else if op == SUB then a - b
    else if op == MUL then a * b
    else TruncDiv(a, b)
  }

  /** Registers other than `d` keep their values. */
  predicate OthersUnchanged(before: seq<int>, after: seq<int>, d: nat) {
    |before| == |after| &&
    forall i | 0 <= i < |before| && i != d :: after[i] == before[i]
  }

  /** Idempotence at the end of the program: a step is done, changes nothing,
      and so does every step after it. */
  lemma StepAtEndIsNoOp(s: State)
    requires WellFormed(s) && s.pc >= |s.program|
    ensures Step(s) == StepResult(Halted, s)
    ensures Step(Step(s).next) == Step(s)
  {
  }

  /** LOAD writes the zero-extended big-endian immediate `(hi << 8) | lo`
      into the named register, moves `pc` by 4, and touches nothing else. */
  lemma LoadEffect(s: State)
    requires WellFormed(s) && s.pc + 3 < |s.program| && CurrentOpcode(s) == LOAD
    requires s.program[s.pc + 1] < REGISTER_COUNT
    ensures var r, d := Step(s), s.program[s.pc + 1];
      && r.outcome == Running
      && r.next.registers[d] == (s.program[s.pc + 2] as int) * 256 + s.program[s.pc + 3]
      && 0 <= r.next.registers[d] < U16_MODULUS
      && OthersUnchanged(s.registers, r.next.registers, d)
      && r.next.pc == s.pc + 4
      && r.next.equalFlag == s.equalFlag && r.next.remainder == s.remainder
  {
  }

  /** LOAD faults exactly when its four bytes are not all there or the
      register byte is out of range. */
  lemma LoadFaults(s: State)
    requires WellFormed(s) && s.pc < |s.program| && CurrentOpcode(s) == LOAD
    ensures s.pc + 3 >= |s.program| ==> Step(s) == StepResult(Faulted(ProgramOverrun), s)
    ensures s.pc + 3 < |s.program| && s.program[s.pc + 1] >= REGISTER_COUNT ==>
      Step(s) == StepResult(Faulted(BadRegister(s.program[s.pc + 1])), s)
  {
  }

  /** ADD, SUB, MUL, DIV write `r1 op r2` into the register named by the
      third byte when the result fits an `i32`; DIV also sets the remainder
      to `(r1 % r2) as u32`. Nothing else changes and `pc` moves by 4. */
  lemma ArithmeticEffect(s: State, op: Opcode)
    requires WellFormed(s) && s.pc + 3 < |s.program| && CurrentOpcode(s) == op && IsArithmetic(op)
    requires s.program[s.pc + 1] < REGISTER_COUNT && s.program[s.pc + 2] < REGISTER_COUNT
    requires s.program[s.pc + 3] < REGISTER_COUNT
    requires var b := s.registers[s.program[s.pc + 2]]; op == DIV ==> b != 0
    requires IsI32(Math(op, s.registers[s.program[s.pc + 1]], s.registers[s.program[s.pc + 2]]))
    ensures var r, a, b, d := Step(s), s.registers[s.program[s.pc + 1]],
                             s.registers[s.program[s.pc + 2]], s.program[s.pc + 3];
      && r.outcome == Running
      && r.next.registers[d] == Math(op, a, b)
      && OthersUnchanged(s.registers, r.next.registers, d)
      && r.next.pc == s.pc + 4
      && r.next.equalFlag == s.equalFlag
      && r.next.remainder == (if op == DIV then AsU32(TruncRem(a, b)) else s.remainder)
  {
    var a, b := s.registers[s.program[s.pc + 1]], s.registers[s.program[s.pc + 2]];
    assert Step(s) == ExecArithmetic(s, op);
    assert RegisterOperand(s, s.pc + 1) == Ok(a) && RegisterOperand(s, s.pc + 2) == Ok(b);
    assert ExecArithmetic(s, op) == ArithmeticWrite(s, op, a, b);
    ArithmeticWriteEffect(s, op, a, b);
  }

  /** The write step of an arithmetic opcode whose value fits. */
  lemma ArithmeticWriteEffect(s: State, op: Opcode, a: int, b: int)
    requires WellFormed(s) && s.pc + 3 < |s.program| && IsArithmetic(op)
    requires s.program[s.pc + 3] < REGISTER_COUNT
    requires (op == DIV ==> b != 0) && IsI32(Math(op, a, b))
    ensures ArithmeticWrite(s, op, a, b) == StepResult(Running, s.(
      registers := s.registers[s.program[s.pc + 3] := Math(op, a, b)],
      pc := s.pc + 4,
      remainder := if op == DIV then AsU32(TruncRem(a, b)) else s.remainder))
  {
    assert ArithmeticValue(op, a, b) == Ok(Math(op, a, b));
  }

  /** The arithmetic faults, checked in the original's order: the value
      before the destination register. */
  lemma ArithmeticFaults(s: State, op: Opcode)
    requires WellFormed(s) && s.pc + 2 < |s.program| && CurrentOpcode(s) == op && IsArithmetic(op)
    requires s.program[s.pc + 1] < REGISTER_COUNT && s.program[s.pc + 2] < REGISTER_COUNT
    ensures var a, b := s.registers[s.program[s.pc + 1]], s.registers[s.program[s.pc + 2]];
      && (op == DIV && b == 0 ==> Step(s) == StepResult(Faulted(DivisionByZero), s))
      && (op == DIV && a == I32_MIN && b == -1 ==>
            Step(s) == StepResult(Faulted(ArithmeticOverflow(DIV)), s))
      && ((op != DIV || b != 0) && !IsI32(Math(op, a, b)) ==>
            Step(s) == StepResult(Faulted(ArithmeticOverflow(op)), s))
  {
  }

  /** The operand faults of the register-reading opcodes, checked in the
      original's order: the first register byte (every jump, arithmetic and
      comparison opcode), then the second register byte (arithmetic and
      comparisons), then a comparison's padding byte. A missing byte is a
      read past the program, a byte of 32 or more a register index out of
      range; either way the step changes nothing. */
  lemma OperandFaults(s: State, op: Opcode)
    requires WellFormed(s) && s.pc < |s.program| && CurrentOpcode(s) == op
    requires IsArithmetic(op) || IsComparison(op) || IsJump(op)
    ensures s.pc + 1 >= |s.program| ==> Step(s) == StepResult(Faulted(ProgramOverrun), s)
    ensures s.pc + 1 < |s.program| && s.program[s.pc + 1] >= REGISTER_COUNT ==>
      Step(s) == StepResult(Faulted(BadRegister(s.program[s.pc + 1])), s)
    ensures !IsJump(op) && s.pc + 1 < |s.program| && s.program[s.pc + 1] < REGISTER_COUNT ==>
      && (s.pc + 2 >= |s.program| ==> Step(s) == StepResult(Faulted(ProgramOverrun), s))
      && (s.pc + 2 < |s.program| && s.program[s.pc + 2] >= REGISTER_COUNT ==>
            Step(s) == StepResult(Faulted(BadRegister(s.program[s.pc + 2])), s))
    ensures
      && IsComparison(op) && s.pc + 3 == |s.program|
      && s.program[s.pc + 1] < REGISTER_COUNT && s.program[s.pc + 2] < REGISTER_COUNT
      ==> Step(s) == StepResult(Faulted(ProgramOverrun), s)
  {
    if IsArithmetic(op) {
      assert Step(s) == ExecArithmetic(s, op);
    } else if IsComparison(op) {
      assert Step(s) == ExecComparison(s, op);
    } else {
      assert Step(s) == ExecJump(s, op);
    }
  }

  /** Once an arithmetic value is computed without a fault, a missing or
      out-of-range destination byte faults and changes nothing. */
  lemma DestinationFaults(s: State, op: Opcode)
    requires WellFormed(s) && s.pc + 2 < |s.program| && CurrentOpcode(s) == op && IsArithmetic(op)
    requires s.program[s.pc + 1] < REGISTER_COUNT && s.program[s.pc + 2] < REGISTER_COUNT
    requires var b := s.registers[s.program[s.pc + 2]]; op == DIV ==> b != 0
    requires IsI32(Math(op, s.registers[s.program[s.pc + 1]], s.registers[s.program[s.pc + 2]]))
    ensures s.pc + 3 == |s.program| ==> Step(s) == StepResult(Faulted(ProgramOverrun), s)
    ensures s.pc + 3 < |s.program| && s.program[s.pc + 3] >= REGISTER_COUNT ==>
      Step(s) == StepResult(Faulted(BadRegister(s.program[s.pc + 3])), s)
  {
    var a, b := s.registers[s.program[s.pc + 1]], s.registers[s.program[s.pc + 2]];
    assert Step(s) == ExecArithmetic(s, op);
    assert RegisterOperand(s, s.pc + 1) == Ok(a) && RegisterOperand(s, s.pc + 2) == Ok(b);
    assert ExecArithmetic(s, op) == ArithmeticWrite(s, op, a, b);
    assert ArithmeticValue(op, a, b) == Ok(Math(op, a, b));
  }

  /** A comparison sets the flag to its relation between the two registers,
      consumes a padding byte, and changes neither registers nor remainder. */
  lemma ComparisonEffect(s: State, op: Opcode)
    requires WellFormed(s) && s.pc + 3 < |s.program| && CurrentOpcode(s) == op && IsComparison(op)
    requires s.program[s.pc + 1] < REGISTER_COUNT && s.program[s.pc + 2] < REGISTER_COUNT
    ensures var a, b := s.registers[s.program[s.pc + 1]], s.registers[s.program[s.pc + 2]];
      Step(s) == StepResult(Running, s.(equalFlag := Relation(op, a, b), pc := s.pc + 4))
  {
    var a, b := s.registers[s.program[s.pc + 1]], s.registers[s.program[s.pc + 2]];
    assert Step(s) == ExecComparison(s, op);
    assert RegisterOperand(s, s.pc + 1) == Ok(a) && RegisterOperand(s, s.pc + 2) == Ok(b);
    assert ExecComparison(s, op) == ComparisonWrite(s, op, a, b);
  }

  /** The six relations, written out. */
  lemma RelationMeaning(a: int, b: int)
    ensures Relation(EQ, a, b) == (a == b) && Relation(NEQ, a, b) == (a != b)
    ensures Relation(GTE, a, b) == (a >= b) && Relation(LTE, a, b) == (a <= b)
    ensures Relation(LT, a, b) == (a < b) && Relation(GT, a, b) == (a > b)
  {
  }

  /** HLT and every byte that decodes to IGL end the run after consuming
      exactly one byte, with no other change. */
  lemma HaltEffect(s: State)
    requires WellFormed(s) && s.pc < |s.program| && IsHalt(CurrentOpcode(s))
    ensures Step(s) == StepResult(Halted, s.(pc := s.pc + 1))
  {
  }

  /** Every byte outside 0..15 under the program counter halts the machine. */
  lemma IllegalByteHalts(s: State)
    requires WellFormed(s) && s.pc < |s.program| && s.program[s.pc] > 15
    ensures Step(s) == StepResult(Halted, s.(pc := s.pc + 1))
  {
    HaltEffect(s);
  }

  /** The jumps, for a register holding a non-negative value `v`: JMP sets
      `pc` to `v`, JMPF to `pc + 2 + v`, JMPB to `pc + 2 - v`, and JMPE to
      `v` when the flag is set and to `pc + 2` otherwise. */
  lemma JumpEffect(s: State, op: Opcode)
    requires WellFormed(s) && s.pc + 1 < |s.program| && CurrentOpcode(s) == op && IsJump(op)
    requires s.program[s.pc + 1] < REGISTER_COUNT && s.registers[s.program[s.pc + 1]] >= 0
    ensures var r, v := Step(s), s.registers[s.program[s.pc + 1]];
      && r.next.registers == s.registers && r.next.equalFlag == s.equalFlag
      && r.next.remainder == s.remainder
      && (op == JMP ==> r == StepResult(Running, s.(pc := v)))
      && (op == JMPF ==> r == StepResult(Running, s.(pc := s.pc + 2 + v)))
      && (op == JMPB && v <= s.pc + 2 ==> r == StepResult(Running, s.(pc := s.pc + 2 - v)))
      && (op == JMPB && v > s.pc + 2 ==> r == StepResult(Faulted(PcUnderflow), s))
      && (op == JMPE ==> r == StepResult(Running, s.(pc := if s.equalFlag then v else s.pc + 2)))
  {
    assert Step(s) == ExecJump(s, op);
    assert s.pc + 2 + s.registers[s.program[s.pc + 1]] < USIZE_MODULUS;
  }

  /** A negative register value cast to `usize` wraps: JMP, and JMPE with
      the flag set, send `pc` beyond every program; JMPB always underflows. */
  lemma NegativeJumpTarget(s: State, op: Opcode)
    requires WellFormed(s) && s.pc + 1 < |s.program| && CurrentOpcode(s) == op && IsJump(op)
    requires s.program[s.pc + 1] < REGISTER_COUNT && s.registers[s.program[s.pc + 1]] < 0
    ensures op == JMP ==> Step(s).outcome == Running && Step(s).next.pc >= |s.program|
    ensures op == JMPE && s.equalFlag ==> Step(s).outcome == Running && Step(s).next.pc >= |s.program|
    ensures op == JMPB ==> Step(s) == StepResult(Faulted(PcUnderflow), s)
  {
  }

  /** No instruction that the machine reaches from `pc` by four-byte
      strides is a jump. Operand bytes may hold any value. */
  predicate NoJumpAhead(s: State) {
    forall i | s.pc <= i < |s.program| && (i - s.pc) % 4 == 0 :: !IsJump(FromByte(s.program[i]))
  }

  /** A step whose instruction is not a jump never moves the program counter
      backwards, and a running one moves it by exactly 4, so no jump lies
      ahead afterwards either. */
  lemma JumpFreeStep(s: State)
    requires WellFormed(s) && (s.pc >= |s.program| || !IsJump(CurrentOpcode(s)))
    ensures Step(s).next.pc >= s.pc
    ensures Step(s).outcome == Running ==> Step(s).next.pc == s.pc + 4
    ensures Step(s).outcome == Running && NoJumpAhead(s) ==> NoJumpAhead(Step(s).next)
  {
    var r := Step(s);
    if r.outcome == Running && NoJumpAhead(s) {
      NoJumpAheadAfterStride(s, r.next);
    }
  }

  lemma NoJumpAheadAfterStride(s: State, t: State)
    requires NoJumpAhead(s) && t.program == s.program && t.pc == s.pc + 4
    ensures NoJumpAhead(t)
  {
    forall i | t.pc <= i < |t.program| && (i - t.pc) % 4 == 0
      ensures !IsJump(FromByte(t.program[i]))
    {
      assert (i - s.pc) % 4 == 0;
    }
  }

  /** Without a jump at any instruction it reaches, a run never moves the
      program counter backwards: after `fuel` running steps it has moved by
      `4 * fuel`. */
  lemma {:induction false} JumpFreeRunAdvances(s: State, fuel: nat)
    requires WellFormed(s) && NoJumpAhead(s)
    ensures RunSpec(s, fuel).next.pc >= s.pc
    ensures RunSpec(s, fuel).outcome == Running ==> RunSpec(s, fuel).next.pc == s.pc + 4 * fuel
    decreases fuel
  {
    if fuel > 0 {
      var r := Step(s);
      if s.pc < |s.program| {
        assert !IsJump(FromByte(s.program[s.pc]));
      }
      JumpFreeStep(s);
      if r.outcome == Running {
        JumpFreeRunAdvances(r.next, fuel - 1);
      } else {
        assert RunSpec(s, fuel) == r;
      }
    }
  }

  /** `load $0 #7` and `load $6 #100` hold the bytes of jump opcodes only as
      operands; a run of them still advances four bytes per step. */
  lemma OperandBytesAreNoJumps()
    ensures NoJumpAhead(Initial.(program := [0, 0, 0, 7, 0, 6, 0, 100]))
  {
    var s := Initial.(program := [0, 0, 0, 7, 0, 6, 0, 100]);
    forall i | s.pc <= i < |s.program| && (i - s.pc) % 4 == 0
      ensures !IsJump(FromByte(s.program[i]))
    {
      assert i == 0 || i == 4;
    }
  }

  /** A run of `fuel > 0` steps is one step and, if that step is not done,
      a run of `fuel - 1` steps from where it left the machine. */
  lemma RunFirstStep(s: State, fuel: nat)
    requires WellFormed(s) && fuel > 0
    ensures Step(s).outcome == Running ==> RunSpec(s, fuel) == RunSpec(Step(s).next, fuel - 1)
    ensures Step(s).outcome != Running ==> RunSpec(s, fuel) == Step(s)
  {
  }

  /** Running `m + n` steps is running `m` steps and then, if those leave
      the machine running, `n` more from where they stopped. */
  lemma {:induction false} RunSplit(s: State, m: nat, n: nat)
    requires WellFormed(s)
    ensures RunSpec(s, m + n) == RunFrom(RunSpec(s, m), s.program, n)
    decreases m, 0
  {
    if m == 0 {
      assert RunSpec(s, m) == StepResult(Running, s);
      assert RunFrom(RunSpec(s, m), s.program, n) == RunSpec(s, n);
    } else {
      var r := Step(s);
      assert RunSpec(s, m) == RunFrom(r, s.program, m - 1);
      assert RunSpec(s, m + n) == RunFrom(r, s.program, (m - 1) + n);
      RunFromSplit(r, s.program, m - 1, n);
    }
  }

  /** `RunSplit` for the rest of a run after a step with result `r`. */
  lemma {:induction false} RunFromSplit(r: StepResult, program: seq<byte>, m: nat, n: nat)
    requires WellFormed(r.next) && r.next.program == program
    ensures RunFrom(r, program, m + n) == RunFrom(RunFrom(r, program, m), program, n)
    decreases m, 1
  {
    if r.outcome == Running {
      RunSplit(r.next, m, n);
    }
  }

  /** `t` is `s` with bytes appended to its program. */
  predicate Appended(s: State, t: State) {
    && t == s.(program := t.program)
    && |s.program| <= |t.program|
    && t.program[..|s.program|] == s.program
  }

  /** `after` is the result `before` with the longer program of `t`. */
  predicate SameResult(before: StepResult, after: StepResult, t: State) {
    after == StepResult(before.outcome, before.next.(program := t.program))
  }

  /** Bytes appended after a complete instruction do not change what that
      instruction does: the interactive session relies on this when it
      appends one line and runs one step. */
  lemma StepIgnoresAppendedBytes(s: State, extra: seq<byte>)
    requires WellFormed(s) && |s.program| + |extra| <= MAX_PROGRAM_LEN
    requires s.pc < |s.program| && Step(s).outcome != Faulted(ProgramOverrun)
    ensures var t := s.(program := s.program + extra);
      WellFormed(t) && SameResult(Step(s), Step(t), t)
  {
    var t := s.(program := s.program + extra);
    assert Appended(s, t);
    var op := CurrentOpcode(s);
    assert CurrentOpcode(t) == op;
    if op == LOAD {
      LoadIgnoresAppendedBytes(s, t);
    } else if IsArithmetic(op) {
      ArithmeticIgnoresAppendedBytes(s, t, op);
    } else if IsComparison(op) {
      ComparisonIgnoresAppendedBytes(s, t, op);
    } else if IsJump(op) {
      JumpIgnoresAppendedBytes(s, t, op);
    }
  }

  lemma OperandsIgnoreAppendedBytes(s: State, t: State)
    requires WellFormed(s) && WellFormed(t) && Appended(s, t)
    ensures forall at: nat | at < |s.program| :: RegisterOperand(t, at) == RegisterOperand(s, at)
  {
    forall at: nat | at < |s.program| ensures RegisterOperand(t, at) == RegisterOperand(s, at) {
      assert t.program[at] == s.program[at];
    }
  }

  lemma LoadIgnoresAppendedBytes(s: State, t: State)
    requires WellFormed(s) && WellFormed(t) && Appended(s, t) && s.pc < |s.program|
    requires ExecLoad(s).outcome != Faulted(ProgramOverrun)
    ensures SameResult(ExecLoad(s), ExecLoad(t), t)
  {
    assert t.program[s.pc + 1] == s.program[s.pc + 1];
    assert t.program[s.pc + 2] == s.program[s.pc + 2];
    assert t.program[s.pc + 3] == s.program[s.pc + 3];
  }

  lemma ArithmeticIgnoresAppendedBytes(s: State, t: State, op: Opcode)
    requires WellFormed(s) && WellFormed(t) && Appended(s, t) && s.pc < |s.program| && IsArithmetic(op)
    requires ExecArithmetic(s, op).outcome != Faulted(ProgramOverrun)
    ensures SameResult(ExecArithmetic(s, op), ExecArithmetic(t, op), t)
  {
    OperandsIgnoreAppendedBytes(s, t);
    match RegisterOperand(s, s.pc + 1)
    case Err(_) =>
    case Ok(a) =>
      match RegisterOperand(s, s.pc + 2)
      case Err(_) =>
      case Ok(b) => ArithmeticWriteIgnoresAppendedBytes(s, t, op, a, b);
  }

  lemma ArithmeticWriteIgnoresAppendedBytes(s: State, t: State, op: Opcode, a: int, b: int)
    requires WellFormed(s) && WellFormed(t) && Appended(s, t) && s.pc < |s.program| && IsArithmetic(op)
    requires ArithmeticWrite(s, op, a, b).outcome != Faulted(ProgramOverrun)
    ensures SameResult(ArithmeticWrite(s, op, a, b), ArithmeticWrite(t, op, a, b), t)
  {
    if s.pc + 3 < |s.program| {
      assert t.program[s.pc + 3] == s.program[s.pc + 3];
    }
  }

  lemma ComparisonIgnoresAppendedBytes(s: State, t: State, op: Opcode)
    requires WellFormed(s) && WellFormed(t) && Appended(s, t) && s.pc < |s.program| && IsComparison(op)
    requires ExecComparison(s, op).outcome != Faulted(ProgramOverrun)
    ensures SameResult(ExecComparison(s, op), ExecComparison(t, op), t)
  {
    OperandsIgnoreAppendedBytes(s, t);
  }

  lemma JumpIgnoresAppendedBytes(s: State, t: State, op: Opcode)
    requires WellFormed(s) && WellFormed(t) && Appended(s, t) && s.pc < |s.program| && IsJump(op)
    requires ExecJump(s, op).outcome != Faulted(ProgramOverrun)
    ensures SameResult(ExecJump(s, op), ExecJump(t, op), t)
  {
    OperandsIgnoreAppendedBytes(s, t);
  }

  // The original's unit tests, as facts about the model.

  /** `[0, 0, 1, 244]` loads 500 into register 0. */
  lemma LoadExample()
    ensures var r := RunSpec(Initial.(program := [0, 0, 1, 244]), 2);
      r.outcome == Halted && r.next.registers[0] == 500 && r.next.pc == 4
  {
    var s0 := Initial.(program := [0, 0, 1, 244]);
    LoadEffect(s0);
    RunFirstStep(s0, 2);
    RunFirstStep(Step(s0).next, 1);
  }

  /** A LOAD of the 16-bit constant `x` into register `d`, followed by the
      rest of a run. */
  lemma LoadThenRun(s: State, d: nat, x: nat, fuel: nat)
    requires WellFormed(s) && d < REGISTER_COUNT && x < U16_MODULUS && fuel > 0
    requires s.pc + 4 <= |s.program| && s.program[s.pc] == 0 && s.program[s.pc + 1] == d
    requires (s.program[s.pc + 2] as int) * 256 + s.program[s.pc + 3] == x
    ensures var t := s.(registers := s.registers[d := x], pc := s.pc + 4);
      WellFormed(t) && RunSpec(s, fuel) == RunSpec(t, fuel - 1)
  {
    var p := s.pc;
    var t := s.(registers := s.registers[d := x], pc := p + 4);
    assert Step(s) == ExecLoad(s) == StepResult(Running, t);
    RunFirstStep(s, fuel);
  }

  /** An arithmetic instruction on registers 0 and 1 into register 2 that
      ends the program, run with two steps of budget. */
  lemma ArithmeticThenHalt(s: State, op: Opcode)
    requires WellFormed(s) && s.pc + 4 == |s.program| && CurrentOpcode(s) == op && IsArithmetic(op)
    requires s.program[s.pc + 1] == 0 && s.program[s.pc + 2] == 1 && s.program[s.pc + 3] == 2
    requires op == DIV ==> s.registers[1] != 0
    requires IsI32(Math(op, s.registers[0], s.registers[1]))
    ensures var r := RunSpec(s, 2);
      && r.outcome == Halted
      && r.next.registers == s.registers[2 := Math(op, s.registers[0], s.registers[1])]
  {
    ArithmeticEffect(s, op);
    var t := Step(s).next;
    assert t.registers == s.registers[2 := Math(op, s.registers[0], s.registers[1])];
    assert t.pc == |s.program|;
    RunFirstStep(s, 2);
    RunFirstStep(t, 1);
  }

  /** The program that loads the 16-bit constants `x` and `y` into registers
      0 and 1 and combines them with `op` into register 2. */
  function LoadLoadProgram(op: Opcode, x: nat, y: nat): (code: seq<byte>)
    requires x < U16_MODULUS && y < U16_MODULUS
    ensures |code| == 12 && FromByte(code[8]) == op
    ensures code[0] == 0 && code[1] == 0 && code[4] == 0 && code[5] == 1
    ensures code[9] == 0 && code[10] == 1 && code[11] == 2
    ensures (code[2] as int) * 256 + code[3] == x && (code[6] as int) * 256 + code[7] == y
  {
    FromToByte(op);
    [0, 0, x / 256, x % 256, 0, 1, y / 256, y % 256, ToByte(op), 0, 1, 2]
  }

  /** Loading two 16-bit constants into registers 0 and 1 and combining
      them into register 2 leaves the two constants and their result, and the
      run halts at the end of the program. */
  lemma TwoLoadsAndArithmetic(s: State, op: Opcode, x: nat, y: nat)
    requires IsArithmetic(op) && x < U16_MODULUS && y < U16_MODULUS
    requires op == DIV ==> y != 0
    requires IsI32(Math(op, x, y))
    requires WellFormed(s) && s.pc == 0 && s.program == LoadLoadProgram(op, x, y)
    ensures var r := RunSpec(s, 4);
      && r.outcome == Halted
      && r.next.registers == s.registers[0 := x][1 := y][2 := Math(op, x, y)]
  {
    LoadThenRun(s, 0, x, 4);
    LoadThenArithmetic(s.(registers := s.registers[0 := x], pc := 4), op, x, y);
  }

  /** The second half of `TwoLoadsAndArithmetic`: load register 1, then
      combine. */
  lemma LoadThenArithmetic(s: State, op: Opcode, x: nat, y: nat)
    requires IsArithmetic(op) && x < U16_MODULUS && y < U16_MODULUS
    requires op == DIV ==> y != 0
    requires IsI32(Math(op, x, y))
    requires WellFormed(s) && s.pc == 4 && s.program == LoadLoadProgram(op, x, y) && s.registers[0] == x
    ensures var r := RunSpec(s, 3);
      && r.outcome == Halted
      && r.next.registers == s.registers[1 := y][2 := Math(op, x, y)]
  {
    LoadThenRun(s, 1, y, 3);
    ArithmeticThenHalt(s.(registers := s.registers[1 := y], pc := 8), op);
  }

  /** 100 + 200 lands in register 2; registers 0 and 1 keep their values. */
  lemma AddExample()
    ensures var r := RunSpec(Initial.(program := [0, 0, 0, 100, 0, 1, 0, 200, 1, 0, 1, 2]), 4);
      r.outcome == Halted &&
      r.next.registers[0] == 100 && r.next.registers[1] == 200 && r.next.registers[2] == 300
  {
    assert LoadLoadProgram(ADD, 100, 200) == [0, 0, 0, 100, 0, 1, 0, 200, 1, 0, 1, 2];
    TwoLoadsAndArithmetic(Initial.(program := [0, 0, 0, 100, 0, 1, 0, 200, 1, 0, 1, 2]), ADD, 100, 200);
  }

  /** 200 - 100 leaves 100 in register 2. */
  lemma SubExample()
    ensures var r := RunSpec(Initial.(program := [0, 0, 0, 200, 0, 1, 0, 100, 2, 0, 1, 2]), 4);
      r.outcome == Halted &&
      r.next.registers[0] == 200 && r.next.registers[1] == 100 && r.next.registers[2] == 100
  {
    assert LoadLoadProgram(SUB, 200, 100) == [0, 0, 0, 200, 0, 1, 0, 100, 2, 0, 1, 2];
    TwoLoadsAndArithmetic(Initial.(program := [0, 0, 0, 200, 0, 1, 0, 100, 2, 0, 1, 2]), SUB, 200, 100);
  }

  /** 10 * 20 leaves 200 in register 2. */
  lemma MulExample()
    ensures var s := Initial.(registers := Initial.registers[0 := 10][1 := 20], program := [3, 0, 1, 2]);
      RunSpec(s, 2).next.registers[2] == 200
  {
    var s0 := Initial.(registers := Initial.registers[0 := 10][1 := 20], program := [3, 0, 1, 2]);
    ArithmeticEffect(s0, MUL);
    RunFirstStep(s0, 2);
    RunFirstStep(Step(s0).next, 1);
  }

  /** 200 / 30 gives 6 with remainder 20. */
  lemma DivExample()
    ensures var s := Initial.(registers := Initial.registers[0 := 200][1 := 30], program := [4, 0, 1, 2]);
      var r := RunSpec(s, 2);
      r.next.registers[2] == 6 && r.next.remainder == 20
  {
    var s0 := Initial.(registers := Initial.registers[0 := 200][1 := 30], program := [4, 0, 1, 2]);
    ArithmeticEffect(s0, DIV);
    RunFirstStep(s0, 2);
    RunFirstStep(Step(s0).next, 1);
  }

  /** HLT and the IGL sentinel each stop after one byte. */
  lemma HaltExamples()
    ensures RunSpec(Initial.(program := [5, 0, 0, 0]), 10) == StepResult(Halted, Initial.(program := [5, 0, 0, 0], pc := 1))
    ensures RunSpec(Initial.(program := [200, 0, 0, 0]), 10) == StepResult(Halted, Initial.(program := [200, 0, 0, 0], pc := 1))
  {
  }

  /** JMP to register 0 = 1 lands on 1; JMPF by 2 from 0 lands on 4. */
  lemma ForwardJumpExamples()
    ensures Step(Initial.(registers := Initial.registers[0 := 1], program := [6, 0, 0, 0])).next.pc == 1
    ensures Step(Initial.(registers := Initial.registers[0 := 2], program := [7, 0, 0, 0, 200, 0, 0, 0])).next.pc == 4
  {
    JumpEffect(Initial.(registers := Initial.registers[0 := 1], program := [6, 0, 0, 0]), JMP);
    JumpEffect(Initial.(registers := Initial.registers[0 := 2], program := [7, 0, 0, 0, 200, 0, 0, 0]), JMPF);
  }

  /** JMPB by 6 from 4 returns to 0. */
  lemma BackwardJumpExamples()
    ensures Step(Initial.(registers := Initial.registers[0 := 6], program := [200, 0, 0, 0, 8, 0, 0, 0], pc := 4)).next.pc == 0
  {
    JumpEffect(Initial.(registers := Initial.registers[0 := 6], program := [200, 0, 0, 0, 8, 0, 0, 0], pc := 4), JMPB);
  }

  /** `jmpe $0` with the flag set and register 0 holding 4 jumps to 4. */
  lemma JumpIfEqualExample()
    ensures Step(Initial.(registers := Initial.registers[0 := 4], program := [15, 0, 0, 0, 200, 0, 0, 0], equalFlag := true)).next.pc == 4
  {
    JumpEffect(Initial.(registers := Initial.registers[0 := 4], program := [15, 0, 0, 0, 200, 0, 0, 0], equalFlag := true), JMPE);
  }

  /** A fresh machine with registers 0 and 1 set and the given program. */
  function WithRegisters(a: int, b: int, code: seq<byte>): (s: State)
    requires IsI32(a) && IsI32(b) && |code| <= MAX_PROGRAM_LEN
    ensures WellFormed(s) && s.pc == 0 && s.program == code
    ensures s.registers[0] == a && s.registers[1] == b
  {
    State(seq(REGISTER_COUNT, i => if i == 0 then a else if i == 1 then b else 0), 0, code, 0, false)
  }

  /** `op $0 $1` on a fresh machine sets the flag to the relation between
      registers 0 and 1. */
  lemma ComparisonOnRegisters(op: Opcode, a: int, b: int)
    requires IsComparison(op) && IsI32(a) && IsI32(b)
    ensures Step(WithRegisters(a, b, [ToByte(op), 0, 1, 0])).next.equalFlag == Relation(op, a, b)
  {
    var s := WithRegisters(a, b, [ToByte(op), 0, 1, 0]);
    FromToByte(op);
    ComparisonEffect(s, op);
  }

  /** The comparison tests: 4 == 4 and 4 != 5. */
  lemma EqualityExamples()
    ensures Step(WithRegisters(4, 4, [9, 0, 1, 0])).next.equalFlag
    ensures Step(WithRegisters(4, 5, [10, 0, 1, 0])).next.equalFlag
  {
    ComparisonOnRegisters(EQ, 4, 4);
    ComparisonOnRegisters(NEQ, 4, 5);
  }

  /** The comparison tests: 5 >= 4 and 3 <= 4. */
  lemma NonStrictOrderExamples()
    ensures Step(WithRegisters(5, 4, [11, 0, 1, 0])).next.equalFlag
    ensures Step(WithRegisters(3, 4, [12, 0, 1, 0])).next.equalFlag
  {
    ComparisonOnRegisters(GTE, 5, 4);
    ComparisonOnRegisters(LTE, 3, 4);
  }

  /** The comparison tests: neither 4 < 4 nor 4 > 4. */
  lemma StrictOrderExamples()
    ensures !Step(WithRegisters(4, 4, [13, 0, 1, 0])).next.equalFlag
    ensures !Step(WithRegisters(4, 4, [14, 0, 1, 0])).next.equalFlag
  {
    ComparisonOnRegisters(LT, 4, 4);
    ComparisonOnRegisters(GT, 4, 4);
  }
}
