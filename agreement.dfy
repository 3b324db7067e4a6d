/** The assembler and the virtual machine agree on the instruction layout:
    the bytes the encoder writes for an instruction are exactly the bytes
    the machine's step reads for that opcode, and they mean what the
    instruction says. */
module Agreement {
  import opened Common
  import opened Instructions
  import opened Vm
  import opened VmProperties
  import opened InstructionParsers

  /** A register operand the machine can index: a register token below 32. */
  predicate RegisterSlot(slot: Option<Token>) {
    slot.Some? && slot.value.Register? && slot.value.regNum < REGISTER_COUNT
  }

  /** The register number held by a register slot. */
  function RegisterIn(slot: Option<Token>): nat
    requires RegisterSlot(slot)
  {
    slot.value.regNum
  }

  /** The operand tokens the machine's decoder expects for each opcode:
      LOAD a register and an integer; arithmetic three registers;
      comparisons two registers and one token for the padding byte; jumps
      one register; HLT and IGL nothing. */
  predicate FitsDecoder(ins: AssemblerInstruction) {
    && ins.opcode.Op?
    && var op := ins.opcode.code;
    if op == LOAD then
      && RegisterSlot(ins.operand1)
      && ins.operand2.Some? && ins.operand2.value.IntegerOperand?
      && ins.operand3.None?
    else if IsArithmetic(op) then
      RegisterSlot(ins.operand1) && RegisterSlot(ins.operand2) && RegisterSlot(ins.operand3)
    else if IsComparison(op) then
      && RegisterSlot(ins.operand1) && RegisterSlot(ins.operand2)
      && ins.operand3.Some? && ins.operand3.value.Register?
    else if IsJump(op) then
      RegisterSlot(ins.operand1) && ins.operand2.None? && ins.operand3.None?
    else
      ins.operand1.None? && ins.operand2.None? && ins.operand3.None?
  }

  /** The instruction encodes, and its bytes lie in the program at `pc`. */
  predicate EncodedAt(s: State, ins: AssemblerInstruction) {
    && Encoding(ins).Ok?
    && s.pc + |Encoding(ins).value| <= |s.program|
    && s.program[s.pc .. s.pc + |Encoding(ins).value|] == Encoding(ins).value
  }

  lemma BytesAt(s: State, ins: AssemblerInstruction)
    requires EncodedAt(s, ins)
    ensures forall k | 0 <= k < |Encoding(ins).value| ::
      s.program[s.pc + k] == Encoding(ins).value[k]
  {
    var bytes := Encoding(ins).value;
    forall k | 0 <= k < |bytes|
      ensures s.program[s.pc + k] == bytes[k]
    {
      assert s.program[s.pc .. s.pc + |bytes|][k] == bytes[k];
    }
  }

  /** Every instruction shaped for the decoder encodes, to four bytes for
      LOAD, arithmetic and comparisons, two for jumps and one for HLT and
      IGL. */
  lemma FitsDecoderEncodes(ins: AssemblerInstruction)
    requires FitsDecoder(ins)
    ensures Encoding(ins).Ok?
    ensures var op, n := ins.opcode.code, |Encoding(ins).value|;
      && (op == LOAD || IsArithmetic(op) || IsComparison(op) ==> n == 4)
      && (IsJump(op) ==> n == 2)
      && (IsHalt(op) ==> n == 1)
  {
    var slots := Slots(ins);
    assert !HasOpcodeOperand(slots);
    EncodingSucceeds(ins);
    EncodingLayout(ins);
  }

  /** The opcode byte the encoder writes is the opcode the machine decodes. */
  lemma DecodesOpcode(s: State, ins: AssemblerInstruction)
    requires EncodedAt(s, ins)
    ensures ins.opcode.Op? && s.pc < |s.program|
    ensures CurrentOpcode(s) == ins.opcode.code
  {
    EncodingLayout(ins);
    BytesAt(s, ins);
    FromToByte(ins.opcode.code);
  }

  /** Where the operand bytes of an instruction with three register tokens
      lie: one byte each, right after the opcode. */
  lemma ThreeRegisterBytes(s: State, ins: AssemblerInstruction)
    requires EncodedAt(s, ins)
    requires ins.operand1.Some? && ins.operand1.value.Register?
    requires ins.operand2.Some? && ins.operand2.value.Register?
    requires ins.operand3.Some? && ins.operand3.value.Register?
    ensures |Encoding(ins).value| == 4 && s.pc + 3 < |s.program|
    ensures s.program[s.pc + 1] == ins.operand1.value.regNum
    ensures s.program[s.pc + 2] == ins.operand2.value.regNum
    ensures s.program[s.pc + 3] == ins.operand3.value.regNum
  {
    EncodingLayout(ins);
    BytesAt(s, ins);
    var bytes := Encoding(ins).value;
    var r1, r2, r3 := PresentBytes(ins.operand1), PresentBytes(ins.operand2), PresentBytes(ins.operand3);
    assert r1 == [ins.operand1.value.regNum] && r2 == [ins.operand2.value.regNum];
    assert r3 == [ins.operand3.value.regNum];
    assert bytes == [bytes[0]] + r1 + r2 + r3;
  }

  /** Where the operand bytes of `LOAD register integer` lie: the register
      byte, then the integer's high and low bytes. */
  lemma LoadBytes(s: State, ins: AssemblerInstruction)
    requires EncodedAt(s, ins)
    requires ins.operand1.Some? && ins.operand1.value.Register?
    requires ins.operand2.Some? && ins.operand2.value.IntegerOperand?
    requires ins.operand3.None?
    ensures |Encoding(ins).value| == 4 && s.pc + 3 < |s.program|
    ensures s.program[s.pc + 1] == ins.operand1.value.regNum
    ensures (s.program[s.pc + 2] as int) * 256 + s.program[s.pc + 3] == AsU16(ins.operand2.value.value)
  {
    EncodingLayout(ins);
    BytesAt(s, ins);
    var bytes, reg, num := Encoding(ins).value, PresentBytes(ins.operand1), PresentBytes(ins.operand2);
    assert bytes == [bytes[0]] + reg + num;
    assert |reg| == 1 && |num| == 2;
    assert bytes[1] == reg[0] && bytes[2] == num[0] && bytes[3] == num[1];
    assert reg == OperandBytes(ins.operand1.value).value;
    assert num == OperandBytes(ins.operand2.value).value;
  }

  /** Where the operand byte of a one-register instruction lies. */
  lemma OneRegisterBytes(s: State, ins: AssemblerInstruction)
    requires EncodedAt(s, ins)
    requires ins.operand1.Some? && ins.operand1.value.Register?
    requires ins.operand2.None? && ins.operand3.None?
    ensures |Encoding(ins).value| == 2 && s.pc + 1 < |s.program|
    ensures s.program[s.pc + 1] == ins.operand1.value.regNum
  {
    EncodingLayout(ins);
    BytesAt(s, ins);
    var bytes := Encoding(ins).value;
    assert PresentBytes(ins.operand1) == [ins.operand1.value.regNum];
    assert bytes == [bytes[0]] + PresentBytes(ins.operand1);
  }

  /** Assembling `load $r #v` and running its bytes sets register `r` to
      `v` cut to 16 bits, consumes exactly the four encoded bytes, and
      changes nothing else. */
  lemma LoadAgreement(s: State, ins: AssemblerInstruction)
    requires WellFormed(s) && FitsDecoder(ins) && ins.opcode.code == LOAD
    requires EncodedAt(s, ins)
    ensures |Encoding(ins).value| == 4
    ensures var r, v := ins.operand1.value.regNum, ins.operand2.value.value;
      Step(s) == StepResult(Running, s.(
        registers := s.registers[r := AsU16(v)],
        pc := s.pc + |Encoding(ins).value|))
  {
    var r, v := ins.operand1.value.regNum, ins.operand2.value.value;
    LoadBytes(s, ins);
    DecodesOpcode(s, ins);
    LoadEffect(s);
    var next := Step(s).next;
    assert next.registers == s.registers[r := AsU16(v)] by {
      forall i | 0 <= i < |next.registers|
        ensures next.registers[i] == s.registers[r := AsU16(v)][i]
      {
      }
    }
  }

  /** Assembling an arithmetic instruction over registers `a`, `b`, `d`:
      the machine reads the encoded source registers and writes `a op b`
      into `d`, consuming the four encoded bytes; when the value does not
      fit an `i32` or divides by zero the step faults and changes nothing. */
  lemma ArithmeticAgreement(s: State, ins: AssemblerInstruction)
    requires WellFormed(s) && FitsDecoder(ins) && IsArithmetic(ins.opcode.code)
    requires EncodedAt(s, ins)
    ensures |Encoding(ins).value| == 4
    ensures var op, d := ins.opcode.code, RegisterIn(ins.operand3);
      var a, b := s.registers[RegisterIn(ins.operand1)], s.registers[RegisterIn(ins.operand2)];
      var fits := (op != DIV || b != 0) && IsI32(Math(op, a, b));
      && (fits ==> Step(s) == StepResult(Running, s.(
            registers := s.registers[d := Math(op, a, b)],
            pc := s.pc + |Encoding(ins).value|,
            remainder := if op == DIV then AsU32(TruncRem(a, b)) else s.remainder)))
      && (!fits ==>
            && Step(s).next == s
            && (Step(s).outcome == Faulted(ArithmeticOverflow(op)) ||
                Step(s).outcome == Faulted(DivisionByZero)))
  {
    var op, d := ins.opcode.code, RegisterIn(ins.operand3);
    var a, b := s.registers[RegisterIn(ins.operand1)], s.registers[RegisterIn(ins.operand2)];
    ThreeRegisterBytes(s, ins);
    DecodesOpcode(s, ins);
    ArithmeticFaults(s, op);
    if (op != DIV || b != 0) && IsI32(Math(op, a, b)) {
      ArithmeticEffect(s, op);
      var next := Step(s).next;
      assert next.registers == s.registers[d := Math(op, a, b)] by {
        forall i | 0 <= i < |next.registers|
          ensures next.registers[i] == s.registers[d := Math(op, a, b)][i]
        {
        }
      }
    }
  }

  /** Assembling a comparison over registers `a` and `b`: the machine sets
      the flag to the relation between them, consumes the four encoded
      bytes, and changes nothing else. */
  lemma ComparisonAgreement(s: State, ins: AssemblerInstruction)
    requires WellFormed(s) && FitsDecoder(ins) && IsComparison(ins.opcode.code)
    requires EncodedAt(s, ins)
    ensures |Encoding(ins).value| == 4
    ensures var a, b := s.registers[RegisterIn(ins.operand1)], s.registers[RegisterIn(ins.operand2)];
      Step(s) == StepResult(Running, s.(
        equalFlag := Relation(ins.opcode.code, a, b),
        pc := s.pc + |Encoding(ins).value|))
  {
    ThreeRegisterBytes(s, ins);
    DecodesOpcode(s, ins);
    ComparisonEffect(s, ins.opcode.code);
  }

  /** Assembling a jump over register `r`: the machine reads the encoded
      register, and the relative jumps count from the end of the two
      encoded bytes. */
  lemma JumpAgreement(s: State, ins: AssemblerInstruction)
    requires WellFormed(s) && FitsDecoder(ins) && IsJump(ins.opcode.code)
    requires EncodedAt(s, ins)
    ensures |Encoding(ins).value| == 2
    ensures var op, v, after := ins.opcode.code, AsUsize(s.registers[RegisterIn(ins.operand1)]),
                                s.pc + |Encoding(ins).value|;
      && (op == JMP ==> Step(s) == StepResult(Running, s.(pc := v)))
      && (op == JMPF ==>
            Step(s) == if after + v < USIZE_MODULUS then StepResult(Running, s.(pc := after + v))
                       else StepResult(Faulted(PcOverflow), s))
      && (op == JMPB ==>
            Step(s) == if v <= after then StepResult(Running, s.(pc := after - v))
                       else StepResult(Faulted(PcUnderflow), s))
      && (op == JMPE ==>
            Step(s) == StepResult(Running, s.(pc := if s.equalFlag then v else after)))
  {
    OneRegisterBytes(s, ins);
    DecodesOpcode(s, ins);
    assert RegisterOperand(s, s.pc + 1) == Ok(s.registers[RegisterIn(ins.operand1)]);
    assert Step(s) == ExecJump(s, ins.opcode.code);
  }

  /** Assembling HLT (or an unknown mnemonic, which becomes IGL): the
      machine halts after the one encoded byte. */
  lemma HaltAgreement(s: State, ins: AssemblerInstruction)
    requires WellFormed(s) && FitsDecoder(ins) && IsHalt(ins.opcode.code)
    requires EncodedAt(s, ins)
    ensures |Encoding(ins).value| == 1
    ensures Step(s) == StepResult(Halted, s.(pc := s.pc + |Encoding(ins).value|))
  {
    FitsDecoderEncodes(ins);
    DecodesOpcode(s, ins);
    HaltEffect(s);
  }

  /** Whatever the opcode, an instruction shaped for the decoder never makes
      the machine read past its bytes or name a register it does not have,
      and every instruction other than a jump moves `pc` past exactly the
      bytes the encoder wrote. */
  lemma DecoderConsumesEncoding(s: State, ins: AssemblerInstruction)
    requires WellFormed(s) && FitsDecoder(ins) && EncodedAt(s, ins)
    ensures s.pc < |s.program| && CurrentOpcode(s) == ins.opcode.code
    ensures Step(s).outcome != Faulted(ProgramOverrun)
    ensures !(Step(s).outcome.Faulted? && Step(s).outcome.fault.BadRegister?)
    ensures !IsJump(ins.opcode.code) && !Step(s).outcome.Faulted? ==>
      Step(s).next.pc == s.pc + |Encoding(ins).value|
  {
    DecodesOpcode(s, ins);
    var op := ins.opcode.code;
    if op == LOAD {
      LoadAgreement(s, ins);
    } else if IsArithmetic(op) {
      ArithmeticAgreement(s, ins);
    } else if IsComparison(op) {
      ComparisonAgreement(s, ins);
    } else if IsJump(op) {
      JumpAgreement(s, ins);
    } else {
      HaltAgreement(s, ins);
    }
  }

  /** `load $0 #100` placed in an empty machine loads 100 into register 0
      and leaves `pc` after its four bytes. */
  lemma LoadRoundTripExample()
    ensures var ins := AssemblerInstruction(None, Op(LOAD), Some(Register(0)), Some(IntegerOperand(100)), None);
      && Encoding(ins) == Ok([0, 0, 0, 100])
      && var r := Step(Initial.(program := [0, 0, 0, 100]));
      && r.outcome == Running && r.next.registers[0] == 100 && r.next.pc == 4
  {
    var ins := AssemblerInstruction(None, Op(LOAD), Some(Register(0)), Some(IntegerOperand(100)), None);
    var s := Initial.(program := [0, 0, 0, 100]);
    FormTwoEncoding(ins);
    assert s.program[0..4] == [0, 0, 0, 100];
    LoadAgreement(s, ins);
  }
}
