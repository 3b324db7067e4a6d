/** The assembler's instruction layer: the token-level instruction forms the
    parser accepts, and the encoder that turns a parsed instruction into the
    bytes the virtual machine decodes.

    The character-level grammar (mnemonics, whitespace, the `$` and `#`
    sigils) lies below this layer; here a line has already become a
    sequence of tokens. Where the original encoder prints a message and
    exits the process, `Encoding` ends in an `EncodingFault`. */
module InstructionParsers {
  import opened Common
  import opened Instructions

  /** The assembler's tokens: an opcode, a register operand, or an integer
      operand. */
  datatype Token =
    | Op(code: Opcode)
    | Register(regNum: byte)
    | IntegerOperand(value: int)

  /** A parsed instruction: an opcode slot and three optional operand slots.
      The label is carried but never set by the forms below. */
  datatype AssemblerInstruction = AssemblerInstruction(
    labelName: Option<string>,
    opcode: Token,
    operand1: Option<Token>,
    operand2: Option<Token>,
    operand3: Option<Token>)

  datatype EncodingFault =
    | NonOpcodeInOpcodeField(found: Token)  // the opcode slot holds an operand
    | OpcodeInOperandField(code: Opcode)    // an operand slot holds an opcode

  /** The operand slots in the order they are encoded. */
  function Slots(ins: AssemblerInstruction): seq<Option<Token>> {
    [ins.operand1, ins.operand2, ins.operand3]
  }

  // ---------------------------------------------------------------------
  // Encoding

  /** The bytes one operand token contributes: a register its index, an
      integer the high then the low byte of its value cut to 16 bits. */
  function OperandBytes(t: Token): (r: Result<seq<byte>, EncodingFault>)
    ensures r.Err? <==> t.Op?
    ensures r.Ok? && t.Register? ==> r.value == [t.regNum]
    ensures r.Ok? && t.IntegerOperand? ==>
      |r.value| == 2 && (r.value[0] as int) * 256 + r.value[1] == AsU16(t.value)
  {
    match t
    case Op(code) => Err(OpcodeInOperandField(code))
    case Register(n) => Ok([n])
    case IntegerOperand(v) =>
      var converted := AsU16(v);
      Ok([converted / 256, converted % 256])
  }

  /** The encoding of the remaining `slots` after `acc` has been written:
      slots are taken in order, absent ones add nothing, and the first slot
      holding an opcode ends the encoding. */
  function SlotsBytes(acc: seq<byte>, slots: seq<Option<Token>>): (r: Result<seq<byte>, EncodingFault>)
    ensures r.Ok? ==> |r.value| >= |acc| && r.value[..|acc|] == acc
    ensures r.Err? ==> r.error.OpcodeInOperandField?
    decreases |slots|
  {
    if slots == [] then Ok(acc)
    else match slots[0]
      case None => SlotsBytes(acc, slots[1..])
      case Some(t) =>
        match OperandBytes(t)
        case Err(e) => Err(e)
        case Ok(bytes) => SlotsBytes(acc + bytes, slots[1..])
  }

  /** What `to_bytes` produces: the opcode byte, then each present operand. */
  function Encoding(ins: AssemblerInstruction): (r: Result<seq<byte>, EncodingFault>)
    ensures !ins.opcode.Op? ==> r == Err(NonOpcodeInOpcodeField(ins.opcode))
    ensures ins.opcode.Op? && r.Err? ==> r.error.OpcodeInOperandField?
    ensures r.Ok? ==> ins.opcode.Op? && |r.value| >= 1 && r.value[0] == ToByte(ins.opcode.code)
  {
    if !ins.opcode.Op? then Err(NonOpcodeInOpcodeField(ins.opcode))
    else SlotsBytes([ToByte(ins.opcode.code)], Slots(ins))
  }

  /** The growable byte vector the encoder pushes into. */
  class ByteVec {
    var contents: seq<byte>

    constructor ()
      ensures contents == []
    {
      contents := [];
    }

    method Push(b: byte)
      modifies this
      ensures contents == old(contents) + [b]
    {
      contents := contents + [b];
    }
  }

  /** `extract_operhand`: push the bytes of one operand token, or report an
      opcode found in an operand slot and push nothing. */
  method ExtractOperand(t: Token, results: ByteVec) returns (fault: Option<EncodingFault>)
    modifies results
    ensures OperandBytes(t).Ok? ==>
      fault == None && results.contents == old(results.contents) + OperandBytes(t).value
    ensures OperandBytes(t).Err? ==>
      fault == Some(OperandBytes(t).error) && results.contents == old(results.contents)
  {
    match t {
      case Register(n) =>
        results.Push(n);
      case IntegerOperand(v) =>
        var converted := AsU16(v);
        results.Push(converted / 256);
        results.Push(converted % 256);
      case Op(code) =>
        return Some(OpcodeInOperandField(code));
    }
    fault := None;
  }

  /** `to_bytes`: the opcode byte, then a loop over the three operand slots. */
  method ToBytes(ins: AssemblerInstruction) returns (r: Result<seq<byte>, EncodingFault>)
    ensures r == Encoding(ins)
  {
    if !ins.opcode.Op? {
      return Err(NonOpcodeInOpcodeField(ins.opcode));
    }
    var results := new ByteVec();
    results.Push(ToByte(ins.opcode.code));
    var slots := Slots(ins);
    assert results.contents == [ToByte(ins.opcode.code)] && slots[0..] == slots;
    for i := 0 to |slots|
      invariant SlotsBytes(results.contents, slots[i..]) == Encoding(ins)
    {
      if slots[i].Some? {
        var fault := ExtractOperand(slots[i].value, results);
        if fault.Some? {
          return Err(fault.value);
        }
      }
    }
    r := Ok(results.contents);
  }

  // ---------------------------------------------------------------------
  // The independent description of an encoding

  /** The number of bytes a slot takes: 0 when absent, 1 for a register,
      2 for an integer. */
  function SlotWidth(slot: Option<Token>): nat {
    match slot
    case None => 0
    case Some(Register(_)) => 1
    case Some(IntegerOperand(_)) => 2
    case Some(Op(_)) => 0
  }

  /** The bytes a slot holding a register or an integer contributes;
      nothing for an absent slot. */
  function PresentBytes(slot: Option<Token>): (b: seq<byte>)
    ensures |b| == SlotWidth(slot)
  {
    match slot
    case Some(t) => if t.Op? then [] else OperandBytes(t).value
    case None => []
  }

  function AllPresentBytes(slots: seq<Option<Token>>): seq<byte> {
    if slots == [] then [] else PresentBytes(slots[0]) + AllPresentBytes(slots[1..])
  }

  /** Some slot of `slots` holds an opcode token. */
  predicate HasOpcodeOperand(slots: seq<Option<Token>>) {
    exists k | 0 <= k < |slots| :: slots[k].Some? && slots[k].value.Op?
  }

  /** The opcode held by the first slot that holds one. */
  function FirstOpcodeOperand(slots: seq<Option<Token>>): Opcode
    requires HasOpcodeOperand(slots)
  {
    if slots[0].Some? && slots[0].value.Op? then slots[0].value.code
    else
      assert HasOpcodeOperand(slots[1..]) by {
        var k :| 0 <= k < |slots| && slots[k].Some? && slots[k].value.Op?;
        assert slots[1..][k - 1] == slots[k];
      }
      FirstOpcodeOperand(slots[1..])
  }

  /** Slot encoding fails exactly when some slot holds an opcode, and then
      names the first one. */
  lemma {:induction false} SlotsBytesFaults(acc: seq<byte>, slots: seq<Option<Token>>)
    ensures SlotsBytes(acc, slots).Ok? <==> !HasOpcodeOperand(slots)
    ensures SlotsBytes(acc, slots).Err? ==>
      SlotsBytes(acc, slots).error == OpcodeInOperandField(FirstOpcodeOperand(slots))
    decreases |slots|
  {
    if slots != [] {
      var rest := slots[1..];
      if slots[0].Some? && slots[0].value.Op? {
        assert HasOpcodeOperand(slots) by {
          assert slots[0].Some? && slots[0].value.Op?;
        }
      } else {
        var acc' := if slots[0].Some? then acc + OperandBytes(slots[0].value).value else acc;
        assert SlotsBytes(acc, slots) == SlotsBytes(acc', rest);
        SlotsBytesFaults(acc', rest);
        if HasOpcodeOperand(rest) {
          var k :| 0 <= k < |rest| && rest[k].Some? && rest[k].value.Op?;
          assert slots[k + 1] == rest[k];
        }
        if HasOpcodeOperand(slots) {
          var k :| 0 <= k < |slots| && slots[k].Some? && slots[k].value.Op?;
          assert rest[k - 1] == slots[k];
        }
      }
    }
  }

  /** A successful slot encoding keeps what was written and appends the
      bytes of the present operands in slot order. */
  lemma {:induction false} SlotsBytesValue(acc: seq<byte>, slots: seq<Option<Token>>)
    requires SlotsBytes(acc, slots).Ok?
    ensures SlotsBytes(acc, slots).value == acc + AllPresentBytes(slots)
    decreases |slots|
  {
    if slots != [] {
      var rest := slots[1..];
      var bytes := PresentBytes(slots[0]);
      if slots[0].None? {
        assert acc + bytes == acc;
      }
      assert SlotsBytes(acc, slots) == SlotsBytes(acc + bytes, rest);
      SlotsBytesValue(acc + bytes, rest);
      assert acc + bytes + AllPresentBytes(rest) == acc + (bytes + AllPresentBytes(rest));
    }
  }

  /** `to_bytes` succeeds exactly when the opcode slot holds an opcode and no
      operand slot does; the opcode-slot fault comes first, then the first
      operand slot holding an opcode. */
  lemma EncodingSucceeds(ins: AssemblerInstruction)
    ensures Encoding(ins).Ok? <==> ins.opcode.Op? && !HasOpcodeOperand(Slots(ins))
    ensures !ins.opcode.Op? ==> Encoding(ins) == Err(NonOpcodeInOpcodeField(ins.opcode))
    ensures ins.opcode.Op? && HasOpcodeOperand(Slots(ins)) ==>
      Encoding(ins) == Err(OpcodeInOperandField(FirstOpcodeOperand(Slots(ins))))
  {
    if ins.opcode.Op? {
      SlotsBytesFaults([ToByte(ins.opcode.code)], Slots(ins));
    }
  }

  /** A successful encoding is the opcode's byte followed by the bytes of
      operands 1, 2 and 3, each present one taking its width. */
  lemma EncodingLayout(ins: AssemblerInstruction)
    requires Encoding(ins).Ok?
    ensures ins.opcode.Op?
    ensures Encoding(ins).value == [ToByte(ins.opcode.code)]
      + PresentBytes(ins.operand1) + PresentBytes(ins.operand2) + PresentBytes(ins.operand3)
    ensures |Encoding(ins).value| ==
      1 + SlotWidth(ins.operand1) + SlotWidth(ins.operand2) + SlotWidth(ins.operand3)
    ensures Encoding(ins).value[0] == ToByte(ins.opcode.code)
  {
    var acc, slots := [ToByte(ins.opcode.code)], Slots(ins);
    SlotsBytesValue(acc, slots);
    assert slots[1..] == [ins.operand2, ins.operand3];
    assert slots[1..][1..] == [ins.operand3];
    assert slots[1..][1..][1..] == [];
    assert AllPresentBytes(slots[1..][1..]) == PresentBytes(ins.operand3);
  }

  // ---------------------------------------------------------------------
  // Instruction forms, over tokens

  /** Form one: an opcode alone. */
  function InstructionOne(tokens: seq<Token>): (r: Option<(AssemblerInstruction, seq<Token>)>)
    ensures r.Some? <==> |tokens| > 0 && tokens[0].Op?
    ensures r.Some? ==> IsFormOne(r.value.0) && tokens == [r.value.0.opcode] + r.value.1
  {
    if |tokens| >= 1 && tokens[0].Op? then
      Some((AssemblerInstruction(None, tokens[0], None, None, None), tokens[1..]))
    else None
  }

  /** Form two: an opcode, a register operand, an integer operand. */
  function InstructionTwo(tokens: seq<Token>): (r: Option<(AssemblerInstruction, seq<Token>)>)
    ensures r.Some? <==>
      |tokens| >= 3 && tokens[0].Op? && tokens[1].Register? && tokens[2].IntegerOperand?
    ensures r.Some? ==>
      var (ins, rest) := r.value;
      IsFormTwo(ins) && tokens == [ins.opcode, ins.operand1.value, ins.operand2.value] + rest
  {
    if |tokens| >= 3 && tokens[0].Op? && tokens[1].Register? && tokens[2].IntegerOperand? then
      Some((AssemblerInstruction(None, tokens[0], Some(tokens[1]), Some(tokens[2]), None), tokens[3..]))
    else None
  }

  /** `instruction`: form two if it matches, otherwise form one. */
  function ParseInstruction(tokens: seq<Token>): (r: Option<(AssemblerInstruction, seq<Token>)>)
    ensures r.Some? <==> |tokens| > 0 && tokens[0].Op?
    ensures r.Some? ==> IsFormOne(r.value.0) || IsFormTwo(r.value.0)
  {
    match InstructionTwo(tokens)
    case Some(p) => Some(p)
    case None => InstructionOne(tokens)
  }

  predicate IsFormOne(ins: AssemblerInstruction) {
    && ins.labelName.None? && ins.opcode.Op?
    && ins.operand1.None? && ins.operand2.None? && ins.operand3.None?
  }

  predicate IsFormTwo(ins: AssemblerInstruction) {
    && ins.labelName.None? && ins.opcode.Op?
    && ins.operand1.Some? && ins.operand1.value.Register?
    && ins.operand2.Some? && ins.operand2.value.IntegerOperand?
    && ins.operand3.None?
  }

  /** The tokens an instruction is read from: the opcode, then each present
      operand in slot order. */
  function InstructionTokens(ins: AssemblerInstruction): seq<Token> {
    [ins.opcode]
    + (if ins.operand1.Some? then [ins.operand1.value] else [])
    + (if ins.operand2.Some? then [ins.operand2.value] else [])
    + (if ins.operand3.Some? then [ins.operand3.value] else [])
  }

  /** A line parses exactly when it starts with an opcode; the result is
      one of the two forms, read from the front of the line, and the rest
      of the line is left over. */
  lemma ParseShape(tokens: seq<Token>)
    ensures ParseInstruction(tokens).Some? <==> |tokens| > 0 && tokens[0].Op?
    ensures ParseInstruction(tokens).Some? ==>
      var (ins, rest) := ParseInstruction(tokens).value;
      && (IsFormOne(ins) || IsFormTwo(ins))
      && tokens == InstructionTokens(ins) + rest
  {
    if ParseInstruction(tokens).Some? {
      var (ins, rest) := ParseInstruction(tokens).value;
      if InstructionTwo(tokens).Some? {
        assert tokens == tokens[..3] + tokens[3..];
      } else {
        assert tokens == tokens[..1] + tokens[1..];
      }
    }
  }

  /** The longer form wins: whenever form two matches it is the result, and
      form one is the result only when form two does not match. */
  lemma FormTwoFirst(tokens: seq<Token>)
    ensures InstructionTwo(tokens).Some? ==> ParseInstruction(tokens) == InstructionTwo(tokens)
    ensures InstructionTwo(tokens).None? ==> ParseInstruction(tokens) == InstructionOne(tokens)
    ensures ParseInstruction(tokens).Some? && IsFormOne(ParseInstruction(tokens).value.0) ==>
      !(|tokens| >= 3 && tokens[1].Register? && tokens[2].IntegerOperand?)
  {
  }

  /** Reading back the tokens of an instruction in one of the forms gives the
      instruction and the rest of the line, except that an opcode alone
      followed by a register and an integer is read as form two. */
  lemma ParseRoundTrip(ins: AssemblerInstruction, rest: seq<Token>)
    requires IsFormTwo(ins) ||
      (IsFormOne(ins) && !(|rest| >= 2 && rest[0].Register? && rest[1].IntegerOperand?))
    ensures ParseInstruction(InstructionTokens(ins) + rest) == Some((ins, rest))
  {
    var tokens := InstructionTokens(ins) + rest;
    if IsFormTwo(ins) {
      assert tokens[..3] == InstructionTokens(ins);
      assert tokens[3..] == rest;
    } else {
      assert tokens[1..] == rest;
    }
  }

  /** Form one encodes to the opcode byte alone. */
  lemma FormOneEncoding(ins: AssemblerInstruction)
    requires IsFormOne(ins)
    ensures Encoding(ins) == Ok([ToByte(ins.opcode.code)])
  {
    var slots := Slots(ins);
    assert slots[1..][1..][1..] == [];
  }

  /** Form two encodes to four bytes: the opcode, the register, and the
      integer's high and low bytes. */
  lemma FormTwoEncoding(ins: AssemblerInstruction)
    requires IsFormTwo(ins)
    ensures var v := AsU16(ins.operand2.value.value);
      Encoding(ins) == Ok([ToByte(ins.opcode.code), ins.operand1.value.regNum, v / 256, v % 256])
  {
    var slots, v := Slots(ins), AsU16(ins.operand2.value.value);
    var op, reg := ToByte(ins.opcode.code), ins.operand1.value.regNum;
    assert slots[1..] == [ins.operand2, None];
    assert slots[1..][1..] == [None];
    assert slots[1..][1..][1..] == [];
    calc {
      Encoding(ins);
      SlotsBytes([op], slots);
      { assert slots[0] == Some(Register(reg)) && [op] + [reg] == [op, reg]; }
      SlotsBytes([op, reg], slots[1..]);
      { assert [op, reg] + [v / 256, v % 256] == [op, reg, v / 256, v % 256]; }
      SlotsBytes([op, reg, v / 256, v % 256], slots[1..][1..]);
      SlotsBytes([op, reg, v / 256, v % 256], slots[1..][1..][1..]);
    }
  }

  /** Every parsed instruction encodes: form one to its opcode byte, form
      two to four bytes — the opcode, the register, and the integer's high
      and low bytes. */
  lemma ParsedInstructionsEncode(tokens: seq<Token>)
    requires ParseInstruction(tokens).Some?
    ensures var ins := ParseInstruction(tokens).value.0;
      && Encoding(ins).Ok?
      && (IsFormOne(ins) ==> Encoding(ins).value == [ToByte(ins.opcode.code)])
      && (IsFormTwo(ins) ==>
        var v := AsU16(ins.operand2.value.value);
        Encoding(ins).value ==
          [ToByte(ins.opcode.code), ins.operand1.value.regNum, v / 256, v % 256])
  {
    var ins := ParseInstruction(tokens).value.0;
    ParseShape(tokens);
    if IsFormOne(ins) {
      FormOneEncoding(ins);
    } else {
      FormTwoEncoding(ins);
    }
  }

  /** `hlt` is form one, `load $0 #100` form two, and the latter encodes
      to `[0, 0, 0, 100]`. */
  lemma ParseExamples()
    ensures InstructionOne([Op(HLT)]) ==
      Some((AssemblerInstruction(None, Op(HLT), None, None, None), []))
    ensures InstructionTwo([Op(LOAD), Register(0), IntegerOperand(100)]) ==
      Some((AssemblerInstruction(None, Op(LOAD), Some(Register(0)), Some(IntegerOperand(100)), None), []))
    ensures ParseInstruction([Op(HLT)]) ==
      Some((AssemblerInstruction(None, Op(HLT), None, None, None), []))
    ensures ParseInstruction([Op(LOAD), Register(0), IntegerOperand(100)]) ==
      Some((AssemblerInstruction(None, Op(LOAD), Some(Register(0)), Some(IntegerOperand(100)), None), []))
    ensures Encoding(AssemblerInstruction(None, Op(LOAD), Some(Register(0)), Some(IntegerOperand(100)), None))
      == Ok([0, 0, 0, 100])
  {
    assert [Op(HLT)][1..] == [];
    assert [Op(LOAD), Register(0), IntegerOperand(100)][3..] == [];
    FormTwoEncoding(AssemblerInstruction(None, Op(LOAD), Some(Register(0)), Some(IntegerOperand(100)), None));
  }

  /** Integers are cut to 16 bits: 500 is `[1, 244]`, 65536 is `[0, 0]`,
      -1 is `[255, 255]`; an opcode in an operand slot is refused. */
  lemma OperandExamples()
    ensures OperandBytes(IntegerOperand(500)) == Ok([1, 244])
    ensures OperandBytes(IntegerOperand(65536)) == Ok([0, 0])
    ensures OperandBytes(IntegerOperand(-1)) == Ok([255, 255])
    ensures Encoding(AssemblerInstruction(None, Op(ADD), Some(Register(0)), Some(Op(HLT)), None))
      == Err(OpcodeInOperandField(HLT))
    ensures Encoding(AssemblerInstruction(None, Register(1), None, None, None))
      == Err(NonOpcodeInOpcodeField(Register(1)))
  {
  }
}
