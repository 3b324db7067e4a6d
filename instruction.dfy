/** The opcode table: the closed set of operations the virtual machine
    knows, and the total conversions between opcodes and their one-byte
    codes. */
module Instructions {
  import opened Common

  datatype Opcode =
    | LOAD | ADD | SUB | MUL | DIV | HLT
    | JMP | JMPF | JMPB
    | EQ | NEQ | GTE | LTE | LT | GT
    | JMPE
    | IGL  // illegal: what every unknown byte decodes to

  /** The code `IGL` is written as; it lies outside the valid codes 0..15. */
  const IGL_CODE: byte := 200

  /** The sixteen real opcodes in declaration order: opcode `k` has code `k`. */
  const RealOpcodes: seq<Opcode> :=
    [LOAD, ADD, SUB, MUL, DIV, HLT, JMP, JMPF, JMPB, EQ, NEQ, GTE, LTE, LT, GT, JMPE]

  /** Decoding a byte (`From<u8> for Opcode`): total, and exactly the bytes
      0..15 name a real opcode. */
  function FromByte(v: byte): (op: Opcode)
    ensures v <= 15 <==> op != IGL
  {
    match v
    case 0 => LOAD
    case 1 => ADD
    case 2 => SUB
    case 3 => MUL
    case 4 => DIV
    case 5 => HLT
    case 6 => JMP
    case 7 => JMPF
    case 8 => JMPB
    case 9 => EQ
    case 10 => NEQ
    case 11 => GTE
    case 12 => LTE
    case 13 => LT
    case 14 => GT
    case 15 => JMPE
    case _ => IGL
  }

  /** Encoding an opcode (`From<Opcode> for u8`): real opcodes get 0..15 and
      `IGL` gets the sentinel, which is never a valid code. */
  function ToByte(op: Opcode): (b: byte)
    ensures op == IGL <==> b == IGL_CODE
    ensures op != IGL <==> b <= 15
  {
    match op
    case LOAD => 0
    case ADD => 1
    case SUB => 2
    case MUL => 3
    case DIV => 4
    case HLT => 5
    case JMP => 6
    case JMPF => 7
    case JMPB => 8
    case EQ => 9
    case NEQ => 10
    case GTE => 11
    case LTE => 12
    case LT => 13
    case GT => 14
    case JMPE => 15
    case IGL => 200
  }

  /** Bytes 0..15 decode in declaration order; all others decode to `IGL`. */
  lemma FromByteOrder(v: byte)
    ensures v < |RealOpcodes| ==> FromByte(v) == RealOpcodes[v]
    ensures v >= |RealOpcodes| ==> FromByte(v) == IGL
  {
  }

  /** Real opcodes encode to their position in declaration order. */
  lemma ToByteOrder(k: nat)
    requires k < |RealOpcodes|
    ensures ToByte(RealOpcodes[k]) == k
  {
  }

  /** Round trip: decoding the encoding of any opcode, `IGL` included,
      gives the opcode back. */
  lemma FromToByte(op: Opcode)
    ensures FromByte(ToByte(op)) == op
  {
  }

  /** Round trip on valid codes: encoding the decoding of 0..15 gives the byte back. */
  lemma ToFromByte(v: byte)
    requires v <= 15
    ensures ToByte(FromByte(v)) == v
  {
  }

  /** Encoding is injective: two opcodes with one code are one opcode. */
  lemma ToByteInjective(a: Opcode, b: Opcode)
    ensures ToByte(a) == ToByte(b) ==> a == b
  {
    if ToByte(a) == ToByte(b) {
      FromToByte(a);
      FromToByte(b);
    }
  }

  /** An instruction as the virtual machine's instruction type holds it. */
  datatype Instruction = Instruction(opcode: Opcode)

  /** `Instruction::new`: the instruction stores exactly the opcode given,
      so two instructions built from different opcodes differ. */
  function NewInstruction(opcode: Opcode): (i: Instruction)
    ensures i.opcode == opcode
  {
    Instruction(opcode)
  }

  lemma NewInstructionInjective(a: Opcode, b: Opcode)
    ensures NewInstruction(a) == NewInstruction(b) <==> a == b
  {
  }
}
