# alvm core in Dafny

alvm is a small register virtual machine with a line-oriented assembler.
This project models its core, the two halves that must agree byte for byte:

- **the instruction format.** There are 17 opcodes, each with a one-byte code (`instruction.rs`). The assembler's encoder (`to_bytes` / `extract_operhand`) writes an instruction as:
  - its opcode byte;
  - one byte per register operand;
  - two big-endian bytes per integer operand.
- **the register machine** (`vm.rs`). Its state is:
  - 32 `i32` registers;
  - a byte-offset program counter;
  - an append-only program buffer;
  - a `u32` remainder;
  - an equality flag.

  One fetch-decode-execute step reads the opcode and then exactly the operand bytes that opcode needs.

Modules:

- `Common` (`common.dfy`) holds `Option`/`Result` and the integer widths the machine uses. It defines `as u16`, `as u32` and `as usize` as explicit reductions, and Rust's truncating `/` and `%`.
- `Instructions` (`instruction.dfy`) holds the opcode table (`FromByte`, `ToByte`), its round trips, and `Instruction::new`.
- `Vm` (`vm.dfy`) holds two things:
  - the step as a function on states, `Step`, plus `RunSpec` for `run`;
  - the class `VM`, whose methods update the registers array, `pc`, `remainder`, `equalFlag` and `program` in place the way the original does. Each method is proved equal to the step function.
- `VmProperties` (`vm_properties.dfy`) states the effect of every opcode family, properties of runs, and the original's unit tests as lemmas.
- `InstructionParsers` (`instruction_parsers.dfy`) covers the assembler side:
  - the encoder, as an imperative method over a growable byte vector, proved against the function `Encoding`;
  - the two instruction forms and their order of preference, over tokens.
- `Agreement` (`agreement.dfy`) proves that what the encoder writes for an instruction is exactly what the machine's step reads, and that the step does what the instruction says.

The original aborts the process in several places:

- a read past the end of the program;
- a register byte above 31;
- checked `i32` overflow, including `i32::MIN / -1`;
- division by zero;
- `usize` overflow in JMPF;
- underflow in JMPB.

In the model, each of these ends the step in `Faulted(fault)` and leaves the machine state as it was. The encoder's `process::exit` becomes an `EncodingFault` result.

## Model

| member | source | states |
|---|---|---|
| Common.AsU16 | src/assembler/instruction_parsers.rs:91 | `as u16` keeps the value mod 2^16: the result is below 2^16, is the identity on 0..65535, and differs from the input by a multiple of 2^16 |
| Common.AsU32 | src/vm.rs:55 | `as u32` on an `i32` is the identity on non-negative values and adds 2^32 to negative ones |
| Common.AsUsize | src/vm.rs:63 | `as usize` on an `i32` is the identity on non-negative values and adds 2^64 to negative ones |
| Common.TruncDiv | src/vm.rs:54 | Rust's `/` on `i32`: the quotient's magnitude is the magnitudes' quotient, and it is zero or negative exactly when the signs differ |
| Common.TruncRem | src/vm.rs:55 | Rust's `%` on `i32`: the remainder's magnitude is the magnitudes' remainder, and it is zero or has the sign of the dividend |
| Common.TruncDivRem | src/vm.rs:54-55 | Rust's `/` and `%` satisfy `a == b*q + r`; the remainder is smaller than the divisor in magnitude and is zero or has the sign of `a`; the quotient is no larger than `a` in magnitude |
| Common.TruncDivExamples | src/vm.rs:54-55 | 200/30 is 6 rem 20; -7/2 is -3 rem -1; 7/-2 is -3 rem 1; `-1 as u32` is 0xffffffff |
| Instructions.FromByte | src/instruction.rs:22-44 | decoding is total, and a byte names a real opcode exactly when it is at most 15 |
| Instructions.ToByte | src/instruction.rs:46-68 | real opcodes encode to 0..15 and only `IGL` encodes to 200 |
| Instructions.FromByteOrder | src/instruction.rs:24-42 | byte k < 16 decodes to the k-th opcode in declaration order; every other byte decodes to `IGL` |
| Instructions.ToByteOrder | src/instruction.rs:48-66 | the k-th real opcode encodes to k |
| Instructions.FromToByte | src/instruction.rs:22-68 | decoding the encoding of any opcode, `IGL` included, gives the opcode back |
| Instructions.ToFromByte | src/instruction.rs:22-68 | for a byte at most 15, encoding its decoding gives the byte back |
| Instructions.ToByteInjective | src/instruction.rs:46-68 | two opcodes with the same code are the same opcode |
| Instructions.NewInstruction | src/instruction.rs:75-79 | `Instruction::new(op)` holds exactly `op` |
| Instructions.NewInstructionInjective | src/instruction.rs:92-95 | two instructions built by `new` are equal exactly when their opcodes are |
| Vm.RegisterOperand | src/vm.rs:37 | a missing operand byte is exactly the overrun fault; otherwise the read succeeds exactly when the byte is below 32, gives that register's `i32` value, and fails with `BadRegister` of that byte |
| Vm.Checked | src/vm.rs:39 | checked `i32` arithmetic succeeds exactly when the result fits an `i32`, and then gives that result |
| Vm.ArithmeticValue | src/vm.rs:36-56 | an arithmetic result is always an `i32`; DIV by zero is `DivisionByZero`; a successful DIV has a non-zero divisor |
| Vm.ExecLoad | src/vm.rs:31-35 | LOAD keeps the program and field ranges, leaves the state alone on a fault, and when running moves `pc` by 4 without touching flag or remainder |
| Vm.ExecArithmetic | src/vm.rs:36-56 | ADD/SUB/MUL/DIV move `pc` by 4 when running, never touch the flag, and only DIV may change the remainder |
| Vm.ArithmeticWrite | src/vm.rs:39 | the second half of an arithmetic step (value, then destination byte) keeps the same frame as `ExecArithmetic` |
| Vm.ExecComparison | src/vm.rs:73-114 | comparisons never change registers or remainder and move `pc` by 4 when running |
| Vm.ComparisonWrite | src/vm.rs:74-78 | the step runs exactly when the padding byte is present, and otherwise faults with an overrun; when it runs the flag becomes `Relation(op, a, b)` and `pc` moves by 4; registers and remainder are untouched |
| Vm.ExecJump | src/vm.rs:61-72 | jumps change only `pc` (registers, remainder and flag are kept); a faulting jump changes nothing |
| Vm.Step | src/vm.rs:25-128 | at the end of the program a step is done and changes nothing; it halts exactly on HLT/IGL, and a halt changes only `pc`, by at most 1; only comparisons change the flag, only DIV the remainder, only LOAD and arithmetic the registers; every running non-jump moves `pc` by 4 |
| Vm.RunSpec | src/vm.rs:14-19 | a bounded run keeps the program and the field ranges |
| Vm.RunFrom | src/vm.rs:16-18 | once a step is done the run stops with that step's result |
| Vm.VM.constructor | src/vm.rs:3-11 | `VM::default()`: zero registers, `pc` 0, empty program, remainder 0, flag false |
| Vm.VM.AddByte | src/vm.rs:150-152 | appends exactly one byte at the end of the program and changes nothing else |
| Vm.VM.DecodeOpcode | src/vm.rs:130-134 | decodes the byte under `pc` and advances `pc` by 1 |
| Vm.VM.Next8Bits | src/vm.rs:136-140 | returns the byte under `pc` and advances by 1; past the end, reports none and leaves `pc` alone |
| Vm.VM.Next16Bits | src/vm.rs:142-148 | returns `hi * 256 + lo` of the next two bytes and advances by 2; past the end, reports none |
| Vm.VM.NextRegister | src/vm.rs:37 | reads the register named by the next byte, exactly as `RegisterOperand` says |
| Vm.VM.ExecuteLoad | src/vm.rs:31-35 | the in-place LOAD ends in the state and outcome `ExecLoad` gives |
| Vm.VM.ExecuteArithmetic | src/vm.rs:36-56 | the in-place arithmetic ends in the state and outcome `ExecArithmetic` gives |
| Vm.VM.WriteArithmetic | src/vm.rs:39 | the in-place write of an arithmetic result matches `ArithmeticWrite` |
| Vm.VM.ExecuteComparison | src/vm.rs:73-114 | the in-place comparison ends in the state and outcome `ExecComparison` gives |
| Vm.VM.WriteComparison | src/vm.rs:77-78 | the in-place flag write and padding read match `ComparisonWrite` |
| Vm.VM.ExecuteJump | src/vm.rs:61-72 | the in-place jump ends in the state and outcome `ExecJump` gives |
| Vm.VM.ExecuteInstruction | src/vm.rs:25-128 | `execute_instruction` ends in exactly the state and outcome `Step` gives |
| Vm.VM.RunOnce | src/vm.rs:21-23 | `run_once` performs exactly one `Step` |
| Vm.VM.Run | src/vm.rs:14-19 | the `while !is_done` loop ends in the state and outcome `RunSpec` gives for the same budget |
| VmProperties.StepAtEndIsNoOp | src/vm.rs:26-28 | with `pc` at or past the end a step is done, changes nothing, and stays so |
| VmProperties.LoadEffect | src/vm.rs:31-35 | LOAD sets the named register to `hi*256 + lo`, a value in 0..65535; other registers, flag and remainder are kept; `pc` moves by 4 |
| VmProperties.LoadFaults | src/vm.rs:32-34 | LOAD faults on a short program and on a register byte above 31 |
| VmProperties.ArithmeticEffect | src/vm.rs:36-56 | ADD/SUB/MUL/DIV write `r1 op r2` (truncating for DIV) into the third byte's register, keep the others, and move `pc` by 4; DIV sets the remainder to `(r1 % r2) as u32` |
| VmProperties.ArithmeticFaults | src/vm.rs:39-55 | DIV by zero, `i32::MIN / -1`, and any result outside `i32` fault and change nothing |
| VmProperties.ArithmeticWriteEffect | src/vm.rs:39-55 | once the value fits, the write step stores it in the destination register, moves `pc` by 4 and, for DIV only, sets the remainder |
| VmProperties.DestinationFaults | src/vm.rs:39-54 | with a value that fits, a missing destination byte faults with an overrun and a byte of 32 or more with `BadRegister`, changing nothing |
| VmProperties.OperandFaults | src/vm.rs:37-116 | for every jump, arithmetic and comparison opcode: a missing first register byte is an overrun and one of 32 or more a `BadRegister`; the same for the second register byte of arithmetic and comparisons, and a missing padding byte of a comparison is an overrun; each fault changes nothing |
| VmProperties.ComparisonEffect | src/vm.rs:73-114 | the next state is exactly the old one with the flag set to the relation between the two registers and `pc` moved past the padding byte by 4 |
| VmProperties.RelationMeaning | src/vm.rs:77-112 | EQ, NEQ, GTE, LTE, LT and GT are `==`, `!=`, `>=`, `<=`, `<` and `>` |
| VmProperties.HaltEffect | src/vm.rs:57-60 | HLT and IGL halt with `pc` advanced by exactly 1 and nothing else changed |
| VmProperties.IllegalByteHalts | src/vm.rs:121-124 | every byte above 15 under `pc` halts after one byte |
| VmProperties.JumpEffect | src/vm.rs:61-72 | for a non-negative register value v: JMP sets `pc` to v; JMPF to `pc+2+v`; JMPB to `pc+2-v` or faults below 0; JMPE to v if the flag is set, else to `pc+2` |
| VmProperties.NegativeJumpTarget | src/vm.rs:63-71 | a negative register cast to `usize` sends JMP, and JMPE with the flag set, beyond the program; JMPB always underflows |
| VmProperties.JumpFreeStep | src/vm.rs:25-128 | a step whose instruction is not a jump never moves `pc` back and moves it by 4 when running, so no jump lies ahead afterwards if none did before |
| VmProperties.JumpFreeRunAdvances | src/vm.rs:14-19 | when no instruction reached from `pc` in 4-byte strides is a jump (operand bytes may hold any value), a run never moves `pc` back and n running steps move it by 4n |
| VmProperties.OperandBytesAreNoJumps | src/vm.rs:31-35 | `load $0 #7; load $6 #100` holds jump codes only as operand bytes, and counts as free of jumps |
| VmProperties.RunFirstStep | src/vm.rs:14-19 | a run is one step and then, unless that step was done, the rest of the run |
| VmProperties.RunSplit | src/vm.rs:14-19 | running m+n steps is running m steps and then, only if those leave the machine running, n more from where they stopped |
| VmProperties.RunFromSplit | src/vm.rs:14-19 | the same split for the rest of a run after any one step's result |
| VmProperties.StepIgnoresAppendedBytes | src/vm.rs:150-152 | appending bytes after a complete instruction does not change what a step does |
| VmProperties.LoadExample | src/vm.rs:166-172 | `[0, 0, 1, 244]` loads 500 into register 0 |
| VmProperties.TwoLoadsAndArithmetic | src/vm.rs:175-210 | for any 16-bit x and y and any ADD/SUB/MUL/DIV whose result fits, the 12-byte program "LOAD 0 x; LOAD 1 y; op 0 1 2" halts with x, y and `x op y` in registers 0, 1 and 2 and the other registers unchanged |
| VmProperties.AddExample | src/vm.rs:175-191 | two LOADs and an ADD leave 100, 200 and 300 in registers 0, 1 and 2 |
| VmProperties.SubExample | src/vm.rs:194-210 | two LOADs and a SUB leave 200, 100 and 100 in registers 0, 1 and 2 |
| VmProperties.MulExample | src/vm.rs:213-222 | 10 * 20 leaves 200 in register 2 |
| VmProperties.DivExample | src/vm.rs:225-235 | 200 / 30 leaves 6 in register 2 and 20 in the remainder |
| VmProperties.HaltExamples | src/vm.rs:238-245 | HLT and the 200 sentinel halt a run with `pc` 1 |
| VmProperties.ForwardJumpExamples | src/vm.rs:248-265 | JMP to 1 gives `pc` 1; JMPF by 2 from 0 gives `pc` 4 |
| VmProperties.BackwardJumpExamples | src/vm.rs:268-277 | JMPB by 6 from 4 gives `pc` 0 |
| VmProperties.JumpIfEqualExample | src/vm.rs:352-361 | JMPE with the flag set and register 0 holding 4 gives `pc` 4 |
| VmProperties.ComparisonOnRegisters | src/vm.rs:73-114 | `op $0 $1` sets the flag to `Relation(op, r0, r1)` |
| VmProperties.EqualityExamples | src/vm.rs:280-301 | 4 == 4 and 4 != 5 set the flag |
| VmProperties.NonStrictOrderExamples | src/vm.rs:304-325 | 5 >= 4 and 3 <= 4 set the flag |
| VmProperties.StrictOrderExamples | src/vm.rs:328-349 | 4 < 4 and 4 > 4 clear the flag |
| InstructionParsers.OperandBytes | src/assembler/instruction_parsers.rs:85-102 | an operand fails exactly when it is an opcode; a register gives its one byte; an integer gives two bytes whose big-endian value is the integer mod 2^16 |
| InstructionParsers.ByteVec.constructor | src/assembler/instruction_parsers.rs:65 | the result vector starts empty |
| InstructionParsers.ByteVec.Push | src/assembler/instruction_parsers.rs:88 | a push appends exactly one byte |
| InstructionParsers.ExtractOperand | src/assembler/instruction_parsers.rs:85-102 | pushes exactly the operand's bytes, or reports an opcode in an operand slot and pushes nothing |
| InstructionParsers.Encoding | src/assembler/instruction_parsers.rs:64-83 | a non-opcode in the opcode field is that fault; otherwise any fault is an opcode in an operand slot, and a success starts with the opcode's byte |
| InstructionParsers.ToBytes | src/assembler/instruction_parsers.rs:64-83 | the loop over the three slots produces exactly `Encoding(ins)` |
| InstructionParsers.SlotsBytesFaults | src/assembler/instruction_parsers.rs:76-80 | slot encoding fails exactly when a slot holds an opcode, naming the first one |
| InstructionParsers.SlotsBytesValue | src/assembler/instruction_parsers.rs:76-80 | slot encoding appends the present operands' bytes in slot order |
| InstructionParsers.EncodingSucceeds | src/assembler/instruction_parsers.rs:66-100 | `to_bytes` succeeds exactly when the opcode slot holds an opcode and no operand slot does; the opcode-slot fault is reported first, then the first bad operand |
| InstructionParsers.EncodingLayout | src/assembler/instruction_parsers.rs:64-96 | the encoding is the opcode's byte followed by operands 1, 2 and 3; its length is 1 plus the operand widths |
| InstructionParsers.FormOneEncoding | src/assembler/instruction_parsers.rs:18-32 | form one encodes to its opcode byte alone |
| InstructionParsers.FormTwoEncoding | src/assembler/instruction_parsers.rs:34-49 | form two encodes to opcode, register, high byte, low byte |
| InstructionParsers.InstructionOne | src/assembler/instruction_parsers.rs:18-32 | form one matches exactly a line that starts with an opcode, and takes that one token |
| InstructionParsers.InstructionTwo | src/assembler/instruction_parsers.rs:34-49 | form two matches exactly opcode, register, integer, and takes those three tokens as opcode, operand 1 and operand 2 |
| InstructionParsers.ParseInstruction | src/assembler/instruction_parsers.rs:51-61 | a line parses exactly when it starts with an opcode, and the result is form one or form two |
| InstructionParsers.ParseShape | src/assembler/instruction_parsers.rs:18-61 | a line parses exactly when it starts with an opcode; the result is form one or form two, read from the front, with the rest left over |
| InstructionParsers.FormTwoFirst | src/assembler/instruction_parsers.rs:51-61 | form two wins whenever it matches; form one is chosen only when form two does not match |
| InstructionParsers.ParseRoundTrip | src/assembler/instruction_parsers.rs:18-61 | reading back a form's tokens gives the instruction and the rest, unless a lone opcode is followed by a register and an integer |
| InstructionParsers.ParsedInstructionsEncode | src/assembler/instruction_parsers.rs:18-96 | every parsed instruction encodes: form one to 1 byte, form two to 4 |
| InstructionParsers.ParseExamples | src/assembler/instruction_parsers.rs:110-144 | `instruction_one` reads `hlt` as form one and `instruction_two` reads `load $0 #100` as LOAD, register 0, integer 100, and so does the combined parser; the latter encodes to `[0, 0, 0, 100]` |
| InstructionParsers.OperandExamples | src/assembler/instruction_parsers.rs:85-102 | 500 encodes to `[1, 244]`, 65536 to `[0, 0]` and -1 to `[255, 255]`; opcodes in the wrong slot are refused |
| Agreement.FitsDecoderEncodes | src/assembler/instruction_parsers.rs:64-96 | an instruction whose operands match its opcode always encodes: 4 bytes for LOAD, arithmetic and comparisons; 2 for jumps; 1 for HLT and IGL |
| Agreement.DecodesOpcode | src/vm.rs:130-134 | the opcode byte the encoder writes decodes to the instruction's opcode |
| Agreement.LoadBytes | src/vm.rs:32-33 | in an encoded `load $r #v`, the byte after the opcode is r and the next two bytes read big-endian are v mod 2^16 |
| Agreement.ThreeRegisterBytes | src/vm.rs:37-39 | in an encoded instruction with three register tokens, bytes 1, 2 and 3 after `pc` are the three register numbers |
| Agreement.OneRegisterBytes | src/vm.rs:62 | in an encoded one-register instruction, the byte after the opcode is the register number |
| Agreement.LoadAgreement | src/vm.rs:31-35 | running an encoded `load $r #v` sets register r to v mod 2^16, changes nothing else, and consumes exactly the encoded bytes |
| Agreement.ArithmeticAgreement | src/vm.rs:36-56 | running an encoded arithmetic instruction writes `a op b` into the encoded destination and consumes exactly the encoded bytes; otherwise it faults and changes nothing |
| Agreement.ComparisonAgreement | src/vm.rs:73-114 | running an encoded comparison sets the flag to the relation between the encoded registers and consumes exactly the encoded bytes |
| Agreement.JumpAgreement | src/vm.rs:61-72 | running an encoded jump reads the encoded register; relative jumps count from the end of the encoded bytes |
| Agreement.HaltAgreement | src/vm.rs:57-60 | running an encoded HLT halts after exactly its one byte |
| Agreement.DecoderConsumesEncoding | src/vm.rs:25-128 | for any instruction shaped for its opcode, the step never reads past the encoded bytes or names a missing register, and every non-jump moves `pc` past exactly those bytes |
| Agreement.LoadRoundTripExample | src/assembler/instruction_parsers.rs:129-144 | `load $0 #100` encodes to `[0, 0, 0, 100]`, and running it loads 100 into register 0 with `pc` 4 |

## Left out

- `src/repl/mod.rs` and `src/main.rs` are not part of this model. They cover reading lines, history, the register dump and exiting the process, which are all I/O. The REPL's only effect on the core is to append bytes (`AddByte`) and run one step (`RunOnce`).
- The character-level assembler grammar is not part of this model: the `nom` combinators, whitespace, the `$`/`#` sigils, `opcode_parsers.rs`, and the `register` and `integer_operand` parsers. Instruction forms are modelled over an already-tokenised line.
  - `Token` is not among the modelled files. It is modelled as `Op`, `Register` (a byte) or `IntegerOperand`.
  - `IntegerOperand` holds an unbounded integer that the encoder cuts with `as u16`.
- The `println!` diagnostics in `execute_instruction` and `to_bytes` are output only and are left out.
- Vm.VM.Run and Vm.RunSpec take a step budget. The original `run` loops until a step is done and may never stop, because jumps can loop. The model says nothing about a run longer than its budget.
- Faults return the state unchanged, while the original panics. A debug build is modelled: `i32` overflow, `i32::MIN / -1`, division by zero, JMPF past `usize::MAX` and JMPB below 0 are faults. The wrapping behaviour of a release build is not modelled.
- Vm.ExecJump follows the code: `i32 as usize` never panics, so JMP and JMPE to a negative register value set `pc` to that value plus 2^64. The next step then halts at the end of the program. Such a jump is not treated as a fault.
- Vm.VM.AddByte requires the program to be shorter than `isize::MAX` bytes, the largest a `Vec<u8>` can hold. Growing past that would abort on allocation, which is not modelled.
- The assembler has no form for three-register arithmetic or comparison instructions, and none is modelled. `ArithmeticAgreement` and `ComparisonAgreement` take instructions built directly with register tokens in the slots.
- The `label` field of an assembler instruction is carried, as `labelName`, but no form sets it.
