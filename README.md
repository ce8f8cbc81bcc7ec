# Fantasy (Lanai) backend core in Dafny

This project models the target-specific core of the Fantasy backend, a renamed copy of LLVM's Lanai
backend, and proves properties about that model. It covers these parts:

- **Instruction selection** (`isel_dag_to_dag.dfy`):
  - the addressing-mode matchers `selectAddrSls`, `selectAddrRiSpls`, `selectAddrRi`, `selectAddrSpls` and `selectAddrRr`, over a small tree of selection-DAG nodes;
  - the inline-assembly memory operand, which appends to an operand vector.
- **Frame-index elimination** (`register_info.dfy`):
  - the reserved registers, the opcode helpers, and the frame-register choice;
  - `eliminateFrameIndex` as a method that edits a basic block in place: it builds, erases and updates instructions;
  - the method is proved equal to a functional description, and lemmas are proved about that description.
- **Opcode classes** (`instr_info.dfy`) and **register numbering and operand flags** (`base_info.dfy`).
- **Machine-code emission** (`mc_code_emitter.dfy`):
  - operand values and the fixups they record, and the P/Q bits;
  - the RI, RR, SPLS and branch operand encodings;
  - the big-endian output of a 32-bit instruction word, written byte by byte.
- **ELF relocations** (`elf_object_writer.dfy`): the fixup-to-relocation mapping and the relocate-with-symbol decision.
- **Assembly printing** (`inst_printer.dfy`): the increment aliases, the memory operands, the hi/lo immediates and the condition codes.
- **Target expressions** (`mc_expr.dfy`): printing and relocatable evaluation.
- **Target description** (`mc_target_desc.dfy`): branch-target evaluation, the default CPU name and the printer's syntax variant.

**Representation.** MC-layer immediates (`int64_t`) are `bv64` bit patterns. Encodings and ALU codes
(`unsigned`) are `bv32`. Instruction-selection constants and frame offsets are mathematical `int`s,
and the source's 32-bit range limits are stated as preconditions.

**Parameters.** Several things are parameters rather than fixed values:

- The generated `LPAC` and `LPCC` helpers are the datatypes `AluCode.Lpac` and `CondCode.Lpcc`. They hold uninterpreted functions and constants, and a `Valid` predicate states the only facts the code relies on.
- Register names, `formatHex`, decimal printing and expression printing are the fields of `InstPrinter.Formatter`.
- The operand table of `evaluateBranch` is the parameter `pcRel`.
- The register the scavenger finds is the parameter `scratch`.

## Model

| member | source | states |
|---|---|---|
| InstrInfo.OpcodeClasses | llvm/lib/Target/Fantasy/FantasyInstrInfo.h:145-184 | The SPLS, RM and RRM predicates hold for exactly the listed opcodes. |
| InstrInfo.OpcodeClassesDisjoint | llvm/lib/Target/Fantasy/FantasyInstrInfo.h:145-184 | No opcode is both SPLS and RM, and no RRM opcode is either of them. |
| BaseInfo.RegisterNumbering | llvm/lib/Target/Fantasy/MCTargetDesc/FantasyBaseInfo.h:41-117 | Every numbered register maps into [0, 31], and Rn maps to n. |
| BaseInfo.AliasNumbering | llvm/lib/Target/Fantasy/MCTargetDesc/FantasyBaseInfo.h:47-81 | PC, SP, FP, RV, RR1, RR2 and RCA share the numbers of R2, R4, R5, R8, R10, R11 and R15. |
| BaseInfo.NumberingInjective | llvm/lib/Target/Fantasy/MCTargetDesc/FantasyBaseInfo.h:43-112 | Distinct Rn get distinct numbers. |
| BaseInfo.FlagValue | llvm/lib/Target/Fantasy/MCTargetDesc/FantasyBaseInfo.h:29-38 | Each operand flag has a value below 3. |
| BaseInfo.FlagsOrdered | llvm/lib/Target/Fantasy/MCTargetDesc/FantasyBaseInfo.h:29-38 | The flags are distinct and ordered MO_NO_FLAG < MO_ABS_HI < MO_ABS_LO. |
| ISelDAGToDAG.LowTwoBitsClear | llvm/lib/Target/Fantasy/FantasyISelDAGToDAG.cpp:95-98 | The two low two's-complement bits of a constant (`& 0x3`) are both clear exactly when it is a multiple of 4, negative constants included. |
| ISelDAGToDAG.CanBeRepresentedAsSls | llvm/lib/Target/Fantasy/FantasyISelDAGToDAG.cpp:95-98 | True exactly for a 21-bit signed constant that is a multiple of 4. |
| ISelDAGToDAG.SelectAddrSls | llvm/lib/Target/Fantasy/FantasyISelDAGToDAG.cpp:104-120 | Succeeds exactly for an SLS-representable constant or an OR with a SMALL operand, and returns the target constant or the small operand. |
| ISelDAGToDAG.SelectAddrRiSpls | llvm/lib/Target/Fantasy/FantasyISelDAGToDAG.cpp:122-200 | States when it declines. On success it returns an ADD with a target-constant offset. It also states the result for a fitting constant, a frame index and an ADD of a fitting constant; any other success is base + 0. |
| ISelDAGToDAG.SelectAddrRi | llvm/lib/Target/Fantasy/FantasyISelDAGToDAG.cpp:202-205 | Declines exactly for direct calls and for SLS addresses that are not a fitting ADD; any offset it returns is a 16-bit signed ADD offset. |
| ISelDAGToDAG.SelectAddrSpls | llvm/lib/Target/Fantasy/FantasyISelDAGToDAG.cpp:207-210 | Declines exactly for direct calls; any offset it returns is a 10-bit signed ADD offset. |
| ISelDAGToDAG.AluCodeOf | llvm/lib/Target/Fantasy/FantasyISelDAGToDAG.cpp:224-225 | A node that is not a binary operation has the UNKNOWN ALU code. |
| ISelDAGToDAG.SelectAddrRr | llvm/lib/Target/Fantasy/FantasyISelDAGToDAG.cpp:212-250 | Succeeds exactly for a binary node with a known ALU code, no 16-bit constant rhs and no HI/LO/SMALL operand. It returns the two operands and the code. |
| ISelDAGToDAG.RrAcceptedImpliesRiAccepted | llvm/lib/Target/Fantasy/FantasyISelDAGToDAG.cpp:122-250 | Whenever the RR form matches, the RI form also matches, as base + 0. |
| ISelDAGToDAG.RiDeclinesOnlyForSlsOrCalls | llvm/lib/Target/Fantasy/FantasyISelDAGToDAG.cpp:104-205 | When RI declines, the address is a direct call or an SLS address, and is never a 16-bit constant. |
| ISelDAGToDAG.ConstantLeftToSls | llvm/lib/Target/Fantasy/FantasyISelDAGToDAG.cpp:95-205 | A constant that RI declines is a 21-bit, 4-aligned constant outside 16 bits, which SLS accepts. |
| ISelDAGToDAG.SelectInlineAsmMemoryOperand | llvm/lib/Target/Fantasy/FantasyISelDAGToDAG.cpp:252-269 | Fails exactly for a non-memory constraint or when neither RR nor RI matches, leaving the vector unchanged. Otherwise it appends the RR triple, or the RI triple when RR does not match. |
| RegisterInfo.GetReservedRegs | llvm/lib/Target/Fantasy/FantasyRegisterInfo.cpp:45-66 | Reserves R0, R1, PC, SP, FP, RR1, RR2 and RCA and their aliases, and R14 exactly when there is a base pointer; nothing else is reserved. |
| RegisterInfo.ReservedRegsCloseAliases | llvm/lib/Target/Fantasy/FantasyRegisterInfo.cpp:45-66 | For every reserved register, the Rn with its number is reserved too. |
| RegisterInfo.ALUArithLoOpcodeIsNotMemory | llvm/lib/Target/Fantasy/FantasyRegisterInfo.cpp:78-92 | No ALU-lo opcode is an SPLS, RM or RRM load or store. |
| RegisterInfo.GetOppositeALULoOpcode | llvm/lib/Target/Fantasy/FantasyRegisterInfo.cpp:94-115 | Maps an ALU-lo opcode to an ALU-lo opcode, swapping add-like and subtract-like. |
| RegisterInfo.OppositeALULoOpcodeInvolution | llvm/lib/Target/Fantasy/FantasyRegisterInfo.cpp:94-115 | Taking the opposite twice gives back the opcode. |
| RegisterInfo.GetRRMOpcodeVariant | llvm/lib/Target/Fantasy/FantasyRegisterInfo.cpp:117-138 | Every SPLS or RM opcode gets an RRM variant, and LDWz_RR never occurs. |
| RegisterInfo.RRMOpcodeVariantInjective | llvm/lib/Target/Fantasy/FantasyRegisterInfo.cpp:117-138 | Distinct opcodes get distinct RRM variants. |
| RegisterInfo.FrameReg | llvm/lib/Target/Fantasy/FantasyRegisterInfo.cpp:162-168 | Fixed objects (negative index) use the frame register. Other objects use R14 when there is a base pointer, otherwise SP when the stack is realigned, otherwise the frame register. |
| RegisterInfo.BasePointerAddressesLocals | llvm/lib/Target/Fantasy/FantasyRegisterInfo.cpp:254-262 | A non-fixed object is addressed from R14 exactly when the stack is realigned and has variable-sized objects. |
| RegisterInfo.FrameOffset | llvm/lib/Target/Fantasy/FantasyRegisterInfo.cpp:154-160 | The offset is the object's offset plus the operand's immediate. The stack size is added whenever the object is addressed from SP or the base pointer, and whenever there is no frame pointer. It is not added for any object addressed from an existing frame pointer. Together with the first clause, the stack size is added exactly when the `!HasFP || (realignment && FI >= 0)` test of the source holds. |
| RegisterInfo.FrameRegIsReserved | llvm/lib/Target/Fantasy/FantasyRegisterInfo.cpp:162-168 | The register chosen to address a frame object is always reserved. |
| RegisterInfo.MaterializeOffset | llvm/lib/Target/Fantasy/FantasyRegisterInfo.cpp:190-202 | A 16-bit magnitude takes one instruction; any other takes two. |
| RegisterInfo.MaterializeOffsetCorrect | llvm/lib/Target/Fantasy/FantasyRegisterInfo.cpp:190-202 | Afterwards the register holds exactly the magnitude. No frame index is written, and every immediate fits 16 unsigned bits. |
| RegisterInfo.CombineWithScratch | llvm/lib/Target/Fantasy/FantasyRegisterInfo.cpp:203-231 | For ADD_I_LO the combining instruction is SUB_R exactly for a negative offset and ADD_R otherwise. A load or store becomes an RRM opcode. Either way it reads the frame register. |
| RegisterInfo.RewriteViaScratch | llvm/lib/Target/Fantasy/FantasyRegisterInfo.cpp:174-231 | The out-of-range rewrite has at least two instructions. Before the last one runs, the scratch register holds the offset's magnitude. |
| RegisterInfo.RewriteShape | llvm/lib/Target/Fantasy/FantasyRegisterInfo.cpp:174-251 | A rewrite is a single instruction exactly when the offset fits the immediate field, and its last instruction reads the frame register. |
| RegisterInfo.EliminatedShape | llvm/lib/Target/Fantasy/FantasyRegisterInfo.cpp:140-252 | The same for a whole elimination, with the offset and frame register that elimination computes. |
| RegisterInfo.OperandsWithAluOp | llvm/lib/Target/Fantasy/FantasyRegisterInfo.cpp:217-223 | Changing the ALU operation keeps the operand count. |
| RegisterInfo.RewriteHasNoFrameIndex | llvm/lib/Target/Fantasy/FantasyRegisterInfo.cpp:174-251 | If the eliminated operand was the only frame index, none of the replacement instructions has one. |
| RegisterInfo.EliminatedHasNoFrameIndex | llvm/lib/Target/Fantasy/FantasyRegisterInfo.cpp:140-252 | The same for a whole elimination. |
| RegisterInfo.EliminatedInRange | llvm/lib/Target/Fantasy/FantasyRegisterInfo.cpp:234-251 | For an offset that fits there is one instruction: either the opposite ALU operation on the negated offset in [1, 2^15], or the same instruction with the frame register and offset, all else unchanged. |
| RegisterInfo.EliminatedOutOfRangeAdd | llvm/lib/Target/Fantasy/FantasyRegisterInfo.cpp:174-214 | For ADD_I_LO, the scratch register is loaded with the offset's magnitude. Then an ADD_R, or a SUB_R for a negative offset, writes the original destination. |
| RegisterInfo.EliminatedOutOfRangeMemory | llvm/lib/Target/Fantasy/FantasyRegisterInfo.cpp:174-231 | For a load or store, the scratch register is loaded with the offset's magnitude and the instruction becomes its RRM form on the frame register and the killed scratch register. Its ALU operation becomes SUB for a negative offset. |
| RegisterInfo.OutOfRangeSplit | llvm/lib/Target/Fantasy/FantasyRegisterInfo.cpp:174-231 | An out-of-range elimination is the materialisation followed by one combining instruction. |
| RegisterInfo.BuildMaterializeOffset | llvm/lib/Target/Fantasy/FantasyRegisterInfo.cpp:190-202 | The block gains the materialisation before the position and is unchanged elsewhere. |
| RegisterInfo.ToRegisterRegisterForm | llvm/lib/Target/Fantasy/FantasyRegisterInfo.cpp:215-231 | The in-place edits (setDesc, setImm, ChangeToRegister) give the combining instruction of the functional description. |
| RegisterInfo.BuildCombine | llvm/lib/Target/Fantasy/FantasyRegisterInfo.cpp:203-231 | The instruction built for the out-of-range case is the combining instruction of the functional description. |
| RegisterInfo.PlaceRewrite | llvm/lib/Target/Fantasy/FantasyRegisterInfo.cpp:190-231 | The block holds the materialisation and then the combining instruction in place of the instruction, and is unchanged elsewhere. |
| RegisterInfo.ReplaceByNew | llvm/lib/Target/Fantasy/FantasyRegisterInfo.cpp:204-213 | Building the new instruction before the old one and erasing the old one replaces exactly that position. |
| RegisterInfo.RewriteInPlace | llvm/lib/Target/Fantasy/FantasyRegisterInfo.cpp:234-251 | The block holds the in-range rewrite in place of the instruction, and is unchanged elsewhere. |
| RegisterInfo.RewriteThroughScratch | llvm/lib/Target/Fantasy/FantasyRegisterInfo.cpp:174-232 | The block holds the out-of-range rewrite in place of the instruction. |
| RegisterInfo.EliminateFrameIndex | llvm/lib/Target/Fantasy/FantasyRegisterInfo.cpp:140-252 | The block afterwards holds the eliminated instructions in place of the original and is unchanged elsewhere. |
| McExpr.KindName | llvm/lib/Target/Fantasy/MCTargetDesc/FantasyMCExpr.cpp:28-38 | Each modifier name has two letters. |
| McExpr.PrintImpl | llvm/lib/Target/Fantasy/MCTargetDesc/FantasyMCExpr.cpp:23-44 | The None kind prints the subexpression unchanged; other kinds print it wrapped as `xx(` … `)`. |
| McExpr.PrintImplInjective | llvm/lib/Target/Fantasy/MCTargetDesc/FantasyMCExpr.cpp:23-44 | For kinds other than None, the printed text determines the kind and the subexpression. |
| McExpr.EvaluateAsRelocatableImpl | llvm/lib/Target/Fantasy/MCTargetDesc/FantasyMCExpr.cpp:50-60 | Fails exactly when the subexpression fails. Otherwise it keeps the symbols and constant, and the reference kind becomes this expression's kind. |
| McExpr.EvaluateNestedTakesOuterKind | llvm/lib/Target/Fantasy/MCTargetDesc/FantasyMCExpr.cpp:50-60 | Nesting two target expressions evaluates as the outer one alone. |
| McCodeEmitter.FixupKindOf | llvm/lib/Target/Fantasy/MCTargetDesc/FantasyMCCodeEmitter.cpp:91-106 | A symbol or a None-kind expression gives 21, ABS_HI gives HI16, ABS_LO gives LO16, and anything else gives the generic kind 0. Each case is stated both ways. |
| McCodeEmitter.MachineOpValue | llvm/lib/Target/Fantasy/MCTargetDesc/FantasyMCCodeEmitter.cpp:110-133 | A register gives its number (`getFantasyRegisterNumbering`), which is below 32. An immediate gives its low 32 bits, and an expression gives 0. |
| McCodeEmitter.MachineOpFixups | llvm/lib/Target/Fantasy/MCTargetDesc/FantasyMCCodeEmitter.cpp:118-132 | Only an expression records one fixup, at offset 0, with the kind of its symbolic side. |
| McCodeEmitter.MachineOpFixupsHaveKind | llvm/lib/Target/Fantasy/MCTargetDesc/FantasyMCCodeEmitter.cpp:91-132 | Recorded operand fixups are always 21, HI16 or LO16. |
| McCodeEmitter.GetMachineOpValue | llvm/lib/Target/Fantasy/MCTargetDesc/FantasyMCCodeEmitter.cpp:110-133 | Returns the operand value and appends exactly the operand's fixups. |
| McCodeEmitter.PlacePqSetsQ | llvm/lib/Target/Fantasy/MCTargetDesc/FantasyMCCodeEmitter.cpp:136-160 | Q is written last, so bit `QBitShift` ends up as the Q flag whatever `PBitShift` is. |
| McCodeEmitter.PlacePqRmAndRrm | llvm/lib/Target/Fantasy/MCTargetDesc/FantasyMCCodeEmitter.cpp:141-157 | With shifts 17 and 16, bit 17 is the P flag and bit 16 the Q flag, and every other bit is kept. |
| McCodeEmitter.PlacePqSpls | llvm/lib/Target/Fantasy/MCTargetDesc/FantasyMCCodeEmitter.cpp:141-157 | With shifts 11 and 10, bit 11 is the P flag and bit 10 the Q flag, and every other bit is kept. |
| McCodeEmitter.AdjustPqBitsRmAndRrm | llvm/lib/Target/Fantasy/MCTargetDesc/FantasyMCCodeEmitter.cpp:162-166 | Bit 17 is P, bit 16 is Q, and no other bit changes. |
| McCodeEmitter.AdjustPqBitsSpls | llvm/lib/Target/Fantasy/MCTargetDesc/FantasyMCCodeEmitter.cpp:168-172 | Bit 11 is P, bit 10 is Q, and no other bit changes. |
| McCodeEmitter.SymbolicOffsetSetsOnlyP | llvm/lib/Target/Fantasy/MCTargetDesc/FantasyMCCodeEmitter.cpp:141-157 | A symbolic offset never sets Q and sets P unless the code is a post-op. |
| McCodeEmitter.ZeroOffsetSetsNeither | llvm/lib/Target/Fantasy/MCTargetDesc/FantasyMCCodeEmitter.cpp:141-157 | An offset of 0 or R0 sets neither P nor Q, in either form. |
| McCodeEmitter.QBitNeedsModifyingOp | llvm/lib/Target/Fantasy/MCTargetDesc/FantasyMCCodeEmitter.cpp:150-157 | Q is only set for a pre- or post-op code. |
| McCodeEmitter.RiImmediateFieldDecodes | llvm/lib/Target/Fantasy/MCTargetDesc/FantasyMCCodeEmitter.cpp:187-217 | The base register number is in bits 18 and up. A 16-bit offset is recovered by sign-extending the low field. P is set iff the offset is nonzero and the code is a pre-op; Q iff it is nonzero and the code is a pre- or post-op. |
| McCodeEmitter.RiWordSymbolic | llvm/lib/Target/Fantasy/MCTargetDesc/FantasyMCCodeEmitter.cpp:201-214 | A symbolic RI offset leaves the low 18 bits 0 for the linker, with the register in bits 18 and up. |
| McCodeEmitter.SplsImmediateFieldDecodes | llvm/lib/Target/Fantasy/MCTargetDesc/FantasyMCCodeEmitter.cpp:257-287 | The same for SPLS: register in bits 12 and up, a 10-bit offset recovered from the low 10 bits, P in bit 11 and Q in bit 10. |
| McCodeEmitter.SplsWordSymbolic | llvm/lib/Target/Fantasy/MCTargetDesc/FantasyMCCodeEmitter.cpp:271-284 | A symbolic SPLS offset leaves the low 12 bits 0, with the register in bits 12 and up. |
| McCodeEmitter.ShiftBits | llvm/lib/Target/Fantasy/MCTargetDesc/FantasyMCCodeEmitter.cpp:242-252 | The shift field is 0x10 exactly for SHL or SRL. It is 0x18 only for SRA, and always for SRA when the ALU table is valid. It is 0 exactly for the other operations. |
| McCodeEmitter.RrFieldDecodes | llvm/lib/Target/Fantasy/MCTargetDesc/FantasyMCCodeEmitter.cpp:219-255 | Both register numbers, the 3-bit ALU code, P (iff pre-op), Q (iff pre- or post-op) and the shift bits can all be read back from the word. |
| McCodeEmitter.OffsetFixups | llvm/lib/Target/Fantasy/MCTargetDesc/FantasyMCCodeEmitter.cpp:213-214 | An immediate offset records no fixup. |
| McCodeEmitter.GetRiMemoryOpValue | llvm/lib/Target/Fantasy/MCTargetDesc/FantasyMCCodeEmitter.cpp:187-217 | Returns the RI word of the operands and appends only the offset's fixups. |
| McCodeEmitter.GetSplsOpValue | llvm/lib/Target/Fantasy/MCTargetDesc/FantasyMCCodeEmitter.cpp:257-287 | Returns the SPLS word and appends only the offset's fixups. |
| McCodeEmitter.GetRrMemoryOpValue | llvm/lib/Target/Fantasy/MCTargetDesc/FantasyMCCodeEmitter.cpp:219-255 | Returns the RR word of the two registers and the ALU code. Under a valid ALU table, the base register, offset register, encoded ALU operation and shift kind read back from bits 15 and up, 10-14, 5-7 and 0-4. |
| McCodeEmitter.BranchFixups | llvm/lib/Target/Fantasy/MCTargetDesc/FantasyMCCodeEmitter.cpp:289-300 | Exactly an expression target records one fixup, and every branch fixup has kind 25 at offset 0. |
| McCodeEmitter.GetBranchTargetOpValue | llvm/lib/Target/Fantasy/MCTargetDesc/FantasyMCCodeEmitter.cpp:289-300 | A register or immediate gives its operand value; an expression gives 0 and appends a 25-bit fixup. |
| McCodeEmitter.BigEndianBytes | llvm/lib/Target/Fantasy/MCTargetDesc/FantasyMCCodeEmitter.cpp:180-183 | Exactly four bytes are written. |
| McCodeEmitter.BigEndianRoundTrip | llvm/lib/Target/Fantasy/MCTargetDesc/FantasyMCCodeEmitter.cpp:180-183 | Reassembling the bytes, most significant first, gives back the word. |
| McCodeEmitter.BigEndianBytesRoundTrip | llvm/lib/Target/Fantasy/MCTargetDesc/FantasyMCCodeEmitter.cpp:180-183 | Any four bytes are the output of the word they assemble to. |
| McCodeEmitter.EncodedStream | llvm/lib/Target/Fantasy/MCTargetDesc/FantasyMCCodeEmitter.cpp:180-183 | Consecutively encoded instructions take four bytes each. |
| McCodeEmitter.DecodedStream | llvm/lib/Target/Fantasy/MCTargetDesc/FantasyMCCodeEmitter.cpp:180-183 | A stream whose length is a multiple of four splits into a quarter as many words. |
| McCodeEmitter.StreamRoundTrip | llvm/lib/Target/Fantasy/MCTargetDesc/FantasyMCCodeEmitter.cpp:180-183 | A stream of encoded instructions splits back into exactly the instruction words, in order. |
| McCodeEmitter.EncodedStreamAppend | llvm/lib/Target/Fantasy/MCTargetDesc/FantasyMCCodeEmitter.cpp:174-184 | Encoding one more word extends the stream by exactly that word's four bytes. |
| McCodeEmitter.StreamTailAppend | llvm/lib/Target/Fantasy/MCTargetDesc/FantasyMCCodeEmitter.cpp:174-184 | A stream that ends with the encoding of the words emitted so far still does so once one more word's four bytes are appended. |
| McCodeEmitter.CodeEmitter.EncodeInstruction | llvm/lib/Target/Fantasy/MCTargetDesc/FantasyMCCodeEmitter.cpp:174-184 | The byte loop appends exactly the big-endian bytes of the value and counts one instruction. It records the word in the emitted sequence, and it keeps the stream ending with `EncodedStream` of every word emitted so far, so successive calls leave the stream extended by the encoding of their words in order. |
| ElfObjectWriter.CreateWriter | llvm/lib/Target/Fantasy/MCTargetDesc/FantasyELFObjectWriter.cpp:36-38 | The writer is 32-bit, EM_LANAI and uses addends, with the OS ABI given. |
| ElfObjectWriter.RelocTypeOf | llvm/lib/Target/Fantasy/MCTargetDesc/FantasyELFObjectWriter.cpp:46-69 | Every handled fixup kind maps to a Lanai relocation type, never to an unhandled one. |
| ElfObjectWriter.GetRelocType | llvm/lib/Target/Fantasy/MCTargetDesc/FantasyELFObjectWriter.cpp:40-73 | The type is determined by the fixup kind alone. |
| ElfObjectWriter.GetRelocTypeIgnoresContext | llvm/lib/Target/Fantasy/MCTargetDesc/FantasyELFObjectWriter.cpp:40-45 | The target value and the PC-relative flag do not change the type. |
| ElfObjectWriter.FixupKindFor | llvm/lib/Target/Fantasy/MCTargetDesc/FantasyELFObjectWriter.cpp:46-69 | Exactly the Lanai relocation types have a fixup kind that produces them. |
| ElfObjectWriter.RelocTypeOfFixupKindFor | llvm/lib/Target/Fantasy/MCTargetDesc/FantasyELFObjectWriter.cpp:46-69 | Every relocation type's fixup kind maps back to that type. |
| ElfObjectWriter.FixupKindForRelocTypeOf | llvm/lib/Target/Fantasy/MCTargetDesc/FantasyELFObjectWriter.cpp:46-69 | Every handled fixup kind other than the 4-byte data fixup is recovered from its relocation type. |
| ElfObjectWriter.RelocTypeOfCollisions | llvm/lib/Target/Fantasy/MCTargetDesc/FantasyELFObjectWriter.cpp:56-59 | Two distinct kinds share a type exactly when they are FIXUP_LANAI_32 and the 4-byte data fixup. |
| ElfObjectWriter.NeedsRelocateWithSymbolExactly | llvm/lib/Target/Fantasy/MCTargetDesc/FantasyELFObjectWriter.cpp:76-88 | True exactly for R_LANAI_21, 21_F, 25, 32 and HI16. |
| ElfObjectWriter.OperandFixupsHaveRelocType | llvm/lib/Target/Fantasy/MCTargetDesc/FantasyELFObjectWriter.cpp:40-73 | Every fixup recorded for an encodable operand has a relocation type, so the unreachable default is never taken. |
| ElfObjectWriter.BranchFixupsRelocateWithSymbol | llvm/lib/Target/Fantasy/MCTargetDesc/FantasyELFObjectWriter.cpp:76-88 | Branch fixups become R_LANAI_25 relocations that keep their symbol. |
| InstPrinter.IncrementForms | llvm/lib/Target/Fantasy/MCTargetDesc/FantasyInstPrinter.cpp:49-64 | The pre- (post-) increment form holds exactly for a pre- (post-) op code whose encoding is ADD, with an offset of plus or minus the given one. Negating the given offset changes neither form. |
| InstPrinter.UsesGivenOffsetIgnoresSign | llvm/lib/Target/Fantasy/MCTargetDesc/FantasyInstPrinter.cpp:49-54 | Negating the given offset does not change whether it is used. |
| InstPrinter.NoFormWithoutModifyingAdd | llvm/lib/Target/Fantasy/MCTargetDesc/FantasyInstPrinter.cpp:49-64 | A code that is not a pre- or post-op, or whose encoding is not ADD, gives neither form. This holds whatever operands 0 to 2 are, since only operand 3 is read. |
| InstPrinter.FormHasOperands | llvm/lib/Target/Fantasy/MCTargetDesc/FantasyInstPrinter.cpp:72-108 | Once a form holds, the two registers and the immediate offset it prints can be read. |
| InstPrinter.DecIncOperator | llvm/lib/Target/Fantasy/MCTargetDesc/FantasyInstPrinter.cpp:66-70 | "--" exactly for a negative offset, and "++" otherwise. |
| InstPrinter.PrintMemoryLoadIncrement | llvm/lib/Target/Fantasy/MCTargetDesc/FantasyInstPrinter.cpp:72-89 | Prints nothing exactly when the instruction is neither in pre- nor in post-increment form; otherwise it uses the given offset. |
| InstPrinter.PrintMemoryStoreIncrement | llvm/lib/Target/Fantasy/MCTargetDesc/FantasyInstPrinter.cpp:91-108 | The same for stores. |
| InstPrinter.LoadStoreIncrementMirrored | llvm/lib/Target/Fantasy/MCTargetDesc/FantasyInstPrinter.cpp:72-108 | Loads and stores print the same address and register in mirrored order, and fail together. |
| InstPrinter.IncrementAddressShowsForm | llvm/lib/Target/Fantasy/MCTargetDesc/FantasyInstPrinter.cpp:76-86 | The operator comes right after `[` for pre-increment and right before `]` for post-increment. |
| InstPrinter.AliasOf | llvm/lib/Target/Fantasy/MCTargetDesc/FantasyInstPrinter.cpp:110-139 | Exactly the SPLS and RM opcodes have an alias; the loads are LDW/LDHs/LDHz/LDBs/LDBz_RI. |
| InstPrinter.AliasSizes | llvm/lib/Target/Fantasy/MCTargetDesc/FantasyInstPrinter.cpp:110-139 | Word opcodes step by 4, half-word ones by 2 and byte ones by 1. |
| InstPrinter.PrintAlias | llvm/lib/Target/Fantasy/MCTargetDesc/FantasyInstPrinter.cpp:110-139 | Other opcodes print nothing; an RI load or store prints exactly in pre- or post-increment form with its size. |
| InstPrinter.PlainCodeHasNoAlias | llvm/lib/Target/Fantasy/MCTargetDesc/FantasyInstPrinter.cpp:110-139 | An RI load or store whose code is not a pre- or post-op ADD prints no alias, even with an expression offset such as `ld lo(x)[%r1], %r3`. |
| InstPrinter.PrintMemoryBaseRegister | llvm/lib/Target/Fantasy/MCTargetDesc/FantasyInstPrinter.cpp:214-224 | Bracketed text whose length counts one star for a pre-op and one for a post-op. |
| InstPrinter.BaseRegisterMarksRoundTrip | llvm/lib/Target/Fantasy/MCTargetDesc/FantasyInstPrinter.cpp:214-224 | The pre/post choice is read back from the printed text. |
| InstPrinter.PrintMemoryImmediateOffset | llvm/lib/Target/Fantasy/MCTargetDesc/FantasyInstPrinter.cpp:226-236 | An immediate prints in decimal, and an expression prints as itself. |
| InstPrinter.MemRiOperandShowsOffsetAndMarks | llvm/lib/Target/Fantasy/MCTargetDesc/FantasyInstPrinter.cpp:214-251 | A printed RI operand starts with the offset's text and ends with `]`, and the pre/post choice of its ALU code can be read back from the rest. |
| InstPrinter.SplsPrintsAsRi | llvm/lib/Target/Fantasy/MCTargetDesc/FantasyInstPrinter.cpp:238-287 | A 10-bit SPLS offset is also a 16-bit RI offset, and the two forms print identical text. |
| InstPrinter.MemRrExtendsBaseRegister | llvm/lib/Target/Fantasy/MCTargetDesc/FantasyInstPrinter.cpp:253-272 | The RR form is the base-register text with ` <alu> %<offset>` inserted before `]`. |
| InstPrinter.Hi16Value | llvm/lib/Target/Fantasy/MCTargetDesc/FantasyInstPrinter.cpp:178-188 | The low 16 bits are zero. |
| InstPrinter.Hi16AndValue | llvm/lib/Target/Fantasy/MCTargetDesc/FantasyInstPrinter.cpp:190-200 | The low 16 bits are all ones. |
| InstPrinter.Lo16AndValue | llvm/lib/Target/Fantasy/MCTargetDesc/FantasyInstPrinter.cpp:202-212 | Bits 16 to 31 are all ones. |
| InstPrinter.Hi16ValueRoundTrip | llvm/lib/Target/Fantasy/MCTargetDesc/FantasyInstPrinter.cpp:178-188 | A 16-bit immediate is recovered from the upper half. |
| InstPrinter.Hi16AndValueRoundTrip | llvm/lib/Target/Fantasy/MCTargetDesc/FantasyInstPrinter.cpp:190-200 | A 16-bit immediate is recovered from the upper half. |
| InstPrinter.Lo16AndValueRoundTrip | llvm/lib/Target/Fantasy/MCTargetDesc/FantasyInstPrinter.cpp:202-212 | A 16-bit immediate is recovered from the lower half. |
| InstPrinter.PrintHi16ImmOperand | llvm/lib/Target/Fantasy/MCTargetDesc/FantasyInstPrinter.cpp:178-188 | An immediate prints as the hex of its hi16 value, and an expression prints as itself. |
| InstPrinter.PrintHi16AndImmOperand | llvm/lib/Target/Fantasy/MCTargetDesc/FantasyInstPrinter.cpp:190-200 | An immediate prints as the hex of its hi16-and value, and an expression prints as itself. |
| InstPrinter.PrintLo16AndImmOperand | llvm/lib/Target/Fantasy/MCTargetDesc/FantasyInstPrinter.cpp:202-212 | An immediate prints as the hex of its lo16-and value, and an expression prints as itself. |
| InstPrinter.CCText | llvm/lib/Target/Fantasy/MCTargetDesc/FantasyInstPrinter.cpp:289-298 | A code at or past UNKNOWN prints `<und>`, and any other code prints its name. |
| InstPrinter.PredicateText | llvm/lib/Target/Fantasy/MCTargetDesc/FantasyInstPrinter.cpp:300-309 | `<und>` past UNKNOWN, nothing for ICC_T, and otherwise `.` and the name. |
| InstPrinter.PrintCCOperand | llvm/lib/Target/Fantasy/MCTargetDesc/FantasyInstPrinter.cpp:289-298 | The condition-code text of the operand's low 32 bits. |
| InstPrinter.PrintPredicateOperand | llvm/lib/Target/Fantasy/MCTargetDesc/FantasyInstPrinter.cpp:300-309 | The predicate text of the operand's low 32 bits. |
| InstPrinter.PredicateExtendsCC | llvm/lib/Target/Fantasy/MCTargetDesc/FantasyInstPrinter.cpp:289-309 | A predicate other than ICC_T prints as `.` and the condition-code text, or as the same `<und>`. |
| InstPrinter.AlwaysPredicatePrintsNothing | llvm/lib/Target/Fantasy/MCTargetDesc/FantasyInstPrinter.cpp:289-309 | ICC_T prints its name as a condition code, but nothing as a predicate. |
| McTargetDesc.EvaluateBranch | llvm/lib/Target/Fantasy/MCTargetDesc/FantasyMCTargetDesc.cpp:97-118 | There is no target exactly when the instruction has no operands or has an absolute operand of 0. A PC-relative target is addr + size + imm, wrapping; an absolute target is imm. |
| McTargetDesc.PcRelativeTargetFromEnd | llvm/lib/Target/Fantasy/MCTargetDesc/FantasyMCTargetDesc.cpp:102-106 | A PC-relative target depends only on where the branch ends. |
| McTargetDesc.AbsoluteTargetIndependentOfAddress | llvm/lib/Target/Fantasy/MCTargetDesc/FantasyMCTargetDesc.cpp:107-116 | An absolute target ignores the address and size, and is never 0. |
| McTargetDesc.DefaultCpuName | llvm/lib/Target/Fantasy/MCTargetDesc/FantasyMCTargetDesc.cpp:56-58 | The name is never empty, and a non-empty name passes through unchanged. |
| McTargetDesc.DefaultCpuNameIdempotent | llvm/lib/Target/Fantasy/MCTargetDesc/FantasyMCTargetDesc.cpp:56-58 | Defaulting twice is defaulting once, and only "" and "generic" give "generic". |
| McTargetDesc.SubtargetCpuName | llvm/lib/Target/Fantasy/MCTargetDesc/FantasyMCTargetDesc.cpp:56-60 | The reassigned local is the defaulted name. |
| McTargetDesc.CreateInstPrinter | llvm/lib/Target/Fantasy/MCTargetDesc/FantasyMCTargetDesc.cpp:80-82 | A printer is created exactly for syntax variant 0. |

## Left out

- **LPAC and LPCC helpers** (the ALU and condition-code tables, including `encodeFantasyAluCode`, `isPreOp`, `isPostOp`, `modifiesOp`, `getAluOp`, `isdToFantasyAluCode` and the name functions): their header is not part of this model. They are uninterpreted parameters with only the facts in `Valid`, so no numeric value of an ALU or condition code is fixed.
- **`isdToFantasyAluCode` on non-binary nodes:** the model gives UNKNOWN for every node that is not a binary operation. The call site reads operand 1 only after a known code, and the DAG is a tree rather than SelectionDAG's graph.
- **`Select` and `selectFrameIndex`:** not modelled. They are DAG mutation (`ReplaceNode`, `SelectNodeTo`) in framework state.
- **Generated code:** `getBinaryCodeForInstr`, `SelectCode`, `printInstruction`, `printAliasInstr` and `getRegisterName` are not shown. `encodeInstruction` takes the binary code as its argument, and register names come from `Formatter`.
- **`printInst`, `printOperand` and `printMemImmOperand`:** not modelled, because they dispatch to generated printing.
- **Hex and decimal formatting and `MCExpr::print`:** abstract string functions in `Formatter`. The subexpression text of `printImpl` is a parameter.
- **Register scavenging and liveness** (`FindUnusedReg`, `scavengeRegister`): the scavenged register is the parameter `scratch`, and the scavenger is assumed to succeed. `hasFP` and stack realignment are fields of `FrameInfo`.
- **MachineInstr:** handled as a value. In-place edits of an instruction are functional updates written back to the block, so aliasing of operands is not modelled.
- **RegisterInfo.EliminateFrameIndex:** requires the frame offset to lie in [-(2^31 - 1), 2^31 - 1]. It does not model the 32-bit wrap-around of the `int` offset, or `-INT_MIN`.
- **InstPrinter.PrintAlias:** requires operand 3 to be an immediate. It requires operand 2 to be an immediate only under a pre- or post-op ADD code, and operands 0 and 1 to be registers only once a form holds. These are exactly the places where the source calls `getImm` and `getReg`, and those calls assert the operand's kind.
- **Memory-operand encoders:** the source builds the encoding with successive `|=`. The model computes the same word in one expression: the same fields, OR-ed in the same order.
- **McCodeEmitter.AdjustPqBits:** has no contract of its own. Its flag placement is stated by `PlacePqSetsQ` for any pair of shifts. It is stated in full by `PlacePqRmAndRrm` and `PlacePqSpls` for the two pairs the encoders use, and the wrappers carry those facts.
- **P and Q exclusivity:** they are not exclusive. For a pre-op with a nonzero immediate the RI and SPLS encoders set both P and Q (`0x3 << 16`, `0x3 << 10`). The model follows the code.
- **MCNumEmitted:** kept only as the counter field `numEmitted`. It is statistics instrumentation with no effect on the output.
- **ELF record layout:** the layout of `Elf32_Rela` records and the relocation entries are the generic ELF writer's job.
- **Registration and boilerplate:** `createMCStreamer`, the factory and registration functions, the asm printer, the target machine, the subtarget, the machine-function info and the disassembler are not part of this model.
