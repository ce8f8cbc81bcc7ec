/**
 * Assembly text for memory operands, load/store increment aliases,
 * hi/lo immediates and condition codes (FantasyInstPrinter.cpp). Each
 * printer is the text it appends to the output stream; register names,
 * hexadecimal and decimal formatting and the printing of expressions are
 * supplied by a `Formatter`.
 */
module InstPrinter {
  import opened Wrappers
  import opened Bits
  import opened AluCode
  import opened CondCode
  import opened BaseInfo
  import opened InstrInfo
  import opened McExpr
  import opened McInst

  /** getRegisterName, formatHex, decimal printing of an int64_t, and MCExpr::print. */
  datatype Formatter = Formatter(
    regName: Register -> string,
    hex: bv64 -> string,
    decimal: bv64 -> string,
    expr: Expr -> string)

  /** The ALU code the increment aliases always read: operand 3, an immediate. */
  predicate IncrementOperands(inst: MCInst)
  {
    |inst.operands| >= 4 && inst.operands[3].MCImm?
  }

  /** The ALU code held in operand 3. */
  function IncrementAluCode(inst: MCInst): bv32
    requires IncrementOperands(inst)
  {
    Low32(inst.operands[3].imm)
  }

  /**
   * Where the forms read the offset: usesGivenOffset is reached only
   * behind a pre- or post-op test, and reads operand 2 only once the
   * encoding is ADD.
   */
  predicate ReadsOffset(inst: MCInst, L: Lpac)
    requires IncrementOperands(inst)
  {
    (L.isPreOp(IncrementAluCode(inst)) || L.isPostOp(IncrementAluCode(inst)))
    && L.encode(IncrementAluCode(inst)) == L.ADD
  }

  /** The getImm of operand 2 is taken only where the offset is read. */
  predicate OffsetReadable(inst: MCInst, L: Lpac)
  {
    IncrementOperands(inst) && (ReadsOffset(inst, L) ==> inst.operands[2].MCImm?)
  }

  /** usesGivenOffset: an ADD whose offset is plus or minus `addOffset`. */
  predicate UsesGivenOffset(inst: MCInst, addOffset: bv64, L: Lpac)
    requires IncrementOperands(inst)
    requires L.encode(IncrementAluCode(inst)) == L.ADD ==> inst.operands[2].MCImm?
  {
    L.encode(IncrementAluCode(inst)) == L.ADD
    && (inst.operands[2].imm == addOffset || inst.operands[2].imm == -addOffset)
  }

  /** isPreIncrementForm: a pre-op that uses the given offset. */
  predicate IsPreIncrementForm(inst: MCInst, addOffset: bv64, L: Lpac)
    requires OffsetReadable(inst, L)
  {
    L.isPreOp(IncrementAluCode(inst)) && UsesGivenOffset(inst, addOffset, L)
  }

  /** isPostIncrementForm: a post-op that uses the given offset. */
  predicate IsPostIncrementForm(inst: MCInst, addOffset: bv64, L: Lpac)
    requires OffsetReadable(inst, L)
  {
    L.isPostOp(IncrementAluCode(inst)) && UsesGivenOffset(inst, addOffset, L)
  }

  /**
   * What printing an increment alias reads: the ALU code, the offset where
   * the forms test it, and the two registers once a form holds.
   */
  predicate IncrementPrintable(inst: MCInst, addOffset: bv64, L: Lpac)
  {
    OffsetReadable(inst, L)
    && (IsPreIncrementForm(inst, addOffset, L) || IsPostIncrementForm(inst, addOffset, L) ==>
          inst.operands[0].MCReg? && inst.operands[1].MCReg?)
  }

  /**
   * The increment forms: the ALU code is a pre- (or post-) op whose
   * encoding is ADD, and the offset is the given one or its negation, so
   * the sign of the given offset does not matter.
   */
  lemma IncrementForms(inst: MCInst, addOffset: bv64, L: Lpac)
    requires OffsetReadable(inst, L)
    ensures IsPreIncrementForm(inst, addOffset, L) <==>
      L.isPreOp(IncrementAluCode(inst)) && L.encode(IncrementAluCode(inst)) == L.ADD
      && (inst.operands[2].imm == addOffset || inst.operands[2].imm == -addOffset)
    ensures IsPostIncrementForm(inst, addOffset, L) <==>
      L.isPostOp(IncrementAluCode(inst)) && L.encode(IncrementAluCode(inst)) == L.ADD
      && (inst.operands[2].imm == addOffset || inst.operands[2].imm == -addOffset)
    ensures IsPreIncrementForm(inst, addOffset, L) <==> IsPreIncrementForm(inst, -addOffset, L)
    ensures IsPostIncrementForm(inst, addOffset, L) <==> IsPostIncrementForm(inst, -addOffset, L)
  {
  }

  /** Negating the given offset does not change usesGivenOffset. */
  lemma UsesGivenOffsetIgnoresSign(inst: MCInst, addOffset: bv64, L: Lpac)
    requires IncrementOperands(inst)
    requires L.encode(IncrementAluCode(inst)) == L.ADD ==> inst.operands[2].MCImm?
    ensures UsesGivenOffset(inst, addOffset, L) <==> UsesGivenOffset(inst, -addOffset, L)
  {
  }

  /**
   * Without a pre- or post-op code, or with one whose encoding is not ADD,
   * neither form holds, whatever operands 0 to 2 are.
   */
  lemma NoFormWithoutModifyingAdd(inst: MCInst, addOffset: bv64, L: Lpac)
    requires IncrementOperands(inst)
    requires !ReadsOffset(inst, L)
    ensures OffsetReadable(inst, L)
    ensures !IsPreIncrementForm(inst, addOffset, L) && !IsPostIncrementForm(inst, addOffset, L)
  {
  }

  /** decIncOperator: "--" for a negative offset, "++" otherwise. */
  function DecIncOperator(inst: MCInst): (s: string)
    requires |inst.operands| > 2 && inst.operands[2].MCImm?
    ensures s == "--" <==> IsNegative(inst.operands[2].imm)
    ensures s == "++" <==> !IsNegative(inst.operands[2].imm)
  {
    if IsNegative(inst.operands[2].imm) then "--" else "++"
  }

  /** The operands a printed form reads: registers 0 and 1 and the immediate offset. */
  predicate FormOperands(inst: MCInst)
  {
    |inst.operands| >= 4 && inst.operands[0].MCReg? && inst.operands[1].MCReg? && inst.operands[2].MCImm?
  }

  /** Once a form holds, every operand it prints is readable. */
  lemma FormHasOperands(inst: MCInst, addOffset: bv64, L: Lpac)
    requires IncrementPrintable(inst, addOffset, L)
    requires IsPreIncrementForm(inst, addOffset, L) || IsPostIncrementForm(inst, addOffset, L)
    ensures FormOperands(inst)
  {
  }

  /** The bracketed address of an increment alias: the operator before the base for pre-increment, after it otherwise. */
  function IncrementAddress(inst: MCInst, pre: bool, F: Formatter): string
    requires FormOperands(inst)
  {
    if pre then "[" + DecIncOperator(inst) + "%" + F.regName(inst.operands[1].reg) + "]"
    else "[%" + F.regName(inst.operands[1].reg) + DecIncOperator(inst) + "]"
  }

  /**
   * printMemoryLoadIncrement: for the pre- (checked first) or
   * post-increment form, the mnemonic, the address and then the
   * destination register; None (nothing written, false returned) otherwise.
   */
  function PrintMemoryLoadIncrement(inst: MCInst, opcode: string, addOffset: bv64, L: Lpac, F: Formatter): (r: Option<string>)
    requires IncrementPrintable(inst, addOffset, L)
    ensures r.None? <==> !IsPreIncrementForm(inst, addOffset, L) && !IsPostIncrementForm(inst, addOffset, L)
    ensures r.Some? ==> UsesGivenOffset(inst, addOffset, L)
  {
    if IsPreIncrementForm(inst, addOffset, L) then
      Some("\t" + opcode + "\t[" + DecIncOperator(inst) + "%" + F.regName(inst.operands[1].reg) + "], %"
           + F.regName(inst.operands[0].reg))
    else if IsPostIncrementForm(inst, addOffset, L) then
      Some("\t" + opcode + "\t[%" + F.regName(inst.operands[1].reg) + DecIncOperator(inst)
           + "], %" + F.regName(inst.operands[0].reg))
    else None
  }

  /**
   * printMemoryStoreIncrement: for the pre- (checked first) or
   * post-increment form, the mnemonic, the source register and then the
   * address; None (nothing written, false returned) otherwise.
   */
  function PrintMemoryStoreIncrement(inst: MCInst, opcode: string, addOffset: bv64, L: Lpac, F: Formatter): (r: Option<string>)
    requires IncrementPrintable(inst, addOffset, L)
    ensures r.None? <==> !IsPreIncrementForm(inst, addOffset, L) && !IsPostIncrementForm(inst, addOffset, L)
    ensures r.Some? ==> UsesGivenOffset(inst, addOffset, L)
  {
    if IsPreIncrementForm(inst, addOffset, L) then
      Some("\t" + opcode + "\t%" + F.regName(inst.operands[0].reg)
           + ", [" + DecIncOperator(inst) + "%" + F.regName(inst.operands[1].reg) + "]")
    else if IsPostIncrementForm(inst, addOffset, L) then
      Some("\t" + opcode + "\t%" + F.regName(inst.operands[0].reg)
           + ", [%" + F.regName(inst.operands[1].reg) + DecIncOperator(inst) + "]")
    else None
  }

  /**
   * Loads and stores print the same address and register, in mirrored
   * order: the load puts the address first, the store the register first.
   */
  lemma LoadStoreIncrementMirrored(inst: MCInst, opcode: string, addOffset: bv64, L: Lpac, F: Formatter)
    requires IncrementPrintable(inst, addOffset, L)
    ensures PrintMemoryLoadIncrement(inst, opcode, addOffset, L, F).Some?
            == PrintMemoryStoreIncrement(inst, opcode, addOffset, L, F).Some?
    ensures PrintMemoryLoadIncrement(inst, opcode, addOffset, L, F).Some? ==>
      FormOperands(inst)
      && var address := IncrementAddress(inst, IsPreIncrementForm(inst, addOffset, L), F);
      var reg := "%" + F.regName(inst.operands[0].reg);
      PrintMemoryLoadIncrement(inst, opcode, addOffset, L, F).value == "\t" + opcode + "\t" + address + ", " + reg
      && PrintMemoryStoreIncrement(inst, opcode, addOffset, L, F).value == "\t" + opcode + "\t" + reg + ", " + address
  {
    if IsPreIncrementForm(inst, addOffset, L) {
      var base := F.regName(inst.operands[1].reg);
      var dst := F.regName(inst.operands[0].reg);
      var op := DecIncOperator(inst);
      assert "\t" + opcode + "\t[" + op + "%" + base + "], %" + dst
          == "\t" + opcode + "\t" + ("[" + op + "%" + base + "]") + ", " + ("%" + dst);
      assert "\t" + opcode + "\t%" + dst + ", [" + op + "%" + base + "]"
          == "\t" + opcode + "\t" + ("%" + dst) + ", " + ("[" + op + "%" + base + "]");
    } else if IsPostIncrementForm(inst, addOffset, L) {
      var base := F.regName(inst.operands[1].reg);
      var dst := F.regName(inst.operands[0].reg);
      var op := DecIncOperator(inst);
      assert "\t" + opcode + "\t[%" + base + op + "], %" + dst
          == "\t" + opcode + "\t" + ("[%" + base + op + "]") + ", " + ("%" + dst);
      assert "\t" + opcode + "\t%" + dst + ", [%" + base + op + "]"
          == "\t" + opcode + "\t" + ("%" + dst) + ", " + ("[%" + base + op + "]");
    }
  }

  /** The increment address shows which form it is: the operator follows "[" exactly for pre-increment. */
  lemma IncrementAddressShowsForm(inst: MCInst, pre: bool, F: Formatter)
    requires FormOperands(inst)
    ensures IncrementAddress(inst, pre, F)[1] == '%' <==> !pre
    ensures pre ==> IncrementAddress(inst, pre, F)[1..3] == DecIncOperator(inst)
    ensures !pre ==> IncrementAddress(inst, pre, F)[|IncrementAddress(inst, pre, F)| - 3..|IncrementAddress(inst, pre, F)| - 1]
                     == DecIncOperator(inst)
  {
  }

  /** An increment alias of printAlias: mnemonic, access size in bytes, and whether it is a load. */
  datatype Alias = Alias(mnemonic: string, size: bv64, isLoad: bool)

  /** The opcodes printAlias rewrites, with the mnemonic and offset each uses. */
  function AliasOf(op: Opcode): (a: Option<Alias>)
    ensures a.Some? <==> IsSplsOpcode(op) || IsRmOpcode(op)
    ensures a.Some? ==> (a.value.isLoad <==> op in {LDW_RI, LDHs_RI, LDHz_RI, LDBs_RI, LDBz_RI})
  {
    match op
    case LDW_RI => Some(Alias("ld", 4, true))
    case LDHs_RI => Some(Alias("ld.h", 2, true))
    case LDHz_RI => Some(Alias("uld.h", 2, true))
    case LDBs_RI => Some(Alias("ld.b", 1, true))
    case LDBz_RI => Some(Alias("uld.b", 1, true))
    case SW_RI => Some(Alias("st", 4, false))
    case STH_RI => Some(Alias("st.h", 2, false))
    case STB_RI => Some(Alias("st.b", 1, false))
    case _ => None
  }

  /** The word opcodes step by 4, the half-word ones by 2 and the byte ones by 1. */
  lemma AliasSizes(op: Opcode)
    ensures AliasOf(op).Some? ==> AliasOf(op).value.size == (if op in {LDW_RI, SW_RI} then 4
                                  else if op in {LDHs_RI, LDHz_RI, STH_RI} then 2 else 1)
  {
  }

  /** printAlias: the increment alias of a register-immediate load or store, or None for any other instruction. */
  function PrintAlias(inst: MCInst, L: Lpac, F: Formatter): (r: Option<string>)
    requires AliasOf(inst.opcode).Some? ==> IncrementPrintable(inst, AliasOf(inst.opcode).value.size, L)
    ensures AliasOf(inst.opcode).None? ==> r.None?
    ensures AliasOf(inst.opcode).Some? ==>
      (r.Some? <==> (IsPreIncrementForm(inst, AliasOf(inst.opcode).value.size, L)
                     || IsPostIncrementForm(inst, AliasOf(inst.opcode).value.size, L)))
  {
    match AliasOf(inst.opcode)
    case None => None
    case Some(a) =>
      if a.isLoad then PrintMemoryLoadIncrement(inst, a.mnemonic, a.size, L, F)
      else PrintMemoryStoreIncrement(inst, a.mnemonic, a.size, L, F)
  }

  /**
   * An RI load or store whose ALU code is not a pre- or post-op ADD has no
   * alias, whatever operands 0 to 2 are: an expression offset such as
   * `ld lo(x)[%r1], %r3` prints through the generated printer.
   */
  lemma PlainCodeHasNoAlias(inst: MCInst, L: Lpac, F: Formatter)
    requires AliasOf(inst.opcode).Some? && IncrementOperands(inst)
    requires !ReadsOffset(inst, L)
    ensures IncrementPrintable(inst, AliasOf(inst.opcode).value.size, L)
    ensures PrintAlias(inst, L, F).None?
  {
    NoFormWithoutModifyingAdd(inst, AliasOf(inst.opcode).value.size, L);
  }

  /** printMemoryBaseRegister: "[", "*" for a pre-op, "%" and the name, "*" for a post-op, "]". */
  function PrintMemoryBaseRegister(alu: bv32, reg: Register, L: Lpac, F: Formatter): (s: string)
    ensures |s| == |F.regName(reg)| + 3 + (if L.isPreOp(alu) then 1 else 0) + (if L.isPostOp(alu) then 1 else 0)
    ensures s[0] == '[' && s[|s| - 1] == ']'
  {
    "[" + (if L.isPreOp(alu) then "*" else "") + "%" + F.regName(reg) + (if L.isPostOp(alu) then "*" else "") + "]"
  }

  /** Reads the pre/post marks back from a printed base register. */
  function BaseRegisterMarks(s: string): (bool, bool)
    requires |s| >= 3
  {
    (s[1] == '*', s[|s| - 2] == '*')
  }

  /** For a register name that does not end in "*", the printed base register gives back the pre/post choice. */
  lemma BaseRegisterMarksRoundTrip(alu: bv32, reg: Register, L: Lpac, F: Formatter)
    requires F.regName(reg) == [] || F.regName(reg)[|F.regName(reg)| - 1] != '*'
    ensures BaseRegisterMarks(PrintMemoryBaseRegister(alu, reg, L, F)) == (L.isPreOp(alu), L.isPostOp(alu))
  {
    var s := PrintMemoryBaseRegister(alu, reg, L, F);
    var name := F.regName(reg);
    var pre := if L.isPreOp(alu) then "*" else "";
    var post := if L.isPostOp(alu) then "*" else "";
    assert s == "[" + pre + "%" + name + post + "]";
    assert s[1] == if L.isPreOp(alu) then '*' else '%';
    if L.isPostOp(alu) {
      assert s[|s| - 2] == '*';
    } else if name == [] {
      assert s[|s| - 2] == '%';
    } else {
      assert s[|s| - 2] == name[|name| - 1];
    }
  }

  /** What printMemRiOperand and printMemSplsOperand assert: a base register, an immediate or expression offset, an ALU code. */
  predicate MemImmOperands(inst: MCInst, opNo: nat)
  {
    opNo + 2 < |inst.operands| && inst.operands[opNo].MCReg?
    && (inst.operands[opNo + 1].MCImm? || inst.operands[opNo + 1].MCExprOperand?)
    && inst.operands[opNo + 2].MCImm?
  }

  /** printMemoryImmediateOffset: an immediate in decimal, or the expression. */
  function PrintMemoryImmediateOffset(offset: MCOperand, F: Formatter): (s: string)
    requires offset.MCImm? || offset.MCExprOperand?
    ensures offset.MCImm? ==> s == F.decimal(offset.imm)
    ensures offset.MCExprOperand? ==> s == F.expr(offset.expr)
  {
    if offset.MCImm? then F.decimal(offset.imm) else F.expr(offset.expr)
  }

  /** printMemRiOperand: the offset, then the bracketed base register; a 16-bit offset is asserted. */
  function PrintMemRiOperand(inst: MCInst, opNo: nat, L: Lpac, F: Formatter): string
    requires MemImmOperands(inst, opNo)
    requires inst.operands[opNo + 1].MCImm? ==> FitsInt16(inst.operands[opNo + 1].imm)
  {
    PrintMemoryImmediateOffset(inst.operands[opNo + 1], F)
    + PrintMemoryBaseRegister(Low32(inst.operands[opNo + 2].imm), inst.operands[opNo].reg, L, F)
  }

  /** printMemSplsOperand: as the RI form, with a 10-bit offset asserted. */
  function PrintMemSplsOperand(inst: MCInst, opNo: nat, L: Lpac, F: Formatter): string
    requires MemImmOperands(inst, opNo)
    requires inst.operands[opNo + 1].MCImm? ==> FitsInt10(inst.operands[opNo + 1].imm)
  {
    PrintMemoryImmediateOffset(inst.operands[opNo + 1], F)
    + PrintMemoryBaseRegister(Low32(inst.operands[opNo + 2].imm), inst.operands[opNo].reg, L, F)
  }

  /**
   * A printed RI operand starts with the offset's text and ends with "]", and
   * the rest gives back whether the ALU code is a pre- or a post-op.
   */
  lemma MemRiOperandShowsOffsetAndMarks(inst: MCInst, opNo: nat, L: Lpac, F: Formatter)
    requires MemImmOperands(inst, opNo)
    requires inst.operands[opNo + 1].MCImm? ==> FitsInt16(inst.operands[opNo + 1].imm)
    requires F.regName(inst.operands[opNo].reg) == []
             || F.regName(inst.operands[opNo].reg)[|F.regName(inst.operands[opNo].reg)| - 1] != '*'
    ensures
      var off := PrintMemoryImmediateOffset(inst.operands[opNo + 1], F);
      var s := PrintMemRiOperand(inst, opNo, L, F);
      var alu := Low32(inst.operands[opNo + 2].imm);
      |s| >= |off| + 3 && s[..|off|] == off && s[|s| - 1] == ']'
      && BaseRegisterMarks(s[|off|..]) == (L.isPreOp(alu), L.isPostOp(alu))
  {
    var off := PrintMemoryImmediateOffset(inst.operands[opNo + 1], F);
    var alu := Low32(inst.operands[opNo + 2].imm);
    var base := PrintMemoryBaseRegister(alu, inst.operands[opNo].reg, L, F);
    var s := PrintMemRiOperand(inst, opNo, L, F);
    assert s == off + base;
    assert s[|off|..] == base;
    BaseRegisterMarksRoundTrip(alu, inst.operands[opNo].reg, L, F);
  }

  /** A 10-bit SPLS offset is also a 16-bit RI offset, and both forms then print the same text. */
  lemma SplsPrintsAsRi(inst: MCInst, opNo: nat, L: Lpac, F: Formatter)
    requires MemImmOperands(inst, opNo)
    requires inst.operands[opNo + 1].MCImm? ==> FitsInt10(inst.operands[opNo + 1].imm)
    ensures inst.operands[opNo + 1].MCImm? ==> FitsInt16(inst.operands[opNo + 1].imm)
    ensures PrintMemSplsOperand(inst, opNo, L, F) == PrintMemRiOperand(inst, opNo, L, F)
  {
  }

  /** What printMemRrOperand asserts: two registers and an ALU code. */
  predicate MemRrOperands(inst: MCInst, opNo: nat)
  {
    opNo + 2 < |inst.operands| && inst.operands[opNo].MCReg? && inst.operands[opNo + 1].MCReg?
    && inst.operands[opNo + 2].MCImm?
  }

  /** printMemRrOperand: "[", the marked base register, the ALU operation's name, the offset register, "]". */
  function PrintMemRrOperand(inst: MCInst, opNo: nat, L: Lpac, F: Formatter): string
    requires MemRrOperands(inst, opNo)
  {
    "[" + (if L.isPreOp(Low32(inst.operands[opNo + 2].imm)) then "*" else "")
    + "%" + F.regName(inst.operands[opNo].reg)
    + (if L.isPostOp(Low32(inst.operands[opNo + 2].imm)) then "*" else "")
    + " " + L.toString(Low32(inst.operands[opNo + 2].imm)) + " "
    + "%" + F.regName(inst.operands[opNo + 1].reg)
    + "]"
  }

  /** The RR form is the bracketed base register with " <alu> %<offset>" inserted before its "]". */
  lemma MemRrExtendsBaseRegister(inst: MCInst, opNo: nat, L: Lpac, F: Formatter)
    requires MemRrOperands(inst, opNo)
    ensures
      var alu := Low32(inst.operands[opNo + 2].imm);
      var base := PrintMemoryBaseRegister(alu, inst.operands[opNo].reg, L, F);
      PrintMemRrOperand(inst, opNo, L, F)
        == base[..|base| - 1] + " " + L.toString(alu) + " %" + F.regName(inst.operands[opNo + 1].reg) + "]"
  {
    var alu := Low32(inst.operands[opNo + 2].imm);
    var pre := if L.isPreOp(alu) then "*" else "";
    var post := if L.isPostOp(alu) then "*" else "";
    var name := F.regName(inst.operands[opNo].reg);
    var base := PrintMemoryBaseRegister(alu, inst.operands[opNo].reg, L, F);
    assert base == ("[" + pre + "%" + name + post) + "]";
    assert base[..|base| - 1] == "[" + pre + "%" + name + post;
  }

  /** The value printHi16ImmOperand prints for an immediate: imm << 16. */
  function Hi16Value(imm: bv64): (v: bv64)
    ensures v & 0xffff == 0
  {
    imm << 16
  }

  /** The value printHi16AndImmOperand prints for an immediate: (imm << 16) | 0xffff. */
  function Hi16AndValue(imm: bv64): (v: bv64)
    ensures v & 0xffff == 0xffff
  {
    (imm << 16) | 0xffff
  }

  /** The value printLo16AndImmOperand prints for an immediate: 0xffff0000 | imm. */
  function Lo16AndValue(imm: bv64): (v: bv64)
    ensures v & 0xffff_0000 == 0xffff_0000
  {
    0xffff_0000 | imm
  }

  /** A 16-bit immediate is recovered from the upper half of the printed hi16 value. */
  lemma Hi16ValueRoundTrip(imm: bv64)
    requires imm < 0x1_0000
    ensures Hi16Value(imm) >> 16 == imm
  {
  }

  /** Filling the lower half leaves the upper half alone, so the hi16-and value gives back a 16-bit immediate. */
  lemma Hi16AndValueRoundTrip(imm: bv64)
    requires imm < 0x1_0000
    ensures Hi16AndValue(imm) >> 16 == imm
  {
  }

  /** A 16-bit immediate is recovered from the lower half of the printed lo16-and value. */
  lemma Lo16AndValueRoundTrip(imm: bv64)
    requires imm < 0x1_0000
    ensures Lo16AndValue(imm) & 0xffff == imm
  {
  }

  /** printHi16ImmOperand: an immediate shifted into the upper half, in hexadecimal; an expression unchanged. */
  function PrintHi16ImmOperand(op: MCOperand, F: Formatter): (s: string)
    requires op.MCImm? || op.MCExprOperand?
    ensures op.MCImm? ==> s == F.hex(Hi16Value(op.imm))
    ensures op.MCExprOperand? ==> s == F.expr(op.expr)
  {
    if op.MCImm? then F.hex(Hi16Value(op.imm)) else F.expr(op.expr)
  }

  /** printHi16AndImmOperand: the upper-half immediate with the lower half all ones, in hexadecimal; an expression unchanged. */
  function PrintHi16AndImmOperand(op: MCOperand, F: Formatter): (s: string)
    requires op.MCImm? || op.MCExprOperand?
    ensures op.MCImm? ==> s == F.hex(Hi16AndValue(op.imm))
    ensures op.MCExprOperand? ==> s == F.expr(op.expr)
  {
    if op.MCImm? then F.hex(Hi16AndValue(op.imm)) else F.expr(op.expr)
  }

  /** printLo16AndImmOperand: the lower-half immediate with bits 16..31 all ones, in hexadecimal; an expression unchanged. */
  function PrintLo16AndImmOperand(op: MCOperand, F: Formatter): (s: string)
    requires op.MCImm? || op.MCExprOperand?
    ensures op.MCImm? ==> s == F.hex(Lo16AndValue(op.imm))
    ensures op.MCExprOperand? ==> s == F.expr(op.expr)
  {
    if op.MCImm? then F.hex(Lo16AndValue(op.imm)) else F.expr(op.expr)
  }

  /** The text printCCOperand gives a condition code: "<und>" at or past UNKNOWN, otherwise its name. */
  function CCText(code: bv32, C: Lpcc): (s: string)
    ensures code >= C.UNKNOWN ==> s == "<und>"
    ensures code < C.UNKNOWN ==> s == C.toString(code)
  {
    if code >= C.UNKNOWN then "<und>" else C.toString(code)
  }

  /** The text printPredicateOperand gives a condition code: "<und>" past UNKNOWN, nothing for ICC_T, otherwise "." and its name. */
  function PredicateText(code: bv32, C: Lpcc): (s: string)
    ensures code >= C.UNKNOWN ==> s == "<und>"
    ensures code < C.UNKNOWN && code == C.ICC_T ==> s == ""
    ensures code < C.UNKNOWN && code != C.ICC_T ==> s == "." + C.toString(code)
  {
    if code >= C.UNKNOWN then "<und>"
    else if code != C.ICC_T then "." + C.toString(code)
    else ""
  }

  /** printCCOperand on the low 32 bits of the immediate operand. */
  function PrintCCOperand(op: MCOperand, C: Lpcc): (s: string)
    requires op.MCImm?
    ensures s == CCText(Low32(op.imm), C)
  {
    CCText(Low32(op.imm), C)
  }

  /** printPredicateOperand on the low 32 bits of the immediate operand. */
  function PrintPredicateOperand(op: MCOperand, C: Lpcc): (s: string)
    requires op.MCImm?
    ensures s == PredicateText(Low32(op.imm), C)
  {
    PredicateText(Low32(op.imm), C)
  }

  /** A condition code other than ICC_T prints as a predicate exactly as its plain text, after a "." when it is defined. */
  lemma PredicateExtendsCC(code: bv32, C: Lpcc)
    ensures code < C.UNKNOWN && code != C.ICC_T ==> PredicateText(code, C) == "." + CCText(code, C)
    ensures code >= C.UNKNOWN ==> PredicateText(code, C) == CCText(code, C)
  {
  }

  /** The always-true code ICC_T is a defined code that prints as no predicate at all. */
  lemma AlwaysPredicatePrintsNothing(C: Lpcc)
    requires CondCode.Valid(C)
    ensures PredicateText(C.ICC_T, C) == ""
    ensures CCText(C.ICC_T, C) == C.toString(C.ICC_T)
  {
  }
}
