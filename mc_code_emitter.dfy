/**
 * Binary encoding of operands (FantasyMCCodeEmitter.cpp): register and
 * immediate values, fixups for symbolic operands, the RI, RR and SPLS
 * memory-operand fields, the P (pre/post) and Q (base update) bits, and
 * the big-endian emission of an instruction word.
 */
module McCodeEmitter {
  import opened Bits
  import opened AluCode
  import opened BaseInfo
  import opened McExpr
  import opened FixupKinds
  import opened McInst
  import opened Containers

  /** The fixup kind of the symbolic side of an operand expression (FixupKind). */
  function FixupKindOf(e: Expr): (k: FixupKind)
    ensures k == FIXUP_LANAI_21 <==> e.SymbolRef? || (e.FantasyExpr? && e.kind == VK_Fantasy_None)
    ensures k == FIXUP_LANAI_HI16 <==> e.FantasyExpr? && e.kind == VK_Fantasy_ABS_HI
    ensures k == FIXUP_LANAI_LO16 <==> e.FantasyExpr? && e.kind == VK_Fantasy_ABS_LO
    ensures k == FK_NONE <==> !e.SymbolRef? && !e.FantasyExpr?
  {
    if e.SymbolRef? then FIXUP_LANAI_21
    else if e.FantasyExpr? then
      match e.kind
      case VK_Fantasy_None => FIXUP_LANAI_21
      case VK_Fantasy_ABS_HI => FIXUP_LANAI_HI16
      case VK_Fantasy_ABS_LO => FIXUP_LANAI_LO16
    else FK_NONE
  }

  /** The symbolic reference side of an operand expression: the left operand of a binary one. */
  function SymbolicSide(e: Expr): (s: Expr)
    ensures !e.BinaryExpr? ==> s == e
  {
    if e.BinaryExpr? then e.lhs else e
  }

  /** What getMachineOpValue asserts of an operand. */
  predicate EncodableOperand(op: MCOperand)
  {
    match op
    case MCReg(reg) => HasNumber(reg)
    case MCImm(_) => true
    case MCExprOperand(e) => SymbolicSide(e).FantasyExpr? || SymbolicSide(e).SymbolRef?
  }

  /** The value getMachineOpValue returns: a register's number, an immediate's low 32 bits, 0 for an expression. */
  function MachineOpValue(op: MCOperand): (r: bv32)
    requires EncodableOperand(op)
    ensures op.MCReg? ==> r < 32 && r == RegisterNumbering(op.reg)
    ensures op.MCImm? ==> r as bv64 == op.imm & 0xffff_ffff
    ensures op.MCExprOperand? ==> r == 0
  {
    match op
    case MCReg(reg) => RegisterNumbering(reg)
    case MCImm(imm) => Low32(imm)
    case MCExprOperand(_) => 0
  }

  /**
   * The fixups getMachineOpValue records: none for a register or an
   * immediate, and for an expression one at offset 0 that carries the whole
   * expression and the kind of its symbolic side.
   */
  function MachineOpFixups(op: MCOperand): (f: seq<Fixup>)
    ensures |f| == if op.MCExprOperand? then 1 else 0
    ensures op.MCExprOperand? ==> f[0] == Fixup(0, op.expr, FixupKindOf(SymbolicSide(op.expr)))
  {
    if op.MCExprOperand? then [Fixup(0, op.expr, FixupKindOf(SymbolicSide(op.expr)))] else []
  }

  /** An operand getMachineOpValue accepts never yields the "no fixup" kind. */
  lemma MachineOpFixupsHaveKind(op: MCOperand)
    requires EncodableOperand(op)
    ensures forall f | f in MachineOpFixups(op) :: f.kind in {FIXUP_LANAI_21, FIXUP_LANAI_HI16, FIXUP_LANAI_LO16}
  {
  }

  /** getMachineOpValue: the operand's value, recording its fixup in `fixups`. */
  method GetMachineOpValue(op: MCOperand, fixups: Vector<Fixup>) returns (r: bv32)
    requires EncodableOperand(op)
    modifies fixups
    ensures r == MachineOpValue(op)
    ensures fixups.elems == old(fixups.elems) + MachineOpFixups(op)
  {
    if op.MCReg? {
      return RegisterNumbering(op.reg);
    }
    if op.MCImm? {
      return Low32(op.imm);
    }
    var e := op.expr;
    if e.BinaryExpr? {
      e := e.lhs;
    }
    fixups.PushBack(Fixup(0, op.expr, FixupKindOf(e)));
    return 0;
  }

  /**
   * The P/Q placement of adjustPqBits on plain flags: bit `pShift` is
   * cleared and then set when `p` holds, then bit `qShift` likewise for `q`.
   */
  function PlacePq(value: bv32, pShift: nat, qShift: nat, p: bool, q: bool): bv32
    requires pShift < 32 && qShift < 32
  {
    var clearedP := value & !(1 << pShift);
    var withP := if p then clearedP | (1 << pShift) else clearedP;
    var clearedQ := withP & !(1 << qShift);
    if q then clearedQ | (1 << qShift) else clearedQ
  }

  /** Q is written last, so bit `qShift` always ends up as `q` says. */
  lemma PlacePqSetsQ(value: bv32, pShift: nat, qShift: nat, p: bool, q: bool)
    requires pShift < 32 && qShift < 32
    ensures PlacePq(value, pShift, qShift, p, q) & (1 << qShift) == if q then 1 << qShift else 0
  {
  }

  /** Bits 17 and 16 become P and Q; every other bit is kept. */
  lemma PlacePqRmAndRrm(value: bv32, p: bool, q: bool)
    ensures PlacePq(value, 17, 16, p, q) & 0x2_0000 == if p then 0x2_0000 else 0
    ensures PlacePq(value, 17, 16, p, q) & 0x1_0000 == if q then 0x1_0000 else 0
    ensures PlacePq(value, 17, 16, p, q) & 0xfffc_ffff == value & 0xfffc_ffff
  {
  }

  /** Bits 11 and 10 become P and Q; every other bit is kept. */
  lemma PlacePqSpls(value: bv32, p: bool, q: bool)
    ensures PlacePq(value, 11, 10, p, q) & 0x800 == if p then 0x800 else 0
    ensures PlacePq(value, 11, 10, p, q) & 0x400 == if q then 0x400 else 0
    ensures PlacePq(value, 11, 10, p, q) & 0xffff_f3ff == value & 0xffff_f3ff
  {
  }

  /** A nonzero operand 2: an immediate other than 0, a register other than R0, or (for P) an expression. */
  predicate NonzeroOffset(op: MCOperand, countExpr: bool)
  {
    (op.MCImm? && op.imm != 0) || (op.MCReg? && op.reg != R(0)) || (countExpr && op.MCExprOperand?)
  }

  /** What adjustPqBits reads and asserts: registers in operands 0 and 1, the ALU code in operand 3. */
  predicate PqOperands(inst: MCInst)
  {
    |inst.operands| >= 4 && inst.operands[0].MCReg? && inst.operands[1].MCReg? && inst.operands[3].MCImm?
  }

  /** The P bit: set iff the operation is not a post-op and operand 2 is nonzero. */
  predicate PBit(inst: MCInst, L: Lpac)
    requires PqOperands(inst)
  {
    !L.isPostOp(Low32(inst.operands[3].imm)) && NonzeroOffset(inst.operands[2], true)
  }

  /** The Q bit: set iff the operation modifies its base and operand 2 is a nonzero immediate or register. */
  predicate QBit(inst: MCInst, L: Lpac)
    requires PqOperands(inst)
  {
    L.modifiesOp(Low32(inst.operands[3].imm)) && NonzeroOffset(inst.operands[2], false)
  }

  /** adjustPqBits: the P bit goes to bit `pShift` and the Q bit to bit `qShift`, Q last. */
  function AdjustPqBits(inst: MCInst, value: bv32, pShift: nat, qShift: nat, L: Lpac): bv32
    requires PqOperands(inst) && pShift < 32 && qShift < 32
  {
    PlacePq(value, pShift, qShift, PBit(inst, L), QBit(inst, L))
  }

  /** The RM and RRM forms keep P in bit 17 and Q in bit 16. */
  function AdjustPqBitsRmAndRrm(inst: MCInst, value: bv32, L: Lpac): (r: bv32)
    requires PqOperands(inst)
    ensures r & 0x2_0000 == if PBit(inst, L) then 0x2_0000 else 0
    ensures r & 0x1_0000 == if QBit(inst, L) then 0x1_0000 else 0
    ensures r & 0xfffc_ffff == value & 0xfffc_ffff
  {
    PlacePqRmAndRrm(value, PBit(inst, L), QBit(inst, L));
    AdjustPqBits(inst, value, 17, 16, L)
  }

  /** The SPLS form keeps P in bit 11 and Q in bit 10. */
  function AdjustPqBitsSpls(inst: MCInst, value: bv32, L: Lpac): (r: bv32)
    requires PqOperands(inst)
    ensures r & 0x800 == if PBit(inst, L) then 0x800 else 0
    ensures r & 0x400 == if QBit(inst, L) then 0x400 else 0
    ensures r & 0xffff_f3ff == value & 0xffff_f3ff
  {
    PlacePqSpls(value, PBit(inst, L), QBit(inst, L));
    AdjustPqBits(inst, value, 11, 10, L)
  }

  /** A symbolic offset sets P (unless post-op) but never Q. */
  lemma SymbolicOffsetSetsOnlyP(inst: MCInst, value: bv32, L: Lpac)
    requires PqOperands(inst)
    requires inst.operands[2].MCExprOperand?
    ensures AdjustPqBitsRmAndRrm(inst, value, L) & 0x1_0000 == 0
    ensures AdjustPqBitsRmAndRrm(inst, value, L) & 0x2_0000 != 0 <==> !L.isPostOp(Low32(inst.operands[3].imm))
  {
  }

  /** A zero immediate offset or R0 as offset register sets neither P nor Q. */
  lemma ZeroOffsetSetsNeither(inst: MCInst, value: bv32, L: Lpac)
    requires PqOperands(inst)
    requires inst.operands[2] == MCImm(0) || inst.operands[2] == MCReg(R(0))
    ensures AdjustPqBitsRmAndRrm(inst, value, L) & 0x3_0000 == 0
    ensures AdjustPqBitsSpls(inst, value, L) & 0xc00 == 0
  {
    assert !PBit(inst, L) && !QBit(inst, L);
    RrmBitsClear(AdjustPqBitsRmAndRrm(inst, value, L));
    SplsBitsClear(AdjustPqBitsSpls(inst, value, L));
  }

  /** Bits 17 and 16 clear means the RRM P/Q field is clear. */
  lemma RrmBitsClear(r: bv32)
    requires r & 0x2_0000 == 0 && r & 0x1_0000 == 0
    ensures r & 0x3_0000 == 0
  {
  }

  /** Bits 11 and 10 clear means the SPLS P/Q field is clear. */
  lemma SplsBitsClear(r: bv32)
    requires r & 0x800 == 0 && r & 0x400 == 0
    ensures r & 0xc00 == 0
  {
  }

  /** Under a valid ALU-code table, Q is only ever set together with a pre- or post-op code. */
  lemma QBitNeedsModifyingOp(inst: MCInst, value: bv32, L: Lpac)
    requires PqOperands(inst) && AluCode.Valid(L)
    requires AdjustPqBitsRmAndRrm(inst, value, L) & 0x1_0000 != 0
    ensures L.isPreOp(Low32(inst.operands[3].imm)) || L.isPostOp(Low32(inst.operands[3].imm))
  {
  }

  /**
   * The RI field for an immediate offset: the base register number in bits
   * 18 and up, the offset's low 16 bits, and for a nonzero offset the P and
   * Q bits (0x3 << 16) of a pre-op or the Q bit of a post-op.
   */
  function RiImmediateField(regNo: bv32, imm: bv64, pre: bool, post: bool): bv32
  {
    (regNo << 18) | ((imm & 0xffff) as bv32)
    | (if imm != 0 && pre then 0x3_0000 else 0) | (if imm != 0 && post then 0x1_0000 else 0)
  }

  /** The fields of an RI immediate word give back the register, the offset and the pre/post choice. */
  lemma RiImmediateFieldDecodes(regNo: bv32, imm: bv64, pre: bool, post: bool)
    requires regNo < 32
    ensures RiImmediateField(regNo, imm, pre, post) >> 18 == regNo
    ensures FitsInt16(imm) ==> SignExtend16((RiImmediateField(regNo, imm, pre, post) & 0xffff) as bv64) == imm
    ensures RiImmediateField(regNo, imm, pre, post) & 0x2_0000 != 0 <==> imm != 0 && pre
    ensures RiImmediateField(regNo, imm, pre, post) & 0x1_0000 != 0 <==> imm != 0 && (pre || post)
  {
    assert (RiImmediateField(regNo, imm, pre, post) & 0xffff) as bv64 == imm & 0xffff;
    if FitsInt16(imm) {
      SignExtend16Inverse(imm);
    }
  }

  /**
   * The RI memory-operand field (getRiMemoryOpValue): the immediate field
   * above, or for a symbolic offset only the base register.
   */
  function RiWord(regNo: bv32, offset: MCOperand, alu: bv32, L: Lpac): bv32
  {
    if offset.MCImm? then RiImmediateField(regNo, offset.imm, L.isPreOp(alu), L.isPostOp(alu))
    else regNo << 18
  }

  /** A symbolic RI offset leaves the 18 low bits clear for the fixup. */
  lemma RiWordSymbolic(regNo: bv32, offset: MCOperand, alu: bv32, L: Lpac)
    requires regNo < 32 && offset.MCExprOperand?
    ensures RiWord(regNo, offset, alu, L) & 0x3_ffff == 0
    ensures RiWord(regNo, offset, alu, L) >> 18 == regNo
  {
  }

  /**
   * The SPLS field for an immediate offset: the base register number in
   * bits 12 and up, the offset's low 10 bits, and for a nonzero offset the
   * P and Q bits (0x3 << 10) of a pre-op or the Q bit of a post-op.
   */
  function SplsImmediateField(regNo: bv32, imm: bv64, pre: bool, post: bool): bv32
  {
    (regNo << 12) | ((imm & 0x3ff) as bv32)
    | (if imm != 0 && pre then 0xc00 else 0) | (if imm != 0 && post then 0x400 else 0)
  }

  /** The fields of an SPLS immediate word give back the register, the offset and the pre/post choice. */
  lemma SplsImmediateFieldDecodes(regNo: bv32, imm: bv64, pre: bool, post: bool)
    requires regNo < 32
    ensures SplsImmediateField(regNo, imm, pre, post) >> 12 == regNo
    ensures FitsInt10(imm) ==> SignExtend10((SplsImmediateField(regNo, imm, pre, post) & 0x3ff) as bv64) == imm
    ensures SplsImmediateField(regNo, imm, pre, post) & 0x800 != 0 <==> imm != 0 && pre
    ensures SplsImmediateField(regNo, imm, pre, post) & 0x400 != 0 <==> imm != 0 && (pre || post)
  {
    assert (SplsImmediateField(regNo, imm, pre, post) & 0x3ff) as bv64 == imm & 0x3ff;
    if FitsInt10(imm) {
      SignExtend10Inverse(imm);
    }
  }

  /**
   * The SPLS memory-operand field (getSplsOpValue): the immediate field
   * above, or for a symbolic offset only the base register.
   */
  function SplsWord(regNo: bv32, offset: MCOperand, alu: bv32, L: Lpac): bv32
  {
    if offset.MCImm? then SplsImmediateField(regNo, offset.imm, L.isPreOp(alu), L.isPostOp(alu))
    else regNo << 12
  }

  /** A symbolic SPLS offset leaves the 12 low bits clear for the fixup. */
  lemma SplsWordSymbolic(regNo: bv32, offset: MCOperand, alu: bv32, L: Lpac)
    requires regNo < 32 && offset.MCExprOperand?
    ensures SplsWord(regNo, offset, alu, L) & 0xfff == 0
    ensures SplsWord(regNo, offset, alu, L) >> 12 == regNo
  {
  }

  /** The JJJJ field of an RR word: 0x10 for a logical shift, 0x18 for an arithmetic one, else 0. */
  function ShiftBits(op: bv32, L: Lpac): (r: bv32)
    ensures r == 0 || r == 0x10 || r == 0x18
    ensures r == 0x10 <==> op == L.SHL || op == L.SRL
    ensures r == 0x18 ==> op == L.SRA
    ensures AluCode.Valid(L) && op == L.SRA ==> r == 0x18
    ensures r == 0 <==> op != L.SHL && op != L.SRL && op != L.SRA
  {
    if op == L.SHL || op == L.SRL then 0x10 else if op == L.SRA then 0x18 else 0
  }

  /**
   * The RR field: first register in bits 15 and up, second in bits 10..14,
   * the encoded ALU operation in bits 5..7, the P and Q bits (0x3 << 8) of a
   * pre-op or the Q bit of a post-op, and the shift kind in bits 0..4.
   */
  function RrField(r1: bv32, r2: bv32, aluBits: bv32, pre: bool, post: bool, shift: bv32): bv32
  {
    (r1 << 15) | (r2 << 10) | (aluBits << 5)
    | (if pre then 0x300 else 0) | (if post then 0x100 else 0) | shift
  }

  /** The fields of an RR word give back everything that went in. */
  lemma RrFieldDecodes(r1: bv32, r2: bv32, aluBits: bv32, pre: bool, post: bool, shift: bv32)
    requires r1 < 32 && r2 < 32 && aluBits < 8 && shift < 0x20
    ensures RrField(r1, r2, aluBits, pre, post, shift) >> 15 == r1
    ensures (RrField(r1, r2, aluBits, pre, post, shift) >> 10) & 0x1f == r2
    ensures (RrField(r1, r2, aluBits, pre, post, shift) >> 5) & 0x7 == aluBits
    ensures RrField(r1, r2, aluBits, pre, post, shift) & 0x200 != 0 <==> pre
    ensures RrField(r1, r2, aluBits, pre, post, shift) & 0x100 != 0 <==> pre || post
    ensures RrField(r1, r2, aluBits, pre, post, shift) & 0x1f == shift
  {
  }

  /** The RR memory-operand field (getRrMemoryOpValue) of two register numbers and an ALU code. */
  function RrWord(r1: bv32, r2: bv32, alu: bv32, L: Lpac): bv32
  {
    RrField(r1, r2, L.encode(alu), L.isPreOp(alu), L.isPostOp(alu), ShiftBits(L.getAluOp(alu), L))
  }

  /** The three-operand window a memory-operand encoder reads: base, offset, ALU code. */
  predicate MemOperands(inst: MCInst, opNo: nat)
  {
    opNo + 2 < |inst.operands| && inst.operands[opNo].MCReg? && HasNumber(inst.operands[opNo].reg)
    && inst.operands[opNo + 2].MCImm?
  }

  /** What getRiMemoryOpValue and getSplsOpValue assert of their operands. */
  predicate ImmediateMemOperands(inst: MCInst, opNo: nat, L: Lpac)
  {
    MemOperands(inst, opNo)
    && (inst.operands[opNo + 1].MCImm? || (inst.operands[opNo + 1].MCExprOperand? && EncodableOperand(inst.operands[opNo + 1])))
    && L.getAluOp(Low32(inst.operands[opNo + 2].imm)) == L.ADD
  }

  /** The fixups a symbolic offset records; an immediate records none. */
  function OffsetFixups(offset: MCOperand): (f: seq<Fixup>)
    ensures offset.MCImm? ==> f == []
  {
    if offset.MCExprOperand? then MachineOpFixups(offset) else []
  }

  /** getRiMemoryOpValue: encodes operands opNo..opNo+2 into RI fields, recording a fixup for a symbolic offset. */
  method GetRiMemoryOpValue(inst: MCInst, opNo: nat, fixups: Vector<Fixup>, L: Lpac) returns (encoding: bv32)
    requires ImmediateMemOperands(inst, opNo, L)
    requires inst.operands[opNo + 1].MCImm? ==> FitsInt16(inst.operands[opNo + 1].imm)
    modifies fixups
    ensures encoding == RiWord(RegisterNumbering(inst.operands[opNo].reg), inst.operands[opNo + 1],
                               Low32(inst.operands[opNo + 2].imm), L)
    ensures fixups.elems == old(fixups.elems) + OffsetFixups(inst.operands[opNo + 1])
  {
    var op2 := inst.operands[opNo + 1];
    encoding := RiWord(RegisterNumbering(inst.operands[opNo].reg), op2, Low32(inst.operands[opNo + 2].imm), L);
    if op2.MCExprOperand? {
      var _ := GetMachineOpValue(op2, fixups);
    }
  }

  /** getSplsOpValue: encodes operands opNo..opNo+2 into SPLS fields, recording a fixup for a symbolic offset. */
  method GetSplsOpValue(inst: MCInst, opNo: nat, fixups: Vector<Fixup>, L: Lpac) returns (encoding: bv32)
    requires ImmediateMemOperands(inst, opNo, L)
    requires inst.operands[opNo + 1].MCImm? ==> FitsInt10(inst.operands[opNo + 1].imm)
    modifies fixups
    ensures encoding == SplsWord(RegisterNumbering(inst.operands[opNo].reg), inst.operands[opNo + 1],
                                 Low32(inst.operands[opNo + 2].imm), L)
    ensures fixups.elems == old(fixups.elems) + OffsetFixups(inst.operands[opNo + 1])
  {
    var op2 := inst.operands[opNo + 1];
    encoding := SplsWord(RegisterNumbering(inst.operands[opNo].reg), op2, Low32(inst.operands[opNo + 2].imm), L);
    if op2.MCExprOperand? {
      var _ := GetMachineOpValue(op2, fixups);
    }
  }

  /** getRrMemoryOpValue: encodes two registers and an ALU code into RR fields; records no fixup. */
  method GetRrMemoryOpValue(inst: MCInst, opNo: nat, L: Lpac) returns (encoding: bv32)
    requires MemOperands(inst, opNo)
    requires inst.operands[opNo + 1].MCReg? && HasNumber(inst.operands[opNo + 1].reg)
    ensures encoding == RrWord(RegisterNumbering(inst.operands[opNo].reg), RegisterNumbering(inst.operands[opNo + 1].reg),
                               Low32(inst.operands[opNo + 2].imm), L)
    // under a valid ALU-code table the fields read back: base register, offset register, ALU operation, shift kind
    ensures AluCode.Valid(L) ==>
      encoding >> 15 == RegisterNumbering(inst.operands[opNo].reg)
      && (encoding >> 10) & 0x1f == RegisterNumbering(inst.operands[opNo + 1].reg)
      && (encoding >> 5) & 0x7 == L.encode(Low32(inst.operands[opNo + 2].imm))
      && encoding & 0x1f == ShiftBits(L.getAluOp(Low32(inst.operands[opNo + 2].imm)), L)
  {
    var aluCode := Low32(inst.operands[opNo + 2].imm);
    if AluCode.Valid(L) {
      RrFieldDecodes(RegisterNumbering(inst.operands[opNo].reg), RegisterNumbering(inst.operands[opNo + 1].reg),
                     L.encode(aluCode), L.isPreOp(aluCode), L.isPostOp(aluCode), ShiftBits(L.getAluOp(aluCode), L));
    }
    encoding := RrWord(RegisterNumbering(inst.operands[opNo].reg), RegisterNumbering(inst.operands[opNo + 1].reg),
                       Low32(inst.operands[opNo + 2].imm), L);
  }

  /** The fixups a branch target records: a 25-bit one for a symbolic target, none otherwise. */
  function BranchFixups(target: MCOperand): (f: seq<Fixup>)
    ensures |f| == if target.MCExprOperand? then 1 else 0
    ensures forall x | x in f :: x.kind == FIXUP_LANAI_25 && x.offset == 0
  {
    if target.MCExprOperand? then [Fixup(0, target.expr, FIXUP_LANAI_25)] else []
  }

  /** getBranchTargetOpValue: a register or immediate target is encoded as itself; a symbolic one as 0 with a fixup. */
  method GetBranchTargetOpValue(target: MCOperand, fixups: Vector<Fixup>) returns (r: bv32)
    requires target.MCReg? ==> HasNumber(target.reg)
    modifies fixups
    ensures !target.MCExprOperand? ==> r == MachineOpValue(target)
    ensures target.MCExprOperand? ==> r == 0
    ensures fixups.elems == old(fixups.elems) + BranchFixups(target)
  {
    if target.MCReg? || target.MCImm? {
      r := GetMachineOpValue(target, fixups);
      return;
    }
    fixups.PushBack(Fixup(0, target.expr, FIXUP_LANAI_25));
    return 0;
  }

  /** A 32-bit word as its four bytes, most significant first. */
  function BigEndianBytes(value: bv32): (b: seq<bv8>)
    ensures |b| == 4
  {
    [(value >> 24) as bv8, ((value >> 16) & 0xff) as bv8, ((value >> 8) & 0xff) as bv8, (value & 0xff) as bv8]
  }

  /** Four bytes, most significant first, as a 32-bit word. */
  function FromBigEndian(b: seq<bv8>): bv32
    requires |b| == 4
  {
    (b[0] as bv32 << 24) | (b[1] as bv32 << 16) | (b[2] as bv32 << 8) | b[3] as bv32
  }

  /** Reading back the emitted bytes gives the word. */
  lemma BigEndianRoundTrip(value: bv32)
    ensures FromBigEndian(BigEndianBytes(value)) == value
  {
  }

  /** Four bytes survive being assembled into a word and emitted again. */
  lemma BigEndianBytesRoundTrip(b: seq<bv8>)
    requires |b| == 4
    ensures BigEndianBytes(FromBigEndian(b)) == b
  {
  }

  /** The bytes of consecutively encoded instruction words. */
  function EncodedStream(words: seq<bv32>): (b: seq<bv8>)
    ensures |b| == 4 * |words|
  {
    if words == [] then [] else BigEndianBytes(words[0]) + EncodedStream(words[1..])
  }

  /** Splits a byte stream into four-byte big-endian words. */
  function DecodedStream(b: seq<bv8>): (words: seq<bv32>)
    requires |b| % 4 == 0
    ensures |words| == |b| / 4
  {
    if b == [] then [] else [FromBigEndian(b[..4])] + DecodedStream(b[4..])
  }

  /** A stream of encoded instructions splits back into the instruction words. */
  lemma {:induction false} StreamRoundTrip(words: seq<bv32>)
    ensures DecodedStream(EncodedStream(words)) == words
  {
    if words != [] {
      var b := EncodedStream(words);
      assert b[..4] == BigEndianBytes(words[0]);
      assert b[4..] == EncodedStream(words[1..]);
      BigEndianRoundTrip(words[0]);
      StreamRoundTrip(words[1..]);
    }
  }

  /** Encoding one more word appends its four bytes to the stream. */
  lemma {:induction false} EncodedStreamAppend(words: seq<bv32>, w: bv32)
    ensures EncodedStream(words + [w]) == EncodedStream(words) + BigEndianBytes(w)
  {
    if words != [] {
      assert (words + [w])[1..] == words[1..] + [w];
      EncodedStreamAppend(words[1..], w);
    } else {
      assert words + [w] == [w];
    }
  }

  /**
   * A stream that ends with the encoding of `words` ends with the encoding
   * of `words + [w]` once the four bytes of `w` are appended.
   */
  lemma StreamTailAppend(before: seq<bv8>, words: seq<bv32>, w: bv32)
    ensures var after := before + BigEndianBytes(w);
      4 * |words| <= |before| && before[|before| - 4 * |words|..] == EncodedStream(words) ==>
      after[|after| - 4 * (|words| + 1)..] == EncodedStream(words + [w])
  {
    var bytes := BigEndianBytes(w);
    if 4 * |words| <= |before| && before[|before| - 4 * |words|..] == EncodedStream(words) {
      EncodedStreamAppend(words, w);
      SuffixAppend(before, EncodedStream(words), bytes);
    }
  }

  /** Appending `t` to a sequence that ends with `e` gives one that ends with `e + t`. */
  lemma SuffixAppend<T>(a: seq<T>, e: seq<T>, t: seq<T>)
    requires |e| <= |a| && a[|a| - |e|..] == e
    ensures (a + t)[|a + t| - (|e| + |t|)..] == e + t
  {
    assert (a + t)[|a + t| - (|e| + |t|)..] == a[|a| - |e|..] + t;
  }

  /** Byte `i / 8` from the top of the emitted word: (Value >> i) & 0xff. */
  function ByteAt(value: bv32, i: int): bv8
    requires i == 0 || i == 8 || i == 16 || i == 24
  {
    if i == 24 then (value >> 24) as bv8
    else if i == 16 then ((value >> 16) & 0xff) as bv8
    else if i == 8 then ((value >> 8) & 0xff) as bv8
    else (value & 0xff) as bv8
  }

  /** The code emitter: it counts the instructions it has encoded. */
  class CodeEmitter {
    var numEmitted: nat
    /** The instruction words encoded so far, in order. */
    ghost var emitted: seq<bv32>

    constructor()
      ensures numEmitted == 0 && emitted == []
    {
      numEmitted := 0;
      emitted := [];
    }

    /** The stream `out` ends with the encoding of every word emitted so far. */
    ghost predicate EndsWithEmitted(out: Vector<bv8>)
      reads this, out
    {
      4 * |emitted| <= |out.elems|
      && out.elems[|out.elems| - 4 * |emitted|..] == EncodedStream(emitted)
    }

    /**
     * encodeInstruction, given the TableGen-generated instruction word
     * `value`: counts one more instruction and appends its four bytes,
     * most significant first, to `out`.
     */
    method EncodeInstruction(value: bv32, out: Vector<bv8>)
      modifies this, out
      ensures numEmitted == old(numEmitted) + 1
      ensures out.elems == old(out.elems) + BigEndianBytes(value)
      ensures emitted == old(emitted) + [value]
      // successive calls on the same stream leave it ending with their words' encoding
      ensures old(EndsWithEmitted(out)) ==> EndsWithEmitted(out)
    {
      numEmitted := numEmitted + 1;
      ghost var before := out.elems;
      ghost var words := emitted;
      emitted := emitted + [value];
      var i := 24;
      while i >= 0
        invariant i == 24 || i == 16 || i == 8 || i == 0 || i == -8
        invariant numEmitted == old(numEmitted) + 1
        invariant emitted == words + [value]
        invariant out.elems == old(out.elems) + BigEndianBytes(value)[..(24 - i) / 8]
        decreases i
      {
        out.PushBack(ByteAt(value, i));
        i := i - 8;
      }
      StreamTailAppend(before, words, value);
    }
  }
}
