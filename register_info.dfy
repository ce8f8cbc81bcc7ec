/**
 * Register information of the target (FantasyRegisterInfo.cpp): the
 * reserved registers, the frame and base registers, the opcode tables, and
 * frame-index elimination, which rewrites an instruction addressing a
 * stack object into one or more instructions addressing it off the frame,
 * stack or base register.
 */
module RegisterInfo {
  import opened Bits
  import opened AluCode
  import opened CondCode
  import opened BaseInfo
  import opened InstrInfo

  /** Machine operands: registers (with their def and kill flags), immediates and abstract frame indices. */
  datatype MachineOperand =
    | MOReg(reg: Register, isDef: bool, isKill: bool)
    | MOImm(imm: int)
    | MOFrameIndex(index: int)

  datatype MachineInstr = MachineInstr(opcode: Opcode, operands: seq<MachineOperand>)

  /** A register operand as BuildMI's destination, and as a plain use. */
  function Def(reg: Register): MachineOperand
  {
    MOReg(reg, true, false)
  }

  function Use(reg: Register): MachineOperand
  {
    MOReg(reg, false, false)
  }

  /**
   * What frame-index elimination asks of the function being compiled: the
   * frame objects' offsets, the stack size, and the frame-lowering queries.
   */
  datatype FrameInfo = FrameInfo(
    objectOffsets: map<int, int>,
    stackSize: nat,
    hasFP: bool,
    needsStackRealignment: bool,
    hasVarSizedObjects: bool)

  /** A base pointer is needed when the stack is realigned and has dynamically sized objects. */
  predicate HasBasePointer(frame: FrameInfo)
  {
    frame.needsStackRealignment && frame.hasVarSizedObjects
  }

  const FrameRegister: Register := FP
  const BaseRegister: Register := R(14)
  const RARegister: Register := RCA

  /** The registers the allocator must not use. */
  function GetReservedRegs(frame: FrameInfo): (reserved: set<Register>)
    ensures {R(0), R(1), R(2), R(4), R(5), R(10), R(11), R(15)} <= reserved
    ensures {PC, SP, FP, RR1, RR2, RCA} <= reserved
    // the base register is reserved exactly when a base pointer is used
    ensures BaseRegister in reserved <==> HasBasePointer(frame)
    // and nothing else is
    ensures forall r | r in reserved :: r.R? ==> r.index in {0, 1, 2, 4, 5, 10, 11, 14, 15}
    ensures forall r | r in reserved :: r.R? || r in {PC, SP, FP, RR1, RR2, RCA}
  {
    {R(0), R(1), PC, R(2), SP, R(4), FP, R(5), RR1, R(10), RR2, R(11), RCA, R(15)}
    + (if HasBasePointer(frame) then {BaseRegister} else {})
  }

  /**
   * Reservation respects aliasing: with every reserved alias, the
   * general-purpose register of the same number is reserved too.
   */
  lemma ReservedRegsCloseAliases(frame: FrameInfo, r: Register)
    requires r in GetReservedRegs(frame)
    ensures HasNumber(r) && R(RegisterNumbering(r) as bv5) in GetReservedRegs(frame)
  {
  }

  /** ALU operations with a low 16-bit immediate. */
  predicate IsALUArithLoOpcode(op: Opcode)
  {
    match op
    case ADD_I_LO | SUB_I_LO | ADD_F_I_LO | SUB_F_I_LO | ADDC_I_LO | SUBB_I_LO | ADDC_F_I_LO | SUBB_F_I_LO => true
    case _ => false
  }

  /** The ALU-lo opcodes are not loads or stores, so the flip and the register-register rewrite never meet. */
  lemma ALUArithLoOpcodeIsNotMemory(op: Opcode)
    requires IsALUArithLoOpcode(op)
    ensures !IsSplsOpcode(op) && !IsRmOpcode(op) && !IsRrmOpcode(op)
  {
  }

  /** Additions count up, subtractions count down. */
  predicate IsALUSubtract(op: Opcode)
  {
    op in {SUB_I_LO, SUB_F_I_LO, SUBB_I_LO, SUBB_F_I_LO}
  }

  /** The ALU-lo opcode with the opposite direction and the same flag and carry behaviour. */
  function GetOppositeALULoOpcode(op: Opcode): (r: Opcode)
    requires IsALUArithLoOpcode(op)
    ensures IsALUArithLoOpcode(r)
    ensures IsALUSubtract(r) <==> !IsALUSubtract(op)
  {
    match op
    case ADD_I_LO => SUB_I_LO
    case SUB_I_LO => ADD_I_LO
    case ADD_F_I_LO => SUB_F_I_LO
    case SUB_F_I_LO => ADD_F_I_LO
    case ADDC_I_LO => SUBB_I_LO
    case SUBB_I_LO => ADDC_I_LO
    case ADDC_F_I_LO => SUBB_F_I_LO
    case SUBB_F_I_LO => ADDC_F_I_LO
  }

  /** Taking the opposite twice gives the opcode back. */
  lemma OppositeALULoOpcodeInvolution(op: Opcode)
    requires IsALUArithLoOpcode(op)
    ensures GetOppositeALULoOpcode(GetOppositeALULoOpcode(op)) == op
  {
  }

  /** The register-register form of an SPLS or RM load or store. */
  function GetRRMOpcodeVariant(op: Opcode): (r: Opcode)
    requires IsSplsOpcode(op) || IsRmOpcode(op)
    ensures IsRrmOpcode(r)
    ensures r != LDWz_RR
  {
    match op
    case LDBs_RI => LDBs_RR
    case LDBz_RI => LDBz_RR
    case LDHs_RI => LDHs_RR
    case LDHz_RI => LDHz_RR
    case LDW_RI => LDW_RR
    case STB_RI => STB_RR
    case STH_RI => STH_RR
    case SW_RI => SW_RR
  }

  /** Distinct memory opcodes keep distinct register-register forms. */
  lemma RRMOpcodeVariantInjective(a: Opcode, b: Opcode)
    requires IsSplsOpcode(a) || IsRmOpcode(a)
    requires IsSplsOpcode(b) || IsRmOpcode(b)
    requires GetRRMOpcodeVariant(a) == GetRRMOpcodeVariant(b)
    ensures a == b
  {
  }

  /** The operand pair (frame index, immediate) at `fiOp` refers to an object of the frame. */
  predicate RefersToFrameObject(mi: MachineInstr, fiOp: nat, frame: FrameInfo)
  {
    fiOp + 1 < |mi.operands|
    && mi.operands[fiOp].MOFrameIndex?
    && mi.operands[fiOp + 1].MOImm?
    && mi.operands[fiOp].index in frame.objectOffsets
  }

  /**
   * The object's offset from the register chosen by `FrameReg`: negative
   * offsets from the frame pointer, or positive ones from the stack or base
   * pointer once the stack size is added.
   */
  function FrameOffset(mi: MachineInstr, fiOp: nat, frame: FrameInfo): (offset: int)
    requires RefersToFrameObject(mi, fiOp, frame)
    // addressed from SP or the base pointer: the stack size is always added
    ensures FrameReg(frame, mi.operands[fiOp].index) != FrameRegister ==>
      offset == frame.objectOffsets[mi.operands[fiOp].index] + mi.operands[fiOp + 1].imm + frame.stackSize
    // any object addressed from an existing frame pointer: the object's own offset
    ensures frame.hasFP && FrameReg(frame, mi.operands[fiOp].index) == FrameRegister ==>
      offset == frame.objectOffsets[mi.operands[fiOp].index] + mi.operands[fiOp + 1].imm
    // without a frame pointer every offset is taken from the bottom of the stack
    ensures !frame.hasFP ==>
      offset == frame.objectOffsets[mi.operands[fiOp].index] + mi.operands[fiOp + 1].imm + frame.stackSize
  {
    frame.objectOffsets[mi.operands[fiOp].index] + mi.operands[fiOp + 1].imm
    + (if !frame.hasFP || (frame.needsStackRealignment && mi.operands[fiOp].index >= 0) then frame.stackSize else 0)
  }

  /** The register a frame object is addressed from. */
  function FrameReg(frame: FrameInfo, fi: int): (r: Register)
    ensures fi < 0 ==> r == FrameRegister
    ensures fi >= 0 && HasBasePointer(frame) ==> r == BaseRegister
    ensures fi >= 0 && !HasBasePointer(frame) && frame.needsStackRealignment ==> r == SP
    ensures fi < 0 || !frame.needsStackRealignment ==> r == FrameRegister
    ensures r in {FrameRegister, SP, BaseRegister}
  {
    if fi >= 0 && HasBasePointer(frame) then BaseRegister
    else if fi >= 0 && frame.needsStackRealignment then SP
    else FrameRegister
  }

  /** Non-fixed objects are addressed from the base register exactly when the function has a base pointer. */
  lemma BasePointerAddressesLocals(frame: FrameInfo, fi: int)
    requires fi >= 0
    ensures FrameReg(frame, fi) == BaseRegister <==> HasBasePointer(frame)
  {
  }

  /** Every register frame objects are addressed from is reserved, so the allocator never clobbers it. */
  lemma FrameRegIsReserved(frame: FrameInfo, fi: int)
    ensures FrameReg(frame, fi) in GetReservedRegs(frame)
  {
  }

  /** Whether the offset fits the instruction's own immediate field. */
  predicate FitsImmediateField(op: Opcode, offset: int)
  {
    !((IsSplsOpcode(op) && !IsInt10(offset)) || !IsInt16(offset))
  }

  /**
   * What the rewrite of an operand pair with a given offset requires: the
   * operand layout it reads, a 32-bit offset that can be negated, a
   * destination register on the two paths that copy operand 0, operand 3 holding ADD where
   * the register-register form must subtract, and no other opcode reaching
   * the register-register rewrite.
   */
  predicate CanRewrite(mi: MachineInstr, fiOp: nat, offset: int, L: Lpac)
  {
    fiOp + 1 < |mi.operands|
    && -0x7fff_ffff <= offset <= 0x7fff_ffff
    && ((mi.opcode == ADD_I_LO && !FitsImmediateField(mi.opcode, offset))
        || (IsALUArithLoOpcode(mi.opcode) && FitsImmediateField(mi.opcode, offset) && offset < 0)
        ==> mi.operands[0].MOReg?)
    && (!FitsImmediateField(mi.opcode, offset) && mi.opcode != ADD_I_LO ==>
          (IsSplsOpcode(mi.opcode) || IsRmOpcode(mi.opcode))
          && (offset < 0 ==> |mi.operands| > 3 && mi.operands[3] == MOImm(L.ADD as int)))
  }

  /** What eliminateFrameIndex requires of the instruction and its frame. */
  predicate CanEliminate(mi: MachineInstr, fiOp: nat, frame: FrameInfo, L: Lpac)
  {
    RefersToFrameObject(mi, fiOp, frame) && CanRewrite(mi, fiOp, FrameOffset(mi, fiOp, frame), L)
  }

  /**
   * The value the scavenged register holds after `m`: either a MOVHI of
   * the high half followed by an OR_I_LO of the low half (the two halves do
   * not overlap, so the OR is their sum), or one ADD_I_LO of the value.
   */
  ghost predicate LoadsRegister(m: seq<MachineInstr>, reg: Register, v: int)
  {
    (exists hi: int, lo: int | 0 <= lo < 0x10000 && v == hi * 0x10000 + lo ::
       m == [MachineInstr(MOVHI, [Def(reg), MOImm(hi)]), MachineInstr(OR_I_LO, [Def(reg), Use(reg), MOImm(lo)])])
    || m == [MachineInstr(ADD_I_LO, [Def(reg), MOImm(0), MOImm(v)])]
  }

  /** The instructions that put a non-negative offset into the scavenged register. */
  function MaterializeOffset(reg: Register, mag: int): (m: seq<MachineInstr>)
    requires 0 <= mag <= 0x7fff_ffff
    ensures |m| == if IsInt16(mag) then 1 else 2
  {
    if !IsInt16(mag) then
      // the low 32 bits of mag shifted right by 16, and mag with all but the low 16 bits cleared
      [MachineInstr(MOVHI, [Def(reg), MOImm(mag / 0x10000)]),
       MachineInstr(OR_I_LO, [Def(reg), Use(reg), MOImm(mag % 0x10000)])]
    else
      [MachineInstr(ADD_I_LO, [Def(reg), MOImm(0), MOImm(mag)])]
  }

  /**
   * The materialisation leaves exactly the value in the register, writes
   * no frame index, and uses only immediates that fit an unsigned 16-bit
   * field.
   */
  lemma MaterializeOffsetCorrect(reg: Register, mag: int)
    requires 0 <= mag <= 0x7fff_ffff
    ensures LoadsRegister(MaterializeOffset(reg, mag), reg, mag)
    ensures NoneHasFrameIndex(MaterializeOffset(reg, mag))
    ensures forall k, j | 0 <= k < |MaterializeOffset(reg, mag)| && 0 <= j < |MaterializeOffset(reg, mag)[k].operands|
                          && MaterializeOffset(reg, mag)[k].operands[j].MOImm? ::
              0 <= MaterializeOffset(reg, mag)[k].operands[j].imm < 0x10000
  {
    if !IsInt16(mag) {
      var hi, lo := mag / 0x10000, mag % 0x10000;
      assert mag == hi * 0x10000 + lo;
      assert MaterializeOffset(reg, mag)
             == [MachineInstr(MOVHI, [Def(reg), MOImm(hi)]), MachineInstr(OR_I_LO, [Def(reg), Use(reg), MOImm(lo)])];
    }
  }

  /**
   * The rewrite of an offset that does not fit the instruction: |offset| is
   * computed in the scratch register, which the instruction then combines
   * with the frame register.
   */
  function RewriteViaScratch(mi: MachineInstr, fiOp: nat, offset: int, frameReg: Register, scratch: Register,
                             L: Lpac, C: Lpcc): (r: seq<MachineInstr>)
    requires CanRewrite(mi, fiOp, offset, L)
    requires !FitsImmediateField(mi.opcode, offset)
    ensures |r| >= 2
    // before the combining instruction runs, the scratch register holds |offset|
    ensures LoadsRegister(r[..|r| - 1], scratch, if offset < 0 then -offset else offset)
  {
    MaterializeOffsetCorrect(scratch, if offset < 0 then -offset else offset);
    assert (MaterializeOffset(scratch, if offset < 0 then -offset else offset)
            + [CombineWithScratch(mi, fiOp, offset, frameReg, scratch, L, C)])[..|MaterializeOffset(scratch, if offset < 0 then -offset else offset)|]
           == MaterializeOffset(scratch, if offset < 0 then -offset else offset);
    MaterializeOffset(scratch, if offset < 0 then -offset else offset)
    + [CombineWithScratch(mi, fiOp, offset, frameReg, scratch, L, C)]
  }

  /**
   * The instruction that combines the frame register with the scratch
   * register: an ADD_R or SUB_R into the destination of an ADD_I_LO, or the
   * register-register form of a load or store.
   */
  function CombineWithScratch(mi: MachineInstr, fiOp: nat, offset: int, frameReg: Register, scratch: Register,
                              L: Lpac, C: Lpcc): (r: MachineInstr)
    requires CanRewrite(mi, fiOp, offset, L)
    requires !FitsImmediateField(mi.opcode, offset)
    ensures mi.opcode == ADD_I_LO ==> (r.opcode == SUB_R <==> offset < 0) && (r.opcode == ADD_R <==> offset >= 0)
    ensures mi.opcode != ADD_I_LO ==> IsRrmOpcode(r.opcode)
    ensures Use(frameReg) in r.operands
  {
    if mi.opcode == ADD_I_LO then
      MachineInstr(if offset < 0 then SUB_R else ADD_R,
                   [Def(mi.operands[0].reg), Use(frameReg), Use(scratch), MOImm(C.ICC_T as int)])
    else
      var ops := OperandsWithAluOp(mi, offset, L)[fiOp := Use(frameReg)][fiOp + 1 := MOReg(scratch, false, true)];
      assert ops[fiOp] == Use(frameReg);
      MachineInstr(GetRRMOpcodeVariant(mi.opcode), ops)
  }

  /** The operands of an out-of-range load or store before its frame index is replaced. */
  function OperandsWithAluOp(mi: MachineInstr, offset: int, L: Lpac): (ops: seq<MachineOperand>)
    requires |mi.operands| > 3 || offset >= 0
    ensures |ops| == |mi.operands|
  {
    if offset < 0 then mi.operands[3 := MOImm(L.SUB as int)] else mi.operands
  }

  /** The instructions that replace `mi` when its operand pair at `fiOp` means frameReg + offset. */
  function Rewrite(mi: MachineInstr, fiOp: nat, offset: int, frameReg: Register, scratch: Register,
                   L: Lpac, C: Lpcc): seq<MachineInstr>
    requires CanRewrite(mi, fiOp, offset, L)
  {
    if !FitsImmediateField(mi.opcode, offset) then
      RewriteViaScratch(mi, fiOp, offset, frameReg, scratch, L, C)
    else if offset < 0 && IsALUArithLoOpcode(mi.opcode) then
      // the immediates of ALU operations are unsigned: flip the operation and negate the offset
      [MachineInstr(GetOppositeALULoOpcode(mi.opcode), [Def(mi.operands[0].reg), Use(frameReg), MOImm(-offset)])]
    else
      [MachineInstr(mi.opcode, mi.operands[fiOp := Use(frameReg)][fiOp + 1 := MOImm(offset)])]
  }

  /**
   * The instructions that replace `mi` once its frame index is eliminated,
   * with `scratch` the register the scavenger provides.
   */
  function Eliminated(mi: MachineInstr, fiOp: nat, frame: FrameInfo, scratch: Register, L: Lpac, C: Lpcc)
    : seq<MachineInstr>
    requires CanEliminate(mi, fiOp, frame, L)
  {
    Rewrite(mi, fiOp, FrameOffset(mi, fiOp, frame), FrameReg(frame, mi.operands[fiOp].index), scratch, L, C)
  }

  /**
   * The shape of a rewrite: a single instruction exactly when the offset
   * fits the instruction's immediate field, and the last instruction reads
   * the frame register.
   */
  lemma RewriteShape(mi: MachineInstr, fiOp: nat, offset: int, frameReg: Register, scratch: Register,
                     L: Lpac, C: Lpcc)
    requires CanRewrite(mi, fiOp, offset, L)
    ensures var r := Rewrite(mi, fiOp, offset, frameReg, scratch, L, C);
      |r| >= 1 && (|r| == 1 <==> FitsImmediateField(mi.opcode, offset))
      && Use(frameReg) in r[|r| - 1].operands
  {
    var r := Rewrite(mi, fiOp, offset, frameReg, scratch, L, C);
    if FitsImmediateField(mi.opcode, offset) {
      if offset < 0 && IsALUArithLoOpcode(mi.opcode) {
        assert r[0].operands[1] == Use(frameReg);
      } else {
        assert r[0].operands[fiOp] == Use(frameReg);
      }
    }
  }

  /** The same for a whole elimination, with the offset and register eliminateFrameIndex computes. */
  lemma EliminatedShape(mi: MachineInstr, fiOp: nat, frame: FrameInfo, scratch: Register, L: Lpac, C: Lpcc)
    requires CanEliminate(mi, fiOp, frame, L)
    ensures var r := Eliminated(mi, fiOp, frame, scratch, L, C);
      |r| >= 1 && (|r| == 1 <==> FitsImmediateField(mi.opcode, FrameOffset(mi, fiOp, frame)))
      && Use(FrameReg(frame, mi.operands[fiOp].index)) in r[|r| - 1].operands
  {
    RewriteShape(mi, fiOp, FrameOffset(mi, fiOp, frame), FrameReg(frame, mi.operands[fiOp].index), scratch, L, C);
  }

  predicate NoFrameIndex(mi: MachineInstr)
  {
    forall j | 0 <= j < |mi.operands| :: !mi.operands[j].MOFrameIndex?
  }

  predicate NoneHasFrameIndex(s: seq<MachineInstr>)
  {
    forall k | 0 <= k < |s| :: NoFrameIndex(s[k])
  }

  /**
   * No frame index survives: if the eliminated operand was the
   * instruction's only frame index, none of the replacement instructions
   * has one, so elimination never has to run on them again.
   */
  lemma RewriteHasNoFrameIndex(mi: MachineInstr, fiOp: nat, offset: int, frameReg: Register, scratch: Register,
                               L: Lpac, C: Lpcc)
    requires CanRewrite(mi, fiOp, offset, L)
    requires forall j | 0 <= j < |mi.operands| && j != fiOp :: !mi.operands[j].MOFrameIndex?
    ensures NoneHasFrameIndex(Rewrite(mi, fiOp, offset, frameReg, scratch, L, C))
  {
    if !FitsImmediateField(mi.opcode, offset) {
      ViaScratchHasNoFrameIndex(mi, fiOp, offset, frameReg, scratch, L, C);
    } else if !(offset < 0 && IsALUArithLoOpcode(mi.opcode)) {
      ReplacedPairHasNoFrameIndex(mi.opcode, mi.operands, fiOp, Use(frameReg), MOImm(offset));
    }
  }

  lemma ViaScratchHasNoFrameIndex(mi: MachineInstr, fiOp: nat, offset: int, frameReg: Register, scratch: Register,
                                  L: Lpac, C: Lpcc)
    requires CanRewrite(mi, fiOp, offset, L)
    requires !FitsImmediateField(mi.opcode, offset)
    requires forall j | 0 <= j < |mi.operands| && j != fiOp :: !mi.operands[j].MOFrameIndex?
    ensures NoneHasFrameIndex(RewriteViaScratch(mi, fiOp, offset, frameReg, scratch, L, C))
  {
    CombineHasNoFrameIndex(mi, fiOp, offset, frameReg, scratch, L, C);
    MaterializeOffsetCorrect(scratch, if offset < 0 then -offset else offset);
    NoneHasFrameIndexAppend(MaterializeOffset(scratch, if offset < 0 then -offset else offset),
                            CombineWithScratch(mi, fiOp, offset, frameReg, scratch, L, C));
  }

  lemma CombineHasNoFrameIndex(mi: MachineInstr, fiOp: nat, offset: int, frameReg: Register, scratch: Register,
                               L: Lpac, C: Lpcc)
    requires CanRewrite(mi, fiOp, offset, L)
    requires !FitsImmediateField(mi.opcode, offset)
    requires forall j | 0 <= j < |mi.operands| && j != fiOp :: !mi.operands[j].MOFrameIndex?
    ensures NoFrameIndex(CombineWithScratch(mi, fiOp, offset, frameReg, scratch, L, C))
  {
    if mi.opcode == ADD_I_LO {
      var ops := [Def(mi.operands[0].reg), Use(frameReg), Use(scratch), MOImm(C.ICC_T as int)];
      assert CombineWithScratch(mi, fiOp, offset, frameReg, scratch, L, C)
             == MachineInstr(if offset < 0 then SUB_R else ADD_R, ops);
      assert forall j | 0 <= j < 4 :: !ops[j].MOFrameIndex?;
    } else {
      var ops := OperandsWithAluOp(mi, offset, L);
      assert forall j | 0 <= j < |ops| && j != fiOp :: !ops[j].MOFrameIndex?;
      ReplacedPairHasNoFrameIndex(GetRRMOpcodeVariant(mi.opcode), ops, fiOp, Use(frameReg), MOReg(scratch, false, true));
    }
  }

  /** The same for a whole frame-index elimination. */
  lemma EliminatedHasNoFrameIndex(mi: MachineInstr, fiOp: nat, frame: FrameInfo, scratch: Register, L: Lpac, C: Lpcc)
    requires CanEliminate(mi, fiOp, frame, L)
    requires forall j | 0 <= j < |mi.operands| && j != fiOp :: !mi.operands[j].MOFrameIndex?
    ensures NoneHasFrameIndex(Eliminated(mi, fiOp, frame, scratch, L, C))
  {
    RewriteHasNoFrameIndex(mi, fiOp, FrameOffset(mi, fiOp, frame), FrameReg(frame, mi.operands[fiOp].index),
                           scratch, L, C);
  }

  lemma NoneHasFrameIndexAppend(m: seq<MachineInstr>, last: MachineInstr)
    requires NoneHasFrameIndex(m) && NoFrameIndex(last)
    ensures NoneHasFrameIndex(m + [last])
  {
  }

  /** Replacing the frame-index pair of operands by two that are not frame indices leaves none. */
  lemma ReplacedPairHasNoFrameIndex(op: Opcode, ops: seq<MachineOperand>, fiOp: nat, a: MachineOperand, b: MachineOperand)
    requires fiOp + 1 < |ops|
    requires forall j | 0 <= j < |ops| && j != fiOp :: !ops[j].MOFrameIndex?
    requires !a.MOFrameIndex? && !b.MOFrameIndex?
    ensures NoFrameIndex(MachineInstr(op, ops[fiOp := a][fiOp + 1 := b]))
  {
  }

  /**
   * Offsets that fit are encoded directly: the instruction is kept with the
   * frame register and the offset in place of the frame index, unless it is
   * an ALU operation with a negative offset, which becomes the opposite
   * operation on the negated offset, a value in [1, 2^15].
   */
  lemma EliminatedInRange(mi: MachineInstr, fiOp: nat, frame: FrameInfo, scratch: Register, L: Lpac, C: Lpcc)
    requires CanEliminate(mi, fiOp, frame, L)
    requires FitsImmediateField(mi.opcode, FrameOffset(mi, fiOp, frame))
    ensures var res := Eliminated(mi, fiOp, frame, scratch, L, C);
            var offset := FrameOffset(mi, fiOp, frame);
            var frameReg := FrameReg(frame, mi.operands[fiOp].index);
            |res| == 1
            && (if offset < 0 && IsALUArithLoOpcode(mi.opcode) then
                  res[0].opcode == GetOppositeALULoOpcode(mi.opcode)
                  && res[0].operands == [Def(mi.operands[0].reg), Use(frameReg), MOImm(-offset)]
                  && 1 <= -offset <= 0x8000
                else
                  res[0].opcode == mi.opcode
                  && |res[0].operands| == |mi.operands|
                  && res[0].operands[fiOp] == Use(frameReg)
                  && res[0].operands[fiOp + 1] == MOImm(offset)
                  && (forall j | 0 <= j < |mi.operands| && j != fiOp && j != fiOp + 1 ::
                        res[0].operands[j] == mi.operands[j]))
  {
  }

  /**
   * Offsets that do not fit go through the scavenged register, which is
   * loaded with |offset|, and the final instruction combines it with the
   * frame register: for an ADD_I_LO, an ADD_R or, when the offset is
   * negative, a SUB_R into the original destination.
   */
  lemma EliminatedOutOfRangeAdd(mi: MachineInstr, fiOp: nat, frame: FrameInfo, scratch: Register, L: Lpac, C: Lpcc)
    requires CanEliminate(mi, fiOp, frame, L)
    requires !FitsImmediateField(mi.opcode, FrameOffset(mi, fiOp, frame))
    requires mi.opcode == ADD_I_LO
    ensures var res := Eliminated(mi, fiOp, frame, scratch, L, C);
            var offset := FrameOffset(mi, fiOp, frame);
            2 <= |res| <= 3
            && LoadsRegister(res[..|res| - 1], scratch, if offset < 0 then -offset else offset)
            && res[|res| - 1] == MachineInstr(if offset < 0 then SUB_R else ADD_R,
                                              [Def(mi.operands[0].reg), Use(FrameReg(frame, mi.operands[fiOp].index)),
                                               Use(scratch), MOImm(C.ICC_T as int)])
  {
    OutOfRangeSplit(mi, fiOp, frame, scratch, L, C);
  }

  /**
   * For an SPLS or RM load or store whose offset does not fit, the
   * scavenged register is loaded with |offset| and the instruction becomes
   * its register-register form, reading the frame register and (killing)
   * the scavenged one; laid out as value, base, offset, operator, its ALU
   * operator (ADD before) becomes SUB when the offset is negative and is
   * kept otherwise.
   */
  lemma EliminatedOutOfRangeMemory(mi: MachineInstr, fiOp: nat, frame: FrameInfo, scratch: Register, L: Lpac, C: Lpcc)
    requires CanEliminate(mi, fiOp, frame, L)
    requires !FitsImmediateField(mi.opcode, FrameOffset(mi, fiOp, frame))
    requires mi.opcode != ADD_I_LO
    ensures var res := Eliminated(mi, fiOp, frame, scratch, L, C);
            var offset := FrameOffset(mi, fiOp, frame);
            var last := res[|res| - 1];
            2 <= |res| <= 3
            && LoadsRegister(res[..|res| - 1], scratch, if offset < 0 then -offset else offset)
            && last.opcode == GetRRMOpcodeVariant(mi.opcode)
            && |last.operands| == |mi.operands|
            && last.operands[fiOp] == Use(FrameReg(frame, mi.operands[fiOp].index))
            && last.operands[fiOp + 1] == MOReg(scratch, false, true)
            && (fiOp == 1 && |mi.operands| == 4 ==>
                  last.operands[3] == (if offset < 0 then MOImm(L.SUB as int) else mi.operands[3])
                  && last.operands[0] == mi.operands[0])
  {
    OutOfRangeSplit(mi, fiOp, frame, scratch, L, C);
  }

  /** An out-of-range elimination is the materialisation followed by the combining instruction. */
  lemma OutOfRangeSplit(mi: MachineInstr, fiOp: nat, frame: FrameInfo, scratch: Register, L: Lpac, C: Lpcc)
    requires CanEliminate(mi, fiOp, frame, L)
    requires !FitsImmediateField(mi.opcode, FrameOffset(mi, fiOp, frame))
    ensures var res := Eliminated(mi, fiOp, frame, scratch, L, C);
            var offset := FrameOffset(mi, fiOp, frame);
            var mag := if offset < 0 then -offset else offset;
            2 <= |res| <= 3
            && res[..|res| - 1] == MaterializeOffset(scratch, mag)
            && LoadsRegister(res[..|res| - 1], scratch, mag)
            && res[|res| - 1] == CombineWithScratch(mi, fiOp, offset, FrameReg(frame, mi.operands[fiOp].index), scratch, L, C)
  {
    RewriteOutOfRangeSplit(mi, fiOp, FrameOffset(mi, fiOp, frame), FrameReg(frame, mi.operands[fiOp].index), scratch, L, C);
  }

  /** The same for a rewrite with a given offset and frame register. */
  lemma RewriteOutOfRangeSplit(mi: MachineInstr, fiOp: nat, offset: int, frameReg: Register, scratch: Register,
                               L: Lpac, C: Lpcc)
    requires CanRewrite(mi, fiOp, offset, L)
    requires !FitsImmediateField(mi.opcode, offset)
    ensures var res := Rewrite(mi, fiOp, offset, frameReg, scratch, L, C);
            var mag := if offset < 0 then -offset else offset;
            2 <= |res| <= 3
            && res[..|res| - 1] == MaterializeOffset(scratch, mag)
            && LoadsRegister(res[..|res| - 1], scratch, mag)
            && res[|res| - 1] == CombineWithScratch(mi, fiOp, offset, frameReg, scratch, L, C)
  {
    var mag := if offset < 0 then -offset else offset;
    var m := MaterializeOffset(scratch, mag);
    var res := Rewrite(mi, fiOp, offset, frameReg, scratch, L, C);
    assert res == m + [CombineWithScratch(mi, fiOp, offset, frameReg, scratch, L, C)];
    assert res[..|res| - 1] == m;
    MaterializeOffsetCorrect(scratch, mag);
  }

  /** A basic block: its instruction list, edited in place. */
  class MachineBasicBlock {
    var instrs: seq<MachineInstr>

    constructor (instrs: seq<MachineInstr>)
      ensures this.instrs == instrs
    {
      this.instrs := instrs;
    }

    /** BuildMI before position `pos`: inserts one instruction there. */
    method InsertBefore(pos: nat, mi: MachineInstr)
      requires pos <= |instrs|
      modifies this
      ensures instrs == old(instrs)[..pos] + [mi] + old(instrs)[pos..]
    {
      instrs := instrs[..pos] + [mi] + instrs[pos..];
    }

    /** Writes back an instruction whose descriptor or operands were changed. */
    method Update(pos: nat, mi: MachineInstr)
      requires pos < |instrs|
      modifies this
      ensures instrs == old(instrs)[pos := mi]
    {
      instrs := instrs[pos := mi];
    }

    /** eraseFromParent: removes the instruction at `pos`. */
    method Erase(pos: nat)
      requires pos < |instrs|
      modifies this
      ensures instrs == old(instrs)[..pos] + old(instrs)[pos + 1..]
    {
      instrs := instrs[..pos] + instrs[pos + 1..];
    }
  }

  /** BuildMI of the instructions of `MaterializeOffset` before position `pos`. */
  method BuildMaterializeOffset(mbb: MachineBasicBlock, pos: nat, reg: Register, mag: int)
    requires pos <= |mbb.instrs|
    requires 0 <= mag <= 0x7fff_ffff
    modifies mbb
    ensures mbb.instrs == old(mbb.instrs)[..pos] + MaterializeOffset(reg, mag) + old(mbb.instrs)[pos..]
  {
    if !IsInt16(mag) {
      // reg = hi(mag) | lo(mag)
      mbb.InsertBefore(pos, MachineInstr(MOVHI, [Def(reg), MOImm(mag / 0x10000)]));
      mbb.InsertBefore(pos + 1, MachineInstr(OR_I_LO, [Def(reg), Use(reg), MOImm(mag % 0x10000)]));
    } else {
      // reg = mov(mag)
      mbb.InsertBefore(pos, MachineInstr(ADD_I_LO, [Def(reg), MOImm(0), MOImm(mag)]));
    }
  }

  /**
   * The in-place edit of an out-of-range load or store: setDesc to its
   * register-register form, operand 3 from ADD to SUB when the offset was
   * negative, then the frame index becomes the frame register and the
   * offset the (killed) scratch register.
   */
  method ToRegisterRegisterForm(mi: MachineInstr, fiOp: nat, hasNegOffset: bool, frameReg: Register, reg: Register,
                                L: Lpac) returns (r: MachineInstr)
    requires IsSplsOpcode(mi.opcode) || IsRmOpcode(mi.opcode)
    requires fiOp + 1 < |mi.operands|
    requires hasNegOffset ==> |mi.operands| > 3
    ensures r == MachineInstr(GetRRMOpcodeVariant(mi.opcode),
                              OperandsWithAluOp(mi, if hasNegOffset then -1 else 0, L)
                                [fiOp := Use(frameReg)][fiOp + 1 := MOReg(reg, false, true)])
  {
    r := mi.(opcode := GetRRMOpcodeVariant(mi.opcode));
    if hasNegOffset {
      r := r.(operands := r.operands[3 := MOImm(L.SUB as int)]);
    }
    r := r.(operands := r.operands[fiOp := Use(frameReg)]);
    r := r.(operands := r.operands[fiOp + 1 := MOReg(reg, false, true)]);
  }

  /** The out-of-range half of eliminateFrameIndex, once the offset and frame register are known. */
  method RewriteThroughScratch(mbb: MachineBasicBlock, ii: nat, fiOp: nat, offset: int, frameReg: Register,
                               reg: Register, L: Lpac, C: Lpcc)
    requires ii < |mbb.instrs|
    requires CanRewrite(mbb.instrs[ii], fiOp, offset, L)
    requires !FitsImmediateField(mbb.instrs[ii].opcode, offset)
    modifies mbb
    ensures mbb.instrs == old(mbb.instrs)[..ii] + RewriteViaScratch(old(mbb.instrs)[ii], fiOp, offset, frameReg, reg, L, C)
                          + old(mbb.instrs)[ii + 1..]
  {
    ghost var before := mbb.instrs;
    var mi := mbb.instrs[ii];
    var hasNegOffset := false;
    var mag := offset;
    // ALU immediates are unsigned: negate the offset and reverse the operation later
    if mag < 0 {
      hasNegOffset := true;
      mag := -mag;
    }
    var last := BuildCombine(mi, fiOp, offset, hasNegOffset, frameReg, reg, L, C);
    assert RewriteViaScratch(mi, fiOp, offset, frameReg, reg, L, C) == MaterializeOffset(reg, mag) + [last];
    PlaceRewrite(mbb, ii, reg, mag, last, mi.opcode == ADD_I_LO);
  }

  /**
   * The block edits of the out-of-range rewrite: the materialisation of
   * `mag` in `reg` is built before position `ii`, then the instruction at
   * `ii` becomes `last`, either as a new instruction that replaces it
   * (`isNew`, the ADD_I_LO case) or by editing it in place.
   */
  method PlaceRewrite(mbb: MachineBasicBlock, ii: nat, reg: Register, mag: int, last: MachineInstr, isNew: bool)
    requires ii < |mbb.instrs|
    requires 0 <= mag <= 0x7fff_ffff
    modifies mbb
    ensures mbb.instrs == old(mbb.instrs)[..ii] + (MaterializeOffset(reg, mag) + [last]) + old(mbb.instrs)[ii + 1..]
  {
    ghost var before := mbb.instrs;
    BuildMaterializeOffset(mbb, ii, reg, mag);
    var pos := ii + if IsInt16(mag) then 1 else 2;
    if isNew {
      // reg = frameReg OP reg
      ReplaceByNew(mbb, pos, last);
    } else {
      mbb.Update(pos, last);
    }
    SplicedUpdate(before[..ii], MaterializeOffset(reg, mag), before[ii..], last);
  }

  /**
   * The instruction that ends the out-of-range rewrite, built as
   * eliminateFrameIndex builds it: a new ADD_R or SUB_R for an ADD_I_LO,
   * otherwise the edited load or store.
   */
  method BuildCombine(mi: MachineInstr, fiOp: nat, offset: int, hasNegOffset: bool, frameReg: Register, reg: Register,
                      L: Lpac, C: Lpcc) returns (last: MachineInstr)
    requires CanRewrite(mi, fiOp, offset, L)
    requires !FitsImmediateField(mi.opcode, offset)
    requires hasNegOffset == (offset < 0)
    ensures last == CombineWithScratch(mi, fiOp, offset, frameReg, reg, L, C)
  {
    if mi.opcode == ADD_I_LO {
      last := MachineInstr(if hasNegOffset then SUB_R else ADD_R,
                           [Def(mi.operands[0].reg), Use(frameReg), Use(reg), MOImm(C.ICC_T as int)]);
      assert last == CombineWithScratch(mi, fiOp, offset, frameReg, reg, L, C);
    } else {
      last := ToRegisterRegisterForm(mi, fiOp, hasNegOffset, frameReg, reg, L);
      assert last == CombineWithScratch(mi, fiOp, offset, frameReg, reg, L, C);
    }
  }

  /** BuildMI of `mi` before position `pos`, then eraseFromParent of the instruction that was there. */
  method ReplaceByNew(mbb: MachineBasicBlock, pos: nat, mi: MachineInstr)
    requires pos < |mbb.instrs|
    modifies mbb
    ensures mbb.instrs == old(mbb.instrs)[pos := mi]
  {
    ghost var before := mbb.instrs;
    mbb.InsertBefore(pos, mi);
    assert mbb.instrs[..pos + 1] == before[..pos] + [mi] && mbb.instrs[pos + 2..] == before[pos + 1..];
    mbb.Erase(pos + 1);
    assert mbb.instrs == before[..pos] + [mi] + before[pos + 1..];
  }

  /** Overwriting the element after a spliced-in run. */
  lemma SplicedUpdate<T>(a: seq<T>, m: seq<T>, b: seq<T>, x: T)
    requires |b| > 0
    ensures (a + m + b)[|a| + |m| := x] == a + (m + [x]) + b[1..]
  {
    assert (a + m + b)[|a| + |m| := x] == (a + m) + [x] + b[1..];
  }

  /**
   * eliminateFrameIndex of the instruction at position `ii` of `mbb`, whose
   * operand `fiOp` is a frame index: the block afterwards holds the
   * instructions of `Eliminated` in its place and is unchanged elsewhere.
   * `scratch` is the register the scavenger finds (it must find one).
   */
  method EliminateFrameIndex(mbb: MachineBasicBlock, ii: nat, spAdj: int, fiOp: nat, frame: FrameInfo,
                             scratch: Register, L: Lpac, C: Lpcc)
    requires spAdj == 0
    requires ii < |mbb.instrs|
    requires CanEliminate(mbb.instrs[ii], fiOp, frame, L)
    requires scratch != NoRegister
    modifies mbb
    ensures mbb.instrs == old(mbb.instrs)[..ii] + Eliminated(old(mbb.instrs)[ii], fiOp, frame, scratch, L, C)
                          + old(mbb.instrs)[ii + 1..]
  {
    var mi := mbb.instrs[ii];
    var hasFP := frame.hasFP;
    var frameIndex := mi.operands[fiOp].index;
    var offset := frame.objectOffsets[frameIndex] + mi.operands[fiOp + 1].imm;
    // objects are addressed by negative offsets from the frame pointer, or
    // positive ones from the stack or base pointer
    if !hasFP || (frame.needsStackRealignment && frameIndex >= 0) {
      offset := offset + frame.stackSize;
    }
    var frameReg := FrameRegister;
    if frameIndex >= 0 {
      if HasBasePointer(frame) {
        frameReg := BaseRegister;
      } else if frame.needsStackRealignment {
        frameReg := SP;
      }
    }
    assert offset == FrameOffset(mi, fiOp, frame) && frameReg == FrameReg(frame, frameIndex);
    assert Eliminated(mi, fiOp, frame, scratch, L, C) == Rewrite(mi, fiOp, offset, frameReg, scratch, L, C);

    if (IsSplsOpcode(mi.opcode) && !IsInt10(offset)) || !IsInt16(offset) {
      RewriteThroughScratch(mbb, ii, fiOp, offset, frameReg, scratch, L, C);
    } else {
      RewriteInPlace(mbb, ii, fiOp, offset, frameReg, scratch, L, C);
    }
  }

  /** The in-range half of eliminateFrameIndex, once the offset and frame register are known. */
  method RewriteInPlace(mbb: MachineBasicBlock, ii: nat, fiOp: nat, offset: int, frameReg: Register,
                        scratch: Register, L: Lpac, C: Lpcc)
    requires ii < |mbb.instrs|
    requires CanRewrite(mbb.instrs[ii], fiOp, offset, L)
    requires FitsImmediateField(mbb.instrs[ii].opcode, offset)
    modifies mbb
    ensures mbb.instrs == old(mbb.instrs)[..ii] + Rewrite(old(mbb.instrs)[ii], fiOp, offset, frameReg, scratch, L, C)
                          + old(mbb.instrs)[ii + 1..]
  {
    var mi := mbb.instrs[ii];
    if offset < 0 && IsALUArithLoOpcode(mi.opcode) {
      // replace the operation by its opposite on the negated offset
      var newOpcode := GetOppositeALULoOpcode(mi.opcode);
      var flipped := MachineInstr(newOpcode, [Def(mi.operands[0].reg), Use(frameReg), MOImm(-offset)]);
      assert Rewrite(mi, fiOp, offset, frameReg, scratch, L, C) == [flipped];
      ReplaceByNew(mbb, ii, flipped);
    } else {
      mi := mi.(operands := mi.operands[fiOp := Use(frameReg)]);
      mi := mi.(operands := mi.operands[fiOp + 1 := MOImm(offset)]);
      assert Rewrite(mbb.instrs[ii], fiOp, offset, frameReg, scratch, L, C) == [mi];
      mbb.Update(ii, mi);
    }
  }
}
