/**
 * Address-mode selection of the DAG instruction selector
 * (FantasyISelDAGToDAG.cpp): deciding how an address node is split into
 * base, offset and ALU operator for the RI, SPLS, RR and SLS load/store
 * families, and the inline-assembly memory operand hook built on them.
 */
module ISelDAGToDAG {
  import opened Wrappers
  import opened Bits
  import opened AluCode
  import opened BaseInfo
  import opened Containers

  /**
   * The address expressions the selector looks at. Constants carry their
   * sign-extended value; `isTarget` tells a target node (TargetConstant,
   * TargetFrameIndex, TargetExternalSymbol, TargetGlobalAddress) from the
   * generic one; HI, LO and SMALL are the target's wrapper nodes; `Value`
   * is any other node (a load, a copy from a virtual register, ...).
   */
  datatype Node =
    | Constant(value: int, isTarget: bool)
    | FrameIndex(index: int, isTarget: bool)
    | ExternalSymbol(symbol: string, isTarget: bool)
    | GlobalAddress(symbol: string, isTarget: bool)
    | Binary(op: IsdOpcode, lhs: Node, rhs: Node)
    | Hi(hiOperand: Node)
    | Lo(loOperand: Node)
    | Small(smallOperand: Node)
    | Reg(reg: Register)
    | Value(id: nat)

  /** The Base, Offset and AluOp out-parameters of a successful match. */
  datatype AddrMode = AddrMode(base: Node, offset: Node, aluOp: bv32)

  function TargetConstant(v: int): Node
  {
    Constant(v, true)
  }

  /** A node holding an ALU code as a 32-bit target constant. */
  function AluConstant(code: bv32): Node
  {
    Constant(code as int, true)
  }

  /** Direct call targets: TargetExternalSymbol and TargetGlobalAddress. */
  predicate IsDirectCallTarget(n: Node)
  {
    (n.ExternalSymbol? || n.GlobalAddress?) && n.isTarget
  }

  predicate IsHiLoSmall(n: Node)
  {
    n.Hi? || n.Lo? || n.Small?
  }

  /** An address `x | SMALL(y)`: the low part of an address the SLS form takes. */
  predicate IsOrSmall(n: Node)
  {
    n.Binary? && n.op == Or && n.rhs.Small?
  }

  /** Whether a displacement fits its family: 16 signed bits for RI, 10 for SPLS. */
  predicate FitsOffset(riMode: bool, c: int)
  {
    if riMode then IsInt16(c) else IsInt10(c)
  }

  /** An address `x + c` whose constant c fits the family's displacement. */
  predicate IsAddFitting(n: Node, riMode: bool)
  {
    n.Binary? && n.op == Add && n.rhs.Constant? && FitsOffset(riMode, n.rhs.value)
  }

  /**
   * `c & 0x3` on the two's-complement value of `c`: bit 0 plus twice bit 1,
   * where bit k is floor(c / 2^k) mod 2 (Dafny's division by a positive
   * constant rounds down, as an arithmetic shift does).
   */
  function LowTwoBits(c: int): int
  {
    c % 2 + 2 * ((c / 2) % 2)
  }

  /** The two low bits are clear exactly for multiples of four, negative ones included. */
  lemma LowTwoBitsClear(c: int)
    ensures LowTwoBits(c) == 0 <==> c % 4 == 0
  {
  }

  /** A constant the SLS form can encode: 21-bit signed with the two low bits clear. */
  function CanBeRepresentedAsSls(c: int): (r: bool)
    ensures r <==> -0x10_0000 <= c < 0x10_0000 && c % 4 == 0
  {
    LowTwoBitsClear(c);
    IsInt21(c) && LowTwoBits(c) == 0
  }

  /** selectAddrSls: the offset of an SLS access, if the address has that form. */
  function SelectAddrSls(addr: Node): (r: Option<Node>)
    ensures r.Some? <==> (addr.Constant? && CanBeRepresentedAsSls(addr.value)) || IsOrSmall(addr)
    ensures addr.Constant? && CanBeRepresentedAsSls(addr.value) ==> r == Some(TargetConstant(addr.value))
    ensures IsOrSmall(addr) ==> r == Some(addr.rhs.smallOperand)
  {
    if addr.Constant? && CanBeRepresentedAsSls(addr.value) then Some(TargetConstant(addr.value))
    else if IsOrSmall(addr) then Some(addr.rhs.smallOperand)
    else None
  }

  /** selectAddrRiSpls: base, offset and ALU code of an RI (riMode) or SPLS access. */
  function SelectAddrRiSpls(addr: Node, riMode: bool, L: Lpac): (r: Option<AddrMode>)
    // the three ways to decline
    ensures r.None? <==>
      (riMode && addr.Constant? && !IsInt16(addr.value) && CanBeRepresentedAsSls(addr.value))
      || IsDirectCallTarget(addr)
      || (riMode && IsOrSmall(addr))
    // the operator is always ADD and the offset a target constant of the family's width
    ensures r.Some? ==> r.value.aluOp == L.ADD
    ensures r.Some? ==> r.value.offset.Constant? && r.value.offset.isTarget
                        && FitsOffset(riMode, r.value.offset.value)
    // a constant of the family's width is an offset from R0
    ensures addr.Constant? && FitsOffset(riMode, addr.value) ==>
      r == Some(AddrMode(Reg(R(0)), TargetConstant(addr.value), L.ADD))
    // a frame index becomes a target frame index with offset 0
    ensures addr.FrameIndex? ==> r == Some(AddrMode(FrameIndex(addr.index, true), TargetConstant(0), L.ADD))
    // x + c with c of the family's width: base x (a frame index made a target one) and offset c
    ensures IsAddFitting(addr, riMode) ==>
      r == Some(AddrMode(if addr.lhs.FrameIndex? then FrameIndex(addr.lhs.index, true) else addr.lhs,
                         TargetConstant(addr.rhs.value), L.ADD))
    // anything else that is accepted is the whole address with offset 0
    ensures r.Some? && !(addr.Constant? && FitsOffset(riMode, addr.value)) && !addr.FrameIndex?
            && !IsAddFitting(addr, riMode) ==>
      r == Some(AddrMode(addr, TargetConstant(0), L.ADD))
  {
    if addr.Constant? && riMode && IsInt16(addr.value) then
      Some(AddrMode(Reg(R(0)), TargetConstant(addr.value), L.ADD))
    else if addr.Constant? && riMode && CanBeRepresentedAsSls(addr.value) then
      None
    else if addr.Constant? && !riMode && IsInt10(addr.value) then
      Some(AddrMode(Reg(R(0)), TargetConstant(addr.value), L.ADD))
    else if addr.FrameIndex? then
      Some(AddrMode(FrameIndex(addr.index, true), TargetConstant(0), L.ADD))
    else if IsDirectCallTarget(addr) then
      None
    else if IsAddFitting(addr, riMode) then
      Some(AddrMode(if addr.lhs.FrameIndex? then FrameIndex(addr.lhs.index, true) else addr.lhs,
                    TargetConstant(addr.rhs.value), L.ADD))
    else if addr.Binary? && addr.op == Or && riMode && addr.rhs.Small? then
      None
    else
      Some(AddrMode(addr, TargetConstant(0), L.ADD))
  }

  /** selectAddrRi: RI declines only direct call targets and the addresses it leaves to SLS. */
  function SelectAddrRi(addr: Node, L: Lpac): (r: Option<AddrMode>)
    ensures r.None? <==> IsDirectCallTarget(addr) || (SelectAddrSls(addr).Some? && !IsAddFitting(addr, true)
                                                       && !(addr.Constant? && IsInt16(addr.value)))
    ensures r.Some? ==> r.value.aluOp == L.ADD && r.value.offset.Constant? && IsInt16(r.value.offset.value)
  {
    SelectAddrRiSpls(addr, true, L)
  }

  /** selectAddrSpls: SPLS accepts every address except a direct call target. */
  function SelectAddrSpls(addr: Node, L: Lpac): (r: Option<AddrMode>)
    ensures r.None? <==> IsDirectCallTarget(addr)
    ensures r.Some? ==> r.value.aluOp == L.ADD && r.value.offset.Constant? && IsInt10(r.value.offset.value)
  {
    SelectAddrRiSpls(addr, false, L)
  }

  /**
   * isdToFantasyAluCode applied to the opcode of an address node. The
   * helper is only consulted for binary nodes here; every other node has no
   * ALU code.
   */
  function AluCodeOf(addr: Node, L: Lpac): (code: bv32)
    ensures !addr.Binary? ==> code == L.UNKNOWN
  {
    if addr.Binary? then L.fromIsd(addr.op) else L.UNKNOWN
  }

  /** selectAddrRr: the two register operands and ALU code of an RR access. */
  function SelectAddrRr(addr: Node, L: Lpac): (r: Option<AddrMode>)
    ensures r.Some? <==>
      addr.Binary? && AluCodeOf(addr, L) != L.UNKNOWN
      && !(addr.rhs.Constant? && IsInt16(addr.rhs.value))
      && !IsHiLoSmall(addr.lhs) && !IsHiLoSmall(addr.rhs)
    ensures r.Some? ==> r.value == AddrMode(addr.lhs, addr.rhs, L.fromIsd(addr.op))
  {
    if addr.FrameIndex? && !addr.isTarget then None
    else if IsDirectCallTarget(addr) then None
    else if AluCodeOf(addr, L) != L.UNKNOWN then
      if addr.rhs.Constant? && IsInt16(addr.rhs.value) then None
      else if IsHiLoSmall(addr.lhs) || IsHiLoSmall(addr.rhs) then None
      else Some(AddrMode(addr.lhs, addr.rhs, AluCodeOf(addr, L)))
    else None
  }

  /**
   * The immediate forms are preferred: an address RR accepts is one RI
   * accepts as well, whole and with offset 0, unless it is `x + c` with a
   * 16-bit c, which RR never takes.
   */
  lemma RrAcceptedImpliesRiAccepted(addr: Node, L: Lpac)
    requires SelectAddrRr(addr, L).Some?
    ensures SelectAddrRi(addr, L) == Some(AddrMode(addr, TargetConstant(0), L.ADD))
  {
  }

  /**
   * Between them RI and SLS cover every address but a direct call target:
   * whatever RI declines is either a call target or taken by SLS.
   */
  lemma RiDeclinesOnlyForSlsOrCalls(addr: Node, L: Lpac)
    requires SelectAddrRi(addr, L).None?
    ensures IsDirectCallTarget(addr) || SelectAddrSls(addr).Some?
    ensures !IsDirectCallTarget(addr) ==> !(addr.Constant? && IsInt16(addr.value))
  {
  }

  /** A constant RI declines has SLS's offset as itself: no constant is lost between the two forms. */
  lemma ConstantLeftToSls(c: int, L: Lpac)
    requires SelectAddrRi(Constant(c, false), L).None?
    ensures SelectAddrSls(Constant(c, false)) == Some(TargetConstant(c))
    ensures !IsInt16(c) && -0x10_0000 <= c < 0x10_0000 && c % 4 == 0
  {
  }

  /** Kinds of inline-assembly memory constraints: "m" and every other one. */
  datatype ConstraintCode = ConstraintM | OtherConstraint(code: nat)

  /**
   * SelectInlineAsmMemoryOperand: for an "m" operand, appends base, offset
   * and ALU code of the RR form, or failing that of the RI form, and
   * reports success as `false`; any other constraint, or an address neither
   * form takes, reports failure (`true`) and appends nothing.
   */
  method SelectInlineAsmMemoryOperand(op: Node, constraint: ConstraintCode, outOps: Vector<Node>, L: Lpac)
    returns (failed: bool)
    modifies outOps
    ensures failed <==> !constraint.ConstraintM? || (SelectAddrRr(op, L).None? && SelectAddrRi(op, L).None?)
    ensures failed ==> outOps.elems == old(outOps.elems)
    ensures !failed && SelectAddrRr(op, L).Some? ==>
      outOps.elems == old(outOps.elems) + [op.lhs, op.rhs, AluConstant(L.fromIsd(op.op))]
    ensures !failed && SelectAddrRr(op, L).None? ==>
      outOps.elems == old(outOps.elems) + [SelectAddrRi(op, L).value.base, SelectAddrRi(op, L).value.offset,
                                           AluConstant(L.ADD)]
  {
    if !constraint.ConstraintM? {
      return true;
    }
    var m := SelectAddrRr(op, L);
    if m.None? {
      m := SelectAddrRi(op, L);
      if m.None? {
        return true;
      }
    }
    outOps.PushBack(m.value.base);
    outOps.PushBack(m.value.offset);
    outOps.PushBack(AluConstant(m.value.aluOp));
    return false;
  }
}
