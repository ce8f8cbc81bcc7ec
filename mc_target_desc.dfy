/**
 * Decisions of the MC target description (FantasyMCTargetDesc.cpp): the
 * branch-target evaluation of the instruction analysis, the default CPU
 * name of the subtarget, and the syntax variants the instruction printer
 * is created for.
 */
module McTargetDesc {
  import opened Wrappers
  import opened InstrInfo
  import opened McInst
  import InstPrinter

  /**
   * A branch whose target can be evaluated: its first operand, when it has
   * one, is the immediate that getImm reads.
   */
  predicate BranchOperands(inst: MCInst)
  {
    |inst.operands| > 0 ==> inst.operands[0].MCImm?
  }

  /**
   * evaluateBranch: the target of a branch at `addr` of `size` bytes, where
   * `pcRel` says whether an opcode's first operand is PC-relative (the
   * generated operand table). No target for an instruction without
   * operands, nor for an absolute immediate of 0 (an unlinked file);
   * otherwise addr + size + imm (unsigned, wrapping at 2^64) or imm itself.
   */
  function EvaluateBranch(inst: MCInst, addr: bv64, size: bv64, pcRel: Opcode -> bool): (target: Option<bv64>)
    requires BranchOperands(inst)
    ensures target.None? <==> |inst.operands| == 0 || (!pcRel(inst.opcode) && inst.operands[0].imm == 0)
    ensures target.Some? && pcRel(inst.opcode) ==> target.value == addr + size + inst.operands[0].imm
    ensures target.Some? && !pcRel(inst.opcode) ==> target.value == inst.operands[0].imm
  {
    if |inst.operands| == 0 then None
    else if pcRel(inst.opcode) then Some(addr + size + inst.operands[0].imm)
    else if inst.operands[0].imm == 0 then None
    else Some(inst.operands[0].imm)
  }

  /** A PC-relative target depends only on where the branch ends, not on how that splits into address and size. */
  lemma PcRelativeTargetFromEnd(inst: MCInst, addr: bv64, size: bv64, pcRel: Opcode -> bool)
    requires BranchOperands(inst) && pcRel(inst.opcode)
    ensures EvaluateBranch(inst, addr, size, pcRel) == EvaluateBranch(inst, addr + size, 0, pcRel)
  {
  }

  /** An absolute target that is reported is never 0, and does not depend on where the branch is. */
  lemma AbsoluteTargetIndependentOfAddress(inst: MCInst, addr1: bv64, size1: bv64, addr2: bv64, size2: bv64, pcRel: Opcode -> bool)
    requires BranchOperands(inst) && !pcRel(inst.opcode)
    ensures EvaluateBranch(inst, addr1, size1, pcRel) == EvaluateBranch(inst, addr2, size2, pcRel)
    ensures EvaluateBranch(inst, addr1, size1, pcRel).Some? ==> EvaluateBranch(inst, addr1, size1, pcRel).value != 0
  {
  }

  /** The CPU name the subtarget is created with: an empty name means "generic". */
  function DefaultCpuName(cpu: string): (name: string)
    ensures name != []
    ensures cpu != [] ==> name == cpu
  {
    if cpu == [] then "generic" else cpu
  }

  /** Defaulting is idempotent, and only the empty name and "generic" itself give "generic". */
  lemma DefaultCpuNameIdempotent(cpu: string)
    ensures DefaultCpuName(DefaultCpuName(cpu)) == DefaultCpuName(cpu)
    ensures DefaultCpuName(cpu) == "generic" <==> cpu == [] || cpu == "generic"
  {
  }

  /** createFantasyMCSubtargetInfo's CPU name: copied from the argument, then replaced when empty. */
  method SubtargetCpuName(cpu: string) returns (cpuName: string)
    ensures cpuName == DefaultCpuName(cpu)
  {
    cpuName := cpu;
    if cpuName == [] {
      cpuName := "generic";
    }
  }

  /** createFantasyMCInstPrinter: a printer over the given formatting for syntax variant 0, none otherwise. */
  function CreateInstPrinter(syntaxVariant: bv32, F: InstPrinter.Formatter): (p: Option<InstPrinter.Formatter>)
    ensures p.Some? <==> syntaxVariant == 0
    ensures p.Some? ==> p.value == F
  {
    if syntaxVariant == 0 then Some(F) else None
  }
}
