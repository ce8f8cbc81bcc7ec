/**
 * The ELF object writer (FantasyELFObjectWriter.cpp): which relocation
 * type each fixup kind becomes, which relocations must keep their symbol,
 * and the writer's fixed parameters.
 */
module ElfObjectWriter {
  import opened Wrappers
  import opened McExpr
  import opened FixupKinds
  import opened McInst
  import McCodeEmitter

  /** The target's ELF relocation types, and every other type number. */
  datatype RelocType =
    | R_LANAI_NONE
    | R_LANAI_21
    | R_LANAI_21_F
    | R_LANAI_25
    | R_LANAI_32
    | R_LANAI_HI16
    | R_LANAI_LO16
    | OtherRelocType(code: nat)

  /** ELF machine numbers; only this target's is named. */
  datatype Machine = EM_LANAI | OtherMachine(code: nat)

  /** What the writer tells the generic ELF layer about the object file. */
  datatype WriterConfig = WriterConfig(is64Bit: bool, osabi: bv8, machine: Machine, hasRelocationAddend: bool)

  /** The writer's constructor: a 32-bit EM_LANAI object whose relocations carry addends (RELA records). */
  function CreateWriter(osabi: bv8): (c: WriterConfig)
    ensures !c.is64Bit && c.machine == EM_LANAI && c.hasRelocationAddend
    ensures c.osabi == osabi
  {
    WriterConfig(false, osabi, EM_LANAI, true)
  }

  /** The fixup kinds getRelocType handles; every other kind is unreachable there. */
  predicate HasRelocType(kind: FixupKind)
  {
    kind in {FIXUP_LANAI_21, FIXUP_LANAI_21_F, FIXUP_LANAI_25, FIXUP_LANAI_32, FK_Data_4,
             FIXUP_LANAI_HI16, FIXUP_LANAI_LO16, FIXUP_LANAI_NONE}
  }

  /** The relocation type of a fixup kind. */
  function RelocTypeOf(kind: FixupKind): (t: RelocType)
    requires HasRelocType(kind)
    ensures !t.OtherRelocType?
  {
    match kind
    case FIXUP_LANAI_21 => R_LANAI_21
    case FIXUP_LANAI_21_F => R_LANAI_21_F
    case FIXUP_LANAI_25 => R_LANAI_25
    case FIXUP_LANAI_32 => R_LANAI_32
    case FK_Data_4 => R_LANAI_32
    case FIXUP_LANAI_HI16 => R_LANAI_HI16
    case FIXUP_LANAI_LO16 => R_LANAI_LO16
    case FIXUP_LANAI_NONE => R_LANAI_NONE
  }

  /** getRelocType: the relocation type of a fixup, which looks only at its kind. */
  function GetRelocType(target: MCValue, fixup: Fixup, isPCRel: bool): (t: RelocType)
    requires HasRelocType(fixup.kind)
    ensures t == RelocTypeOf(fixup.kind)
  {
    RelocTypeOf(fixup.kind)
  }

  /** The relocation type does not depend on the target value, the fixup's offset or expression, or PC-relativity. */
  lemma GetRelocTypeIgnoresContext(t1: MCValue, t2: MCValue, f1: Fixup, f2: Fixup, p1: bool, p2: bool)
    requires HasRelocType(f1.kind) && f1.kind == f2.kind
    ensures GetRelocType(t1, f1, p1) == GetRelocType(t2, f2, p2)
  {
  }

  /** The fixup kind that names a relocation type; the 32-bit type is named by FIXUP_LANAI_32. */
  function FixupKindFor(t: RelocType): (k: Option<FixupKind>)
    ensures k.Some? <==> !t.OtherRelocType?
  {
    match t
    case R_LANAI_NONE => Some(FIXUP_LANAI_NONE)
    case R_LANAI_21 => Some(FIXUP_LANAI_21)
    case R_LANAI_21_F => Some(FIXUP_LANAI_21_F)
    case R_LANAI_25 => Some(FIXUP_LANAI_25)
    case R_LANAI_32 => Some(FIXUP_LANAI_32)
    case R_LANAI_HI16 => Some(FIXUP_LANAI_HI16)
    case R_LANAI_LO16 => Some(FIXUP_LANAI_LO16)
    case OtherRelocType(_) => None
  }

  /** Every target relocation type is produced, by the fixup kind that names it. */
  lemma RelocTypeOfFixupKindFor(t: RelocType)
    requires !t.OtherRelocType?
    ensures HasRelocType(FixupKindFor(t).value)
    ensures RelocTypeOf(FixupKindFor(t).value) == t
  {
  }

  /** Every handled kind other than the generic 4-byte data kind is recovered from its relocation type. */
  lemma FixupKindForRelocTypeOf(kind: FixupKind)
    requires HasRelocType(kind) && kind != FK_Data_4
    ensures FixupKindFor(RelocTypeOf(kind)) == Some(kind)
  {
  }

  /** Two kinds share a relocation type only if they are equal or are FIXUP_LANAI_32 and FK_Data_4. */
  lemma RelocTypeOfCollisions(k1: FixupKind, k2: FixupKind)
    requires HasRelocType(k1) && HasRelocType(k2)
    ensures RelocTypeOf(k1) == RelocTypeOf(k2) <==>
      k1 == k2 || ({k1, k2} == {FIXUP_LANAI_32, FK_Data_4})
  {
    if RelocTypeOf(k1) == RelocTypeOf(k2) && k1 != k2 {
      assert RelocTypeOf(k1) == R_LANAI_32;
    }
  }

  /** needsRelocateWithSymbol: the relocation must refer to the symbol rather than its section. */
  predicate NeedsRelocateWithSymbol(t: RelocType)
  {
    match t
    case R_LANAI_21 => true
    case R_LANAI_21_F => true
    case R_LANAI_25 => true
    case R_LANAI_32 => true
    case R_LANAI_HI16 => true
    case _ => false
  }

  /** Exactly the 21, 21_F, 25, 32 and HI16 relocations keep their symbol; LO16, NONE and the rest do not. */
  lemma NeedsRelocateWithSymbolExactly(t: RelocType)
    ensures NeedsRelocateWithSymbol(t) <==> t in {R_LANAI_21, R_LANAI_21_F, R_LANAI_25, R_LANAI_32, R_LANAI_HI16}
  {
  }

  /** Every fixup the code emitter records for an operand it accepts has a relocation type. */
  lemma OperandFixupsHaveRelocType(op: MCOperand)
    requires McCodeEmitter.EncodableOperand(op)
    ensures forall f | f in McCodeEmitter.MachineOpFixups(op) :: HasRelocType(f.kind)
  {
    McCodeEmitter.MachineOpFixupsHaveKind(op);
  }

  /** A branch-target fixup becomes a 25-bit relocation that keeps its symbol. */
  lemma BranchFixupsRelocateWithSymbol(target: MCOperand)
    ensures forall f | f in McCodeEmitter.BranchFixups(target) ::
      HasRelocType(f.kind) && RelocTypeOf(f.kind) == R_LANAI_25 && NeedsRelocateWithSymbol(RelocTypeOf(f.kind))
  {
  }
}
