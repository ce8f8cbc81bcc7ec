/** The opcodes the core names and the opcode classes of FantasyInstrInfo.h. */
module InstrInfo {

  /** Machine opcodes; every opcode the core does not name is `OtherOpcode`. */
  datatype Opcode =
    | LDBs_RI | LDBz_RI | LDHs_RI | LDHz_RI | LDW_RI | STB_RI | STH_RI | SW_RI
    | LDBs_RR | LDBz_RR | LDHs_RR | LDHz_RR | LDWz_RR | LDW_RR | STB_RR | STH_RR | SW_RR
    | ADD_I_LO | SUB_I_LO | ADD_F_I_LO | SUB_F_I_LO | ADDC_I_LO | SUBB_I_LO | ADDC_F_I_LO | SUBB_F_I_LO
    | ADD_R | SUB_R | MOVHI | OR_I_LO
    | OtherOpcode(code: nat)

  /** Loads and stores with a short (10-bit) displacement. */
  predicate IsSplsOpcode(op: Opcode)
  {
    match op
    case LDBs_RI | LDBz_RI | LDHs_RI | LDHz_RI | STB_RI | STH_RI => true
    case _ => false
  }

  /** Word loads and stores with a 16-bit displacement. */
  predicate IsRmOpcode(op: Opcode)
  {
    match op
    case LDW_RI | SW_RI => true
    case _ => false
  }

  /** Register-register loads and stores. */
  predicate IsRrmOpcode(op: Opcode)
  {
    match op
    case LDBs_RR | LDBz_RR | LDHs_RR | LDHz_RR | LDWz_RR | LDW_RR | STB_RR | STH_RR | SW_RR => true
    case _ => false
  }

  /** The three classes, as sets: six SPLS, two RM and nine RRM opcodes. */
  lemma OpcodeClasses(op: Opcode)
    ensures IsSplsOpcode(op) <==> op in {LDBs_RI, LDBz_RI, LDHs_RI, LDHz_RI, STB_RI, STH_RI}
    ensures IsRmOpcode(op) <==> op in {LDW_RI, SW_RI}
    ensures IsRrmOpcode(op) <==> op in {LDBs_RR, LDBz_RR, LDHs_RR, LDHz_RR, LDWz_RR, LDW_RR, STB_RR, STH_RR, SW_RR}
  {
  }

  /** No opcode is in two classes. */
  lemma OpcodeClassesDisjoint(op: Opcode)
    ensures !(IsSplsOpcode(op) && IsRmOpcode(op))
    ensures IsRrmOpcode(op) ==> !IsSplsOpcode(op) && !IsRmOpcode(op)
  {
  }
}
