/** Register numbering and operand flags of the target (FantasyBaseInfo.h). */
module BaseInfo {

  /**
   * Physical registers: the general-purpose registers R0..R31 (the index is
   * five bits wide), the named aliases, and any register outside the
   * numbering table (the null register among them).
   */
  datatype Register =
    | R(index: bv5)
    | PC | SP | FP | RV | RR1 | RR2 | RCA
    | NoRegister
    | OtherRegister(id: nat)

  /** The registers getFantasyRegisterNumbering accepts; any other one is unreachable there. */
  predicate HasNumber(reg: Register)
  {
    !reg.NoRegister? && !reg.OtherRegister?
  }

  /** The hardware number of a register: Rn is n, and each alias shares the number of its Rn. */
  function RegisterNumbering(reg: Register): (r: bv32)
    requires HasNumber(reg)
    ensures r < 32
    ensures reg.R? ==> r == reg.index as bv32
  {
    match reg
    case R(n) => n as bv32
    case PC => 2
    case SP => 4
    case FP => 5
    case RV => 8
    case RR1 => 10
    case RR2 => 11
    case RCA => 15
  }

  /** The aliases PC, SP, FP, RV, RR1, RR2 and RCA have the numbers of R2, R4, R5, R8, R10, R11 and R15. */
  lemma AliasNumbering()
    ensures RegisterNumbering(PC) == RegisterNumbering(R(2))
    ensures RegisterNumbering(SP) == RegisterNumbering(R(4))
    ensures RegisterNumbering(FP) == RegisterNumbering(R(5))
    ensures RegisterNumbering(RV) == RegisterNumbering(R(8))
    ensures RegisterNumbering(RR1) == RegisterNumbering(R(10))
    ensures RegisterNumbering(RR2) == RegisterNumbering(R(11))
    ensures RegisterNumbering(RCA) == RegisterNumbering(R(15))
  {
  }

  /** Distinct general-purpose registers have distinct numbers. */
  lemma NumberingInjective(i: bv5, j: bv5)
    requires RegisterNumbering(R(i)) == RegisterNumbering(R(j))
    ensures i == j
  {
  }

  /** Target operand flags (FantasyII::TOF). */
  datatype TOF = MO_NO_FLAG | MO_ABS_HI | MO_ABS_LO

  /** The enumerator values C++ gives them: 0, 1, 2 in declaration order. */
  function FlagValue(f: TOF): (r: nat)
    ensures r < 3
  {
    match f
    case MO_NO_FLAG => 0
    case MO_ABS_HI => 1
    case MO_ABS_LO => 2
  }

  /** The flags are distinct and ordered as declared. */
  lemma FlagsOrdered(f: TOF, g: TOF)
    ensures FlagValue(f) == FlagValue(g) <==> f == g
    ensures FlagValue(MO_NO_FLAG) < FlagValue(MO_ABS_HI) < FlagValue(MO_ABS_LO)
  {
  }
}
