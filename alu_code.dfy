/**
 * The ALU-code helpers (LPAC) of the backend. Their header is not part of
 * this model, so the constants and functions the core uses are left
 * uninterpreted: a value of `Lpac` is one possible implementation of them,
 * and `Valid` holds the only facts about them that the call sites rely on.
 */
module AluCode {

  /** The generic (ISD) opcodes of binary address nodes. */
  datatype IsdOpcode = Add | AddC | Sub | SubC | And | Or | Xor | Shl | Srl | Sra | OtherBinary(code: nat)

  /** The LPAC constants and helpers; ALU codes are `unsigned`, hence bv32. */
  datatype Lpac = Lpac(
    ADD: bv32,
    SUB: bv32,
    SHL: bv32,
    SRL: bv32,
    SRA: bv32,
    UNKNOWN: bv32,
    isPreOp: bv32 -> bool,
    isPostOp: bv32 -> bool,
    modifiesOp: bv32 -> bool,
    getAluOp: bv32 -> bv32,
    encode: bv32 -> bv32,
    fromIsd: IsdOpcode -> bv32,
    toString: bv32 -> string)

  /**
   * What the core assumes of the helpers: an operation modifies its base
   * register exactly when it is a pre- or a post-op; the encoding fits the
   * three-bit operator field; and the codes the core tells apart in
   * switch statements or replaces one by the other are distinct.
   */
  ghost predicate Valid(L: Lpac)
  {
    (forall c :: L.modifiesOp(c) == (L.isPreOp(c) || L.isPostOp(c)))
    && (forall c :: L.encode(c) < 8)
    && L.ADD != L.SUB
    && L.SHL != L.SRL && L.SHL != L.SRA && L.SRL != L.SRA
  }
}

/** The condition-code helpers (LPCC), uninterpreted for the same reason. */
module CondCode {

  /** ICC_T (always true), the UNKNOWN sentinel that ends the enumeration, and the name table. */
  datatype Lpcc = Lpcc(ICC_T: bv32, UNKNOWN: bv32, toString: bv32 -> string)

  /** ICC_T is a real condition code, so it lies below the sentinel. */
  predicate Valid(C: Lpcc)
  {
    C.ICC_T < C.UNKNOWN
  }
}
