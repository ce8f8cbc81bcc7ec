/** Fixups: the places in emitted code a relocation must patch later. */
module FixupKinds {
  import opened McExpr

  /**
   * Fixup kinds: the generic "no fixup" kind 0 and 4-byte data kind, the
   * target's FIXUP_LANAI kinds, and every other generic kind.
   */
  datatype FixupKind =
    | FK_NONE
    | FK_Data_4
    | FIXUP_LANAI_NONE
    | FIXUP_LANAI_21
    | FIXUP_LANAI_21_F
    | FIXUP_LANAI_25
    | FIXUP_LANAI_32
    | FIXUP_LANAI_HI16
    | FIXUP_LANAI_LO16
    | OtherFixupKind(code: nat)

  /** A fixup: its byte offset in the fragment, the expression to resolve, and its kind. */
  datatype Fixup = Fixup(offset: nat, value: Expr, kind: FixupKind)
}
