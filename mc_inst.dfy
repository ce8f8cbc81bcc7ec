/** MC-level instructions: an opcode and its operands. */
module McInst {
  import opened BaseInfo
  import opened McExpr
  import opened InstrInfo

  /** Operands: a register, an immediate (the bit pattern of its int64_t) or an expression. */
  datatype MCOperand =
    | MCReg(reg: Register)
    | MCImm(imm: bv64)
    | MCExprOperand(expr: Expr)

  /** An instruction: its opcode and operand list. */
  datatype MCInst = MCInst(opcode: Opcode, operands: seq<MCOperand>)
}
