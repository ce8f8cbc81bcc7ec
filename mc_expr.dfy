/**
 * MC expressions, and the target's own expression (FantasyMCExpr.cpp):
 * a variant kind wrapped around a subexpression, printed as hi(...) or
 * lo(...) and evaluated by tagging the subexpression's relocatable value
 * with the kind.
 */
module McExpr {
  import opened Wrappers

  /** The target expression's kinds: none, the absolute high half, the absolute low half. */
  datatype VariantKind = VK_Fantasy_None | VK_Fantasy_ABS_HI | VK_Fantasy_ABS_LO

  datatype BinaryOp = AddOp | SubOp | MulOp | AndOp | OrOp | OtherBinaryOp(code: nat)

  /** MC expressions; an immediate is kept as the bit pattern of its int64_t. */
  datatype Expr =
    | SymbolRef(symbol: string)
    | ConstantExpr(value: bv64)
    | BinaryExpr(op: BinaryOp, lhs: Expr, rhs: Expr)
    | UnaryExpr(uop: nat, operand: Expr)
    | FantasyExpr(kind: VariantKind, subExpr: Expr)

  /** The relocation-kind tag of a relocatable value: none, or a target variant kind. */
  datatype RefKind = NoRefKind | TargetRefKind(variant: VariantKind)

  /** A relocatable value: SymA - SymB + Constant, with a relocation-kind tag. */
  datatype MCValue = MCValue(symA: Option<string>, symB: Option<string>, constant: bv64, refKind: RefKind)

  /** The name printImpl writes for a kind other than none. */
  function KindName(kind: VariantKind): (s: string)
    requires kind != VK_Fantasy_None
    ensures |s| == 2
  {
    if kind == VK_Fantasy_ABS_HI then "hi" else "lo"
  }

  /**
   * printImpl of a target expression whose subexpression prints as `sub`:
   * the subexpression alone for the none kind, otherwise the kind's name
   * and the subexpression between parentheses.
   */
  function PrintImpl(kind: VariantKind, sub: string): (s: string)
    ensures kind == VK_Fantasy_None ==> s == sub
    ensures kind != VK_Fantasy_None ==> |s| == |sub| + 4 && s[2] == '(' && s[|s| - 1] == ')'
                                        && s[..2] == KindName(kind) && s[3..|s| - 1] == sub
  {
    if kind == VK_Fantasy_None then sub
    else KindName(kind) + "(" + sub + ")"
  }

  /** The printed form of a hi or lo expression gives back the kind and the subexpression's text. */
  lemma PrintImplInjective(k1: VariantKind, sub1: string, k2: VariantKind, sub2: string)
    requires k1 != VK_Fantasy_None && k2 != VK_Fantasy_None
    requires PrintImpl(k1, sub1) == PrintImpl(k2, sub2)
    ensures k1 == k2 && sub1 == sub2
  {
    var s := PrintImpl(k1, sub1);
    assert s[..2] == KindName(k1) == KindName(k2);
    assert sub1 == s[3..|s| - 1] == sub2;
  }

  /**
   * evaluateAsRelocatableImpl, given the result of evaluating the
   * subexpression: fails exactly when that fails, and otherwise keeps its
   * symbols and constant and tags it with this expression's kind.
   */
  function EvaluateAsRelocatableImpl(kind: VariantKind, subResult: Option<MCValue>): (r: Option<MCValue>)
    ensures r.None? <==> subResult.None?
    ensures r.Some? ==> r.value.symA == subResult.value.symA && r.value.symB == subResult.value.symB
                        && r.value.constant == subResult.value.constant
                        && r.value.refKind == TargetRefKind(kind)
  {
    match subResult
    case None => None
    case Some(v) => Some(MCValue(v.symA, v.symB, v.constant, TargetRefKind(kind)))
  }

  /** Nesting two target expressions: the outer kind is the one the value carries. */
  lemma EvaluateNestedTakesOuterKind(outer: VariantKind, inner: VariantKind, subResult: Option<MCValue>)
    ensures EvaluateAsRelocatableImpl(outer, EvaluateAsRelocatableImpl(inner, subResult))
            == EvaluateAsRelocatableImpl(outer, subResult)
  {
  }
}
