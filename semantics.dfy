/** The C meaning of the logical expressions the AST utilities build: the
    value of `!`, `&&` and `||` (sections 6.5.3.3, 6.5.13 and 6.5.14 of the
    C11 standard), of parentheses, of integer literals and of the null
    pointer. Every other node takes its value from an environment. */
module Semantics {
  import opened Ast

  function Value(env: Stmt -> int, e: Stmt): int {
    match e
    case IntegerLiteral(v, _) => v
    case ParenExpr(s) => Value(env, s)
    case UnaryOperator(LNot, s, _) => if Value(env, s) == 0 then 1 else 0
    case BinaryOperator(LAnd, l, r, _) => if Value(env, l) != 0 && Value(env, r) != 0 then 1 else 0
    case BinaryOperator(LOr, l, r, _) => if Value(env, l) != 0 || Value(env, r) != 0 then 1 else 0
    case CStyleCastExpr(_, NullToPointer, _) => 0
    case _ => env(e)
  }

  /** `e` used as a condition is taken: it compares unequal to 0 */
  predicate Holds(env: Stmt -> int, e: Stmt) {
    Value(env, e) != 0
  }

  /** A possibly missing operand of a logical builder; a missing one reads as `neutral` */
  predicate OperandHolds(env: Stmt -> int, e: StmtPtr, neutral: bool) {
    if e.None? then neutral else Holds(env, e.value)
  }
}
