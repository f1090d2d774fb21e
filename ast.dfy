/** The slice of the clang AST that the statement-combination pass and the
    AST utilities look at. Nodes are values; a null `clang::Stmt *` is `None`. */
module Ast {

  datatype UnaryOpcode = Deref | AddrOf | LNot | OtherUnary

  datatype BinaryOpcode = LAnd | LOr | OtherBinary

  datatype CastKind = NullToPointer | OtherCast

  datatype QualType = BoolTy | UnsignedIntTy | VoidPtrTy | OtherTy(name: string)

  /** `clang::Stmt`, of which `clang::Expr` is the subclass holding the
      first six kinds. Nodes the model does not look into are `OtherExpr`
      and `OtherStmt`, told apart by an id. */
  datatype Stmt =
    | UnaryOperator(uop: UnaryOpcode, sub: Stmt, ty: QualType)
    | BinaryOperator(bop: BinaryOpcode, lhs: Stmt, rhs: Stmt, ty: QualType)
    | ParenExpr(sub: Stmt)
    | IntegerLiteral(value: int, ty: QualType)
    | CStyleCastExpr(ty: QualType, cast: CastKind, sub: Stmt)
    | OtherExpr(id: nat)
    | IfStmt(cond: Stmt, thenStmt: Stmt, elseStmt: Option<Stmt>)
    | CompoundStmt(body: seq<StmtPtr>)
    | OtherStmt(id: nat)
  {
    /** `clang::dyn_cast<clang::Expr>` succeeds */
    predicate IsExpr() {
      !(IfStmt? || CompoundStmt? || OtherStmt?)
    }
  }

  datatype Option<+T> = None | Some(value: T)

  /** A possibly null `clang::Stmt *` */
  type StmtPtr = Option<Stmt>

  /** rellic's `StmtMap`: node to replacement, where a `None` value means "delete" */
  type StmtMap = map<StmtPtr, StmtPtr>

  /** The two analyses of `clang::ASTContext` the pass consults, as oracles:
      `IntegerConstantExpr(e)` is `Some(v)` when `e->isIntegerConstantExpr(v, ctx)`
      succeeds, and `HasSideEffects(e)` is `e->HasSideEffects(ctx)`. */
  datatype AstContext = AstContext(IntegerConstantExpr: Stmt -> Option<int>, HasSideEffects: Stmt -> bool)
}
