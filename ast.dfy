/**
 * The syntax trees built by the parser (the `IExpr` and `IStmt` node classes of
 * the namespace Jox.Parsing.AST, reconstructed from their uses).
 */
module Ast {
  import opened Wrappers
  import opened Values
  import opened Tokens

  datatype Expr =
    | Binary(left: Expr, op: Token, right: Expr)
    | Logical(left: Expr, op: Token, right: Expr)
    | Unary(op: Token, right: Expr)
    | Literal(lit: Value)          // `value` in the source
    | Grouping(expression: Expr)
    | Variable(ident: Token)
    | Assign(ident: Token, value: Expr)

  /**
   * `Block` holds the parser's statement list as it is, so an entry may be
   * `None`: the `null` the parser leaves for a declaration it abandoned.
   */
  datatype Stmt =
    | Expression(expression: Expr)
    | Print(expression: Expr)
    | Var(ident: Token, initializer: Option<Expr>)
    | Block(statements: seq<Option<Stmt>>)
    | If(condition: Expr, thenBranch: Stmt, elseBranch: Option<Stmt>)
    | While(condition: Expr, body: Stmt)

  /** A statement tree with no `null` entry in any of its blocks. */
  ghost predicate Complete(s: Stmt) {
    match s
    case Block(ss) => forall i :: 0 <= i < |ss| ==> ss[i].Some? && Complete(ss[i].value)
    case If(_, t, e) => Complete(t) && (e.Some? ==> Complete(e.value))
    case While(_, b) => Complete(b)
    case _ => true
  }

  /** A statement list with no `null` entry, each entry `Complete`. */
  ghost predicate AllComplete(ss: seq<Option<Stmt>>) {
    forall i :: 0 <= i < |ss| ==> ss[i].Some? && Complete(ss[i].value)
  }
}
