/**
 * The expression tree of src/expr/mod.rs. Operators and literals are the
 * validated terminal values of module Terminals, so a tree can only hold a
 * token its category accepts. `Ternary` is the node the parser builds for
 * `c ? t : e`; the tree of src/expr/mod.rs lacks it.
 * The constructors `binary`, `literal`, `unary` and `grouping` are the
 * datatype constructors themselves.
 */
module Ast {
  import opened Tokens
  import Terminals

  datatype Expr =
    | Binary(left: Expr, operator: Terminals.BinaryOperator, right: Expr)
    | Ternary(condition: Expr, thenBranch: Expr, elseBranch: Expr)
    | Grouping(expression: Expr)
    | Unary(unaryOperator: Terminals.UnaryOperator, right: Expr)
    | Literal(literal: Terminals.LiteralToken)

  /** Whether a Ternary node occurs anywhere in the tree. */
  predicate HasTernary(e: Expr) {
    match e
    case Binary(l, _, r) => HasTernary(l) || HasTernary(r)
    case Ternary(_, _, _) => true
    case Grouping(inner) => HasTernary(inner)
    case Unary(_, r) => HasTernary(r)
    case Literal(_) => false
  }

  /** The number of nodes; every child has fewer than its parent. */
  function Size(e: Expr): (n: nat)
    ensures n >= 1
    ensures e.Binary? ==> n > Size(e.left) + Size(e.right)
    ensures e.Ternary? ==> n > Size(e.condition) + Size(e.thenBranch) + Size(e.elseBranch)
    ensures e.Grouping? ==> n > Size(e.expression)
    ensures e.Unary? ==> n > Size(e.right)
  {
    match e
    case Binary(l, _, r) => 1 + Size(l) + Size(r)
    case Ternary(c, t, f) => 1 + Size(c) + Size(t) + Size(f)
    case Grouping(inner) => 1 + Size(inner)
    case Unary(_, r) => 1 + Size(r)
    case Literal(_) => 1
  }

  /**
   * The token kinds the expression is written with, in source order:
   * parentheses around a grouping, `?` and `:` around the ternary branches.
   */
  function Spelled(e: Expr): (ks: seq<TokenKind>)
    ensures |ks| >= 1
  {
    match e
    case Binary(l, op, r) => Spelled(l) + [op.token.kind] + Spelled(r)
    case Ternary(c, t, f) => Spelled(c) + [Question] + Spelled(t) + [Colon] + Spelled(f)
    case Grouping(inner) => [LeftParen] + Spelled(inner) + [RightParen]
    case Unary(op, r) => [op.token.kind] + Spelled(r)
    case Literal(lit) => [lit.token.kind]
  }
}
