/**
 * The older, stand-alone validators of src/expr/{binary_operator,literal,unary_operator}.rs.
 * Each wraps the whole token it accepts and reports a rejection with the
 * validator error of src/expr/error.rs. They are stated against the terminal
 * categories of module Terminals, which is where they differ: the older
 * binary operator does not accept Comma.
 */
module LegacyOperators {
  import opened Wrappers
  import opened Tokens
  import ExprErrors
  import Terminals

  datatype BinaryOperator = BinaryOperator(token: Token)
  datatype Literal = Literal(token: Token)
  datatype UnaryOperator = UnaryOperator(token: Token)

  /**
   * `BinaryOperator::try_from`: accepts the six comparison kinds and the four
   * arithmetic kinds, that is every terminal binary operator except Comma.
   */
  function BinaryTryFrom(t: Token): (r: Result<BinaryOperator, ExprErrors.ExprError>)
    ensures r.Success? <==> Terminals.Matches(Terminals.Binary, t) && t.kind != TokenKind.Comma
    ensures r.Success? ==> r.value.token == t
    ensures r.Failure? ==> r.error == ExprErrors.BinaryOperator(t)
  {
    match t.kind
    case BangEqual => Success(BinaryOperator(t))
    case EqualEqual => Success(BinaryOperator(t))
    case Less => Success(BinaryOperator(t))
    case LessEqual => Success(BinaryOperator(t))
    case Greater => Success(BinaryOperator(t))
    case GreaterEqual => Success(BinaryOperator(t))
    case Plus => Success(BinaryOperator(t))
    case Minus => Success(BinaryOperator(t))
    case Star => Success(BinaryOperator(t))
    case Slash => Success(BinaryOperator(t))
    case _ => Failure(ExprErrors.BinaryOperator(t))
  }

  /** `Literal::try_from`: accepts exactly what the terminal Literal category accepts. */
  function LiteralTryFrom(t: Token): (r: Result<Literal, ExprErrors.ExprError>)
    ensures r.Success? <==> Terminals.Matches(Terminals.Literal, t)
    ensures r.Success? ==> r.value.token == t
    ensures r.Failure? ==> r.error == ExprErrors.Literal(t)
  {
    match t.kind
    case Number(_) => Success(Literal(t))
    case String(_) => Success(Literal(t))
    case True => Success(Literal(t))
    case False => Success(Literal(t))
    case Nil => Success(Literal(t))
    case _ => Failure(ExprErrors.Literal(t))
  }

  /** `UnaryOperator::try_from`: accepts exactly what the terminal Unary category accepts. */
  function UnaryTryFrom(t: Token): (r: Result<UnaryOperator, ExprErrors.ExprError>)
    ensures r.Success? <==> Terminals.Matches(Terminals.Unary, t)
    ensures r.Success? ==> r.value.token == t
    ensures r.Failure? ==> r.error == ExprErrors.UnaryOperator(t)
  {
    match t.kind
    case Bang => Success(UnaryOperator(t))
    case Minus => Success(UnaryOperator(t))
    case _ => Failure(ExprErrors.UnaryOperator(t))
  }

  /** A Comma token is a terminal binary operator but is refused by the older validator. */
  lemma CommaOnlyInTerminalBinary(t: Token)
    requires t.kind == TokenKind.Comma
    ensures Terminals.TryFrom(Terminals.Binary, t).Success?
    ensures BinaryTryFrom(t) == Failure(ExprErrors.BinaryOperator(t))
  {
  }

  /** Identifiers are refused as literals, and `!` is refused as a binary operator. */
  lemma RejectedKinds(t: Token)
    ensures t.kind == Identifier ==> LiteralTryFrom(t).Failure?
    ensures t.kind == Bang ==> BinaryTryFrom(t).Failure? && UnaryTryFrom(t).Success?
  {
  }
}
