/**
 * The validators of src/expr/operators, a directory no module declares.
 * They accept what the older validators of module LegacyOperators accept,
 * but report a rejection with a payload-less error that does not return the
 * token.
 */
module OrphanOperators {
  import opened Wrappers
  import opened Tokens
  import LegacyOperators

  /** The error enum of src/expr/operators/error.rs. */
  datatype OperatorError = InvalidUnaryOperator | InvalidBinaryOperator

  datatype BinaryOperator = BinaryOperator(token: Token)
  datatype UnaryOperator = UnaryOperator(token: Token)

  /** `BinaryOperator::try_from`: same acceptance as the older binary validator; the error drops the token. */
  function BinaryTryFrom(t: Token): (r: Result<BinaryOperator, OperatorError>)
    ensures r.Success? <==> LegacyOperators.BinaryTryFrom(t).Success?
    ensures r.Success? ==> r.value.token == t
    ensures r.Failure? ==> r.error == InvalidBinaryOperator
  {
    match t.kind
    case BangEqual => Success(BinaryOperator(t))
    case EqualEqual => Success(BinaryOperator(t))
    case Less => Success(BinaryOperator(t))
    case LessEqual => Success(BinaryOperator(t))
    case Greater => Success(BinaryOperator(t))
    case GreaterEqual => Success(BinaryOperator(t))
    case Plus => Success(BinaryOperator(t))
    case Minus => Success(BinaryOperator(t))
    case Star => Success(BinaryOperator(t))
    case Slash => Success(BinaryOperator(t))
    case _ => Failure(InvalidBinaryOperator)
  }

  /** `UnaryOperator::try_from`: same acceptance as the older unary validator; the error drops the token. */
  function UnaryTryFrom(t: Token): (r: Result<UnaryOperator, OperatorError>)
    ensures r.Success? <==> LegacyOperators.UnaryTryFrom(t).Success?
    ensures r.Success? ==> r.value.token == t
    ensures r.Failure? ==> r.error == InvalidUnaryOperator
  {
    match t.kind
    case Bang => Success(UnaryOperator(t))
    case Minus => Success(UnaryOperator(t))
    case _ => Failure(InvalidUnaryOperator)
  }

  /** Two rejected tokens give the same error: the payload-less error cannot tell them apart. */
  lemma RejectionForgetsToken(t: Token, u: Token)
    requires BinaryTryFrom(t).Failure? && BinaryTryFrom(u).Failure?
    ensures BinaryTryFrom(t) == BinaryTryFrom(u)
    ensures t != u ==> LegacyOperators.BinaryTryFrom(t) != LegacyOperators.BinaryTryFrom(u)
  {
  }
}
