/** The validator errors of the expression layer (src/expr/error.rs). */
module ExprErrors {
  import opened Tokens

  /** One variant per terminal category; each carries the token that was rejected. */
  datatype ExprError =
    | UnaryOperator(token: Token)
    | BinaryOperator(token: Token)
    | ComparisonOperator(token: Token)
    | FactorOperator(token: Token)
    | TermOperator(token: Token)
    | CommaOperator(token: Token)
    | TernaryThenOperator(token: Token)
    | TernaryElseOperator(token: Token)
    | Literal(token: Token)
}
