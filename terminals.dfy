/**
 * The terminal categories of the expression layer (src/expr/terminal).
 * The `Terminal` trait and its nine implementations become one datatype of
 * categories, a membership predicate `Matches` (the trait's `matches`), a
 * fallible conversion `TryFrom` and the conversion back, `IntoToken`.
 * Every validated value keeps the whole token it was made from.
 */
module Terminals {
  import opened Wrappers
  import opened Tokens
  import ExprErrors

  datatype Category =
    | Unary | Factor | Term | Comparison | Comma | TernaryThen | TernaryElse | Literal | Binary

  /** A token accepted by its category. */
  datatype Terminal = Terminal(category: Category, token: Token)

  predicate IsComparisonKind(k: TokenKind) {
    k == BangEqual || k == EqualEqual || k == Less || k == LessEqual || k == Greater || k == GreaterEqual
  }

  /**
   * `matches`: whether a token belongs to a category; it looks only at the kind.
   * Binary accepts the union of the comma, comparison, term and factor kinds
   * (`BinaryIsUnionOfOperatorCategories` below). No category accepts an
   * identifier, and the only keywords accepted are the literals `true`,
   * `false` and `nil`.
   */
  predicate Matches(c: Category, t: Token)
  {
    match c
    case Unary => t.kind == Bang || t.kind == Minus
    case Factor => t.kind == Star || t.kind == Slash
    case Term => t.kind == Plus || t.kind == Minus
    case Comparison => IsComparisonKind(t.kind)
    case Comma => t.kind == TokenKind.Comma
    case TernaryThen => t.kind == Question
    case TernaryElse => t.kind == Colon
    case Literal => t.kind.Number? || t.kind.String? || t.kind == True || t.kind == False || t.kind == Nil
    case Binary =>
      t.kind == TokenKind.Comma || IsComparisonKind(t.kind) || t.kind == Plus || t.kind == Minus
      || t.kind == Star || t.kind == Slash
  }

  predicate Valid(o: Terminal) {
    Matches(o.category, o.token)
  }

  type UnaryOperator = o: Terminal | o.category == Unary && Valid(o)
    witness Terminal(Unary, Token(Minus, None, 1))
  type BinaryOperator = o: Terminal | o.category == Binary && Valid(o)
    witness Terminal(Binary, Token(Plus, None, 1))
  type LiteralToken = o: Terminal | o.category == Literal && Valid(o)
    witness Terminal(Literal, Token(Nil, None, 1))

  /** The error variant of each category, carrying the rejected token. */
  function ErrorOf(c: Category, t: Token): (e: ExprErrors.ExprError)
    ensures e.token == t
  {
    match c
    case Unary => ExprErrors.UnaryOperator(t)
    case Factor => ExprErrors.FactorOperator(t)
    case Term => ExprErrors.TermOperator(t)
    case Comparison => ExprErrors.ComparisonOperator(t)
    case Comma => ExprErrors.CommaOperator(t)
    case TernaryThen => ExprErrors.TernaryThenOperator(t)
    case TernaryElse => ExprErrors.TernaryElseOperator(t)
    case Literal => ExprErrors.Literal(t)
    case Binary => ExprErrors.BinaryOperator(t)
  }

  /** The category an error reports on. */
  function CategoryOf(e: ExprErrors.ExprError): Category {
    match e
    case UnaryOperator(_) => Unary
    case FactorOperator(_) => Factor
    case TermOperator(_) => Term
    case ComparisonOperator(_) => Comparison
    case CommaOperator(_) => Category.Comma
    case TernaryThenOperator(_) => TernaryThen
    case TernaryElseOperator(_) => TernaryElse
    case Literal(_) => Literal
    case BinaryOperator(_) => Binary
  }

  /** Each category has its own error variant, and an error names its category back. */
  lemma ErrorVariantPerCategory(c: Category, d: Category, t: Token, u: Token)
    ensures CategoryOf(ErrorOf(c, t)) == c
    ensures ErrorOf(c, t) == ErrorOf(d, u) ==> c == d && t == u
  {
    assert CategoryOf(ErrorOf(c, t)) == c;
    assert CategoryOf(ErrorOf(d, u)) == d;
  }

  /** `try_from`: the token wrapped in its category when `matches` holds, else the category's error with the token. */
  function TryFrom(c: Category, t: Token): (r: Result<Terminal, ExprErrors.ExprError>)
    ensures r.Success? <==> Matches(c, t)
    ensures r.Success? ==> r.value.category == c && Valid(r.value) && r.value.token == t
    ensures r.Failure? ==> r.error.token == t && CategoryOf(r.error) == c
  {
    if Matches(c, t) then Success(Terminal(c, t)) else Failure(ErrorOf(c, t))
  }

  /**
   * `into_token`: the token a validated value wraps. Validating that token
   * again in the same category gives back the same value.
   */
  function IntoToken(o: Terminal): (t: Token)
    ensures Valid(o) ==> TryFrom(o.category, t) == Success(o)
  {
    o.token
  }

  /** Converting back after a successful `try_from` gives the original token. */
  lemma TryFromIntoToken(c: Category, t: Token)
    requires Matches(c, t)
    ensures TryFrom(c, t).Success? && IntoToken(TryFrom(c, t).value) == t
  {
  }

  /** A token's kind alone decides acceptance: line and lexeme play no part. */
  lemma MatchesOnlyByKind(c: Category, t: Token, u: Token)
    requires t.kind == u.kind
    ensures Matches(c, t) <==> Matches(c, u)
  {
  }

  // ---------------------------------------------------------------------
  // How the categories relate

  /** The four operator categories are exactly the binary operators. */
  lemma BinaryIsUnionOfOperatorCategories(t: Token)
    ensures Matches(Binary, t) <==>
      Matches(Category.Comma, t) || Matches(Comparison, t) || Matches(Term, t) || Matches(Factor, t)
    ensures Matches(Binary, t) <==>
      t.kind in {TokenKind.Comma, BangEqual, EqualEqual, Less, LessEqual, Greater, GreaterEqual, Plus, Minus, Star, Slash}
  {
  }

  /** Bang, Dot and the literal kinds are not binary operators. */
  lemma NotBinary(t: Token)
    requires t.kind == Bang || t.kind == Dot || Matches(Literal, t)
    ensures !Matches(Binary, t)
  {
  }

  /** Minus is both a unary and a term operator; no other kind is. */
  lemma UnaryTermOverlap(t: Token)
    ensures Matches(Unary, t) && Matches(Term, t) <==> t.kind == Minus
  {
  }

  /** Comparison, Term, Factor and Comma are pairwise disjoint. */
  lemma OperatorCategoriesDisjoint(t: Token)
    ensures !(Matches(Comparison, t) && Matches(Term, t))
    ensures !(Matches(Comparison, t) && Matches(Factor, t))
    ensures !(Matches(Term, t) && Matches(Factor, t))
    ensures !(Matches(Category.Comma, t) && (Matches(Comparison, t) || Matches(Term, t) || Matches(Factor, t)))
  {
  }

  /** Identifiers and the ternary punctuation are neither literals nor binary operators. */
  lemma IdentifierIsNotLiteral(t: Token)
    requires t.kind == Identifier || t.kind == Question || t.kind == Colon
    ensures !Matches(Literal, t) && !Matches(Binary, t)
  {
  }

  // ---------------------------------------------------------------------
  // The `From` conversions into BinaryOperator

  /**
   * `BinaryOperator::from` a Comparison, Term or Factor operator: no check is
   * needed, because those categories are subsets of Binary. The source has no
   * such conversion for Comma: the parser's comma level runs the checked
   * `try_into` on the raw token and unwraps it. Here IntoBinary stands in for
   * that conversion too, and the second ensures shows that the checked
   * conversion always succeeds, with this same value, so the `unwrap` never
   * panics.
   */
  function IntoBinary(o: Terminal): (b: BinaryOperator)
    requires o.category in {Comparison, Term, Factor, Category.Comma} && Valid(o)
    ensures IntoToken(b) == IntoToken(o)
    ensures TryFrom(Binary, IntoToken(o)) == Success(b)
  {
    Terminal(Binary, o.token)
  }
}
