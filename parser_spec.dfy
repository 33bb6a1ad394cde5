/**
 * The recursive-descent parser of src/parser as pure functions over a token
 * sequence and a cursor position. Each rule returns the outcome of the Rust
 * method (`None`, `Some(Ok(expr))` or `Some(Err(e))`) together with the
 * position the cursor is left at, which is where the next call continues.
 *
 * Precedence, lowest first: comma, ternary, comparison, term, factor, unary,
 * primary. Termination is by (tokens left, rank of the rule): a rule only
 * calls a rule of lower rank at the same position, and reaches a rule of
 * higher rank only after consuming `(`, `?`, `:` or an operator.
 */
module ParserSpec {
  import opened Wrappers
  import opened Tokens
  import opened Ast
  import Terminals

  /** The parse errors of src/parser/error.rs, each with its partial state. */
  datatype ParseError =
    | GroupingNotClosed(rightParen: Token, expr: Expr)
    | GroupingMissingExpression(rightParen: Token)
    | TernaryMissingThenBranch(question: Expr, thenOperator: Token)
    | TernaryMissingElseOperator(question: Expr, thenOperator: Token, thenBranch: Expr)
    | TernaryMissingElseBranch(question: Expr, thenOperator: Token, thenBranch: Expr, elseOperator: Token)

  /**
   * The outcome of a rule. As a failure-compatible type it is the
   * `expr_or_return!` macro: `var e :- rule();` continues with the expression
   * when there is one and otherwise returns the outcome unchanged.
   */
  datatype ParseResult = NoExpr | Parsed(expr: Expr) | Failed(error: ParseError)
  {
    /** The macro returns on `None` and on an error, and only then. */
    predicate IsFailure()
      ensures IsFailure() <==> NoExpr? || Failed?
    {
      !Parsed?
    }

    /** What the macro returns: `None` stays `None`, and an error keeps its error. */
    function PropagateFailure(): (r: ParseResult)
      requires IsFailure()
      ensures r.NoExpr? <==> NoExpr?
      ensures r.Failed? <==> Failed?
      ensures r.Failed? ==> r.error == error
    {
      this
    }

    /** The expression the macro continues with; wrapping it again gives back the outcome. */
    function Extract(): (e: Expr)
      requires Parsed?
      ensures Parsed(e) == this
    {
      expr
    }
  }

  /** An outcome and the cursor position after it. */
  datatype Parse = Parse(result: ParseResult, next: nat)

  /**
   * `next_if` with a category's `matches`: whether the token at `pos` belongs
   * to `c`. A token it lets through always converts into `c`, so the
   * `try_into` and `unwrap` or `expect` after each `next_if` never fail.
   */
  predicate At(ts: seq<Token>, pos: nat, c: Terminals.Category)
    ensures At(ts, pos, c) ==> pos < |ts| && Terminals.TryFrom(c, ts[pos]).Success?
  {
    pos < |ts| && Terminals.Matches(c, ts[pos])
  }

  /**
   * `next_if` on a kind. A `(` is never a literal, so the two tests of
   * `primary`, literal first and `(` second, never both succeed.
   */
  predicate AtKind(ts: seq<Token>, pos: nat, k: TokenKind)
    ensures AtKind(ts, pos, k) && k == LeftParen ==> !At(ts, pos, Terminals.Literal)
  {
    pos < |ts| && ts[pos].kind == k
  }

  /** The kinds of the tokens from `i` up to, not including, `j`. */
  function KindsBetween(ts: seq<Token>, i: nat, j: nat): (ks: seq<TokenKind>)
    requires i <= j <= |ts|
    ensures |ks| == j - i
    decreases j - i
  {
    if i == j then [] else [ts[i].kind] + KindsBetween(ts, i + 1, j)
  }

  lemma {:induction false} KindsSplit(ts: seq<Token>, i: nat, j: nat, k: nat)
    requires i <= j <= k <= |ts|
    ensures KindsBetween(ts, i, k) == KindsBetween(ts, i, j) + KindsBetween(ts, j, k)
    decreases j - i
  {
    if i < j {
      KindsSplit(ts, i + 1, j, k);
    }
  }

  /** Cutting the kinds from `i` to `j` around the token at `m`. */
  lemma KindsAround(ts: seq<Token>, i: nat, m: nat, m1: nat, j: nat)
    requires i <= m < j <= |ts| && m1 == m + 1
    ensures KindsBetween(ts, i, j) == KindsBetween(ts, i, m) + [ts[m].kind] + KindsBetween(ts, m1, j)
  {
    KindsSplit(ts, i, m, j);
  }

  lemma KindsOne(ts: seq<Token>, i: nat, j: nat)
    requires i < |ts| && j == i + 1
    ensures KindsBetween(ts, i, j) == [ts[i].kind]
  {
    assert KindsBetween(ts, j, j) == [];
  }

  // ---------------------------------------------------------------------
  // Precedence levels of a tree

  /** The rule a binary operator belongs to, by rank: factor 2, term 3, comparison 4, comma 6. */
  function OperatorLevel(op: Terminals.BinaryOperator): nat {
    match op.token.kind
    case Star => 2
    case Slash => 2
    case Plus => 3
    case Minus => 3
    case Comma => 6
    case _ => 4
  }

  /** The lowest-ranked rule whose result the root of `e` can be. */
  function Level(e: Expr): nat {
    match e
    case Binary(_, op, _) => OperatorLevel(op)
    case Ternary(_, _, _) => 5
    case Grouping(_) => 0
    case Unary(_, _) => 1
    case Literal(_) => 0
  }

  /**
   * Precedence and associativity, node by node: a binary node's left operand
   * sits at its own level or below and its right operand strictly below (left
   * associativity); a unary operand is a primary; a ternary condition sits
   * below the ternary level and its else branch at most at it (right
   * associativity); a grouping may hold anything.
   */
  predicate WellNested(e: Expr) {
    match e
    case Binary(l, op, r) =>
      Level(l) <= OperatorLevel(op) && Level(r) < OperatorLevel(op) && WellNested(l) && WellNested(r)
    case Ternary(c, t, f) =>
      Level(c) < 5 && Level(f) <= 5 && WellNested(c) && WellNested(t) && WellNested(f)
    case Grouping(inner) => WellNested(inner)
    case Unary(_, r) => Level(r) == 0 && WellNested(r)
    case Literal(_) => true
  }

  /** `e` is `acc` with zero or more operators of category `c` folded on from the left. */
  predicate LeftFold(e: Expr, acc: Expr, c: Terminals.Category) {
    e == acc || (e.Binary? && Terminals.Matches(c, e.operator.token) && LeftFold(e.left, acc, c))
  }

  /** The binary node the fold loops build: the operator converted with `BinaryOperator::from`. */
  function Fold(acc: Expr, c: Terminals.Category, t: Token, right: Expr): (e: Expr)
    requires c in {Terminals.Comparison, Terminals.Term, Terminals.Factor, Terminals.Comma}
    requires Terminals.Matches(c, t)
    ensures e.Binary? && e.left == acc && e.operator.token == t && e.right == right
  {
    Binary(acc, Terminals.IntoBinary(Terminals.Terminal(c, t)), right)
  }

  // ---------------------------------------------------------------------
  // The rules

  /** `expression`: the comma rule. */
  function Expression(ts: seq<Token>, pos: nat): (r: Parse)
    requires pos <= |ts|
    ensures pos <= r.next <= |ts|
    ensures r.result.Parsed? ==> pos < r.next
    decreases |ts| - pos, 7
  {
    Comma(ts, pos)
  }

  /** `comma`: ternaries separated by `,`, folded from the left. */
  function Comma(ts: seq<Token>, pos: nat): (r: Parse)
    requires pos <= |ts|
    ensures pos <= r.next <= |ts|
    ensures r.result.Parsed? ==> pos < r.next
    decreases |ts| - pos, 6
  {
    var first := Ternary(ts, pos);
    if first.result.Parsed? then
      CommaLoop(ts, first.next, first.result.expr)
    else
      first
  }

  /** The `while let` loop of `comma`, from accumulator `acc` at `pos`. */
  function CommaLoop(ts: seq<Token>, pos: nat, acc: Expr): (r: Parse)
    requires pos <= |ts|
    ensures pos <= r.next <= |ts|
    decreases |ts| - pos, 0
  {
    if At(ts, pos, Terminals.Comma) then
      var right := Ternary(ts, pos + 1);
      if right.result.Parsed? then
        CommaLoop(ts, right.next, Fold(acc, Terminals.Comma, ts[pos], right.result.expr))
      else
        right
    else
      Parse(Parsed(acc), pos)
  }

  /** `ternary`: a comparison, optionally followed by `? expression : ternary`. */
  function Ternary(ts: seq<Token>, pos: nat): (r: Parse)
    requires pos <= |ts|
    ensures pos <= r.next <= |ts|
    ensures r.result.Parsed? ==> pos < r.next
    decreases |ts| - pos, 5
  {
    var cond := Comparison(ts, pos);
    if cond.result.Parsed? && At(ts, cond.next, Terminals.TernaryThen) then
      TernaryBranches(ts, cond.result.expr, ts[cond.next], cond.next + 1)
    else
      cond
  }

  /**
   * The rest of `ternary` once `?` has been consumed, with the condition `c`
   * and the `?` token in hand: `expression`, then `:`, then `ternary`.
   */
  function TernaryBranches(ts: seq<Token>, c: Expr, question: Token, pos: nat): (r: Parse)
    requires 0 < pos <= |ts|
    ensures pos <= r.next <= |ts|
    ensures r.result.Parsed? ==> pos < r.next
    decreases |ts| - pos + 1, 0
  {
    var thenBranch := Expression(ts, pos);
    match thenBranch.result
    case NoExpr => Parse(Failed(TernaryMissingThenBranch(c, question)), thenBranch.next)
    case Failed(_) => thenBranch
    case Parsed(t) =>
      if !At(ts, thenBranch.next, Terminals.TernaryElse) then
        Parse(Failed(TernaryMissingElseOperator(c, question, t)), thenBranch.next)
      else
        var colon := ts[thenBranch.next];
        var elseBranch := Ternary(ts, thenBranch.next + 1);
        match elseBranch.result
        case NoExpr => Parse(Failed(TernaryMissingElseBranch(c, question, t, colon)), elseBranch.next)
        case Failed(_) => elseBranch
        case Parsed(f) => Parse(Parsed(Ast.Ternary(c, t, f)), elseBranch.next)
  }

  /** `comparison`: terms separated by comparison operators, folded from the left. */
  function Comparison(ts: seq<Token>, pos: nat): (r: Parse)
    requires pos <= |ts|
    ensures pos <= r.next <= |ts|
    ensures r.result.Parsed? ==> pos < r.next
    decreases |ts| - pos, 4
  {
    var first := Term(ts, pos);
    if first.result.Parsed? then
      ComparisonLoop(ts, first.next, first.result.expr)
    else
      first
  }

  /** The `while let` loop of `comparison`. */
  function ComparisonLoop(ts: seq<Token>, pos: nat, acc: Expr): (r: Parse)
    requires pos <= |ts|
    ensures pos <= r.next <= |ts|
    decreases |ts| - pos, 0
  {
    if At(ts, pos, Terminals.Comparison) then
      var right := Term(ts, pos + 1);
      if right.result.Parsed? then
        ComparisonLoop(ts, right.next, Fold(acc, Terminals.Comparison, ts[pos], right.result.expr))
      else
        right
    else
      Parse(Parsed(acc), pos)
  }

  /** `term`: factors separated by `+` or `-`, folded from the left. */
  function Term(ts: seq<Token>, pos: nat): (r: Parse)
    requires pos <= |ts|
    ensures pos <= r.next <= |ts|
    ensures r.result.Parsed? ==> pos < r.next
    decreases |ts| - pos, 3
  {
    var first := Factor(ts, pos);
    if first.result.Parsed? then
      TermLoop(ts, first.next, first.result.expr)
    else
      first
  }

  /** The `while let` loop of `term`. */
  function TermLoop(ts: seq<Token>, pos: nat, acc: Expr): (r: Parse)
    requires pos <= |ts|
    ensures pos <= r.next <= |ts|
    decreases |ts| - pos, 0
  {
    if At(ts, pos, Terminals.Term) then
      var right := Factor(ts, pos + 1);
      if right.result.Parsed? then
        TermLoop(ts, right.next, Fold(acc, Terminals.Term, ts[pos], right.result.expr))
      else
        right
    else
      Parse(Parsed(acc), pos)
  }

  /** `factor`: unaries separated by `*` or `/`, folded from the left. */
  function Factor(ts: seq<Token>, pos: nat): (r: Parse)
    requires pos <= |ts|
    ensures pos <= r.next <= |ts|
    ensures r.result.Parsed? ==> pos < r.next
    decreases |ts| - pos, 2
  {
    var first := Unary(ts, pos);
    if first.result.Parsed? then
      FactorLoop(ts, first.next, first.result.expr)
    else
      first
  }

  /** The `while let` loop of `factor`. */
  function FactorLoop(ts: seq<Token>, pos: nat, acc: Expr): (r: Parse)
    requires pos <= |ts|
    ensures pos <= r.next <= |ts|
    decreases |ts| - pos, 0
  {
    if At(ts, pos, Terminals.Factor) then
      var right := Unary(ts, pos + 1);
      if right.result.Parsed? then
        FactorLoop(ts, right.next, Fold(acc, Terminals.Factor, ts[pos], right.result.expr))
      else
        right
    else
      Parse(Parsed(acc), pos)
  }

  /** `unary`: an optional `!` or `-` followed by a primary (not by another unary). */
  function Unary(ts: seq<Token>, pos: nat): (r: Parse)
    requires pos <= |ts|
    ensures pos <= r.next <= |ts|
    ensures r.result.Parsed? ==> pos < r.next
    decreases |ts| - pos, 1
  {
    if At(ts, pos, Terminals.Unary) then
      var right := Primary(ts, pos + 1);
      if right.result.Parsed? then
        Parse(Parsed(Ast.Unary(Terminals.Terminal(Terminals.Unary, ts[pos]), right.result.expr)), right.next)
      else
        right
    else
      Primary(ts, pos)
  }

  /** `primary`: a literal, or a parenthesised expression. */
  function Primary(ts: seq<Token>, pos: nat): (r: Parse)
    requires pos <= |ts|
    ensures pos <= r.next <= |ts|
    ensures r.result.Parsed? ==> pos < r.next
    ensures r.result.NoExpr? <==> !At(ts, pos, Terminals.Literal) && !AtKind(ts, pos, LeftParen)
    ensures r.result.NoExpr? ==> r.next == pos
    decreases |ts| - pos, 0
  {
    if At(ts, pos, Terminals.Literal) then
      Parse(Parsed(Ast.Literal(Terminals.Terminal(Terminals.Literal, ts[pos]))), pos + 1)
    else if AtKind(ts, pos, LeftParen) then
      var inner := Expression(ts, pos + 1);
      match inner.result
      case NoExpr => Parse(Failed(GroupingMissingExpression(ts[pos])), inner.next)
      case Failed(_) => inner
      case Parsed(e) =>
        if AtKind(ts, inner.next, RightParen) then
          Parse(Parsed(Grouping(e)), inner.next + 1)
        else
          Parse(Failed(GroupingNotClosed(ts[pos], e)), inner.next)
    else
      Parse(NoExpr, pos)
  }
}
