/**
 * The parser on small token sequences, following the cases of the tests in
 * src/parser: left-folded operators, the comma list, right-nested ternaries,
 * and the outcomes for incomplete input.
 */
module ParserExamples {
  import opened Wrappers
  import opened Tokens
  import opened ParserSpec
  import Ast
  import Terminals
  import ParserProperties

  function Num(text: string): Token {
    Token(Number(text), Some(text), 1)
  }

  function Sym(k: TokenKind): Token {
    Token(k, None, 1)
  }

  function Lit(t: Token): Ast.Expr
    requires Terminals.Matches(Terminals.Literal, t)
  {
    Ast.Literal(Terminals.Terminal(Terminals.Literal, t))
  }

  function Bin(l: Ast.Expr, t: Token, r: Ast.Expr): Ast.Expr
    requires Terminals.Matches(Terminals.Binary, t)
  {
    Ast.Binary(l, Terminals.Terminal(Terminals.Binary, t), r)
  }

  function Neg(t: Token, e: Ast.Expr): Ast.Expr
    requires Terminals.Matches(Terminals.Unary, t)
  {
    Ast.Unary(Terminals.Terminal(Terminals.Unary, t), e)
  }

  predicate LitAt(ts: seq<Token>, i: nat) {
    i < |ts| && Terminals.Matches(Terminals.Literal, ts[i])
  }

  // ---------------------------------------------------------------------
  // One step of each rule: what the rule at `p` returns, given what the
  // rules it calls return.

  lemma PrimaryLiteral(ts: seq<Token>, p: nat)
    requires LitAt(ts, p)
    ensures Primary(ts, p) == Parse(Parsed(Lit(ts[p])), p + 1)
  {
  }

  lemma UnaryIsPrimary(ts: seq<Token>, p: nat, r: Parse)
    requires p <= |ts| && !At(ts, p, Terminals.Unary) && Primary(ts, p) == r
    ensures Unary(ts, p) == r
  {
  }

  lemma UnaryApplied(ts: seq<Token>, p: nat, e: Ast.Expr, n: nat)
    requires At(ts, p, Terminals.Unary) && Primary(ts, p + 1) == Parse(Parsed(e), n)
    ensures Unary(ts, p) == Parse(Parsed(Neg(ts[p], e)), n)
  {
  }

  lemma FactorFrom(ts: seq<Token>, p: nat, e: Ast.Expr, k: nat, r: Parse)
    requires p <= |ts| && Unary(ts, p) == Parse(Parsed(e), k) && FactorLoop(ts, k, e) == r
    ensures Factor(ts, p) == r
  {
  }

  lemma FactorEnds(ts: seq<Token>, p: nat, e: Ast.Expr)
    requires p <= |ts| && !At(ts, p, Terminals.Factor)
    ensures FactorLoop(ts, p, e) == Parse(Parsed(e), p)
  {
  }

  lemma FactorFolds(ts: seq<Token>, p: nat, acc: Ast.Expr, right: Ast.Expr, k: nat, r: Parse)
    requires At(ts, p, Terminals.Factor) && Unary(ts, p + 1) == Parse(Parsed(right), k)
    requires FactorLoop(ts, k, Bin(acc, ts[p], right)) == r
    ensures FactorLoop(ts, p, acc) == r
  {
  }

  lemma FactorFails(ts: seq<Token>, p: nat, r: Parse)
    requires p <= |ts| && Unary(ts, p) == r && !r.result.Parsed?
    ensures Factor(ts, p) == r
  {
  }

  lemma TermFrom(ts: seq<Token>, p: nat, e: Ast.Expr, k: nat, r: Parse)
    requires p <= |ts| && Factor(ts, p) == Parse(Parsed(e), k) && TermLoop(ts, k, e) == r
    ensures Term(ts, p) == r
  {
  }

  lemma TermEnds(ts: seq<Token>, p: nat, e: Ast.Expr)
    requires p <= |ts| && !At(ts, p, Terminals.Term)
    ensures TermLoop(ts, p, e) == Parse(Parsed(e), p)
  {
  }

  lemma TermFolds(ts: seq<Token>, p: nat, acc: Ast.Expr, right: Ast.Expr, k: nat, r: Parse)
    requires At(ts, p, Terminals.Term) && Factor(ts, p + 1) == Parse(Parsed(right), k)
    requires TermLoop(ts, k, Bin(acc, ts[p], right)) == r
    ensures TermLoop(ts, p, acc) == r
  {
  }

  lemma TermLoopFails(ts: seq<Token>, p: nat, acc: Ast.Expr, r: Parse)
    requires At(ts, p, Terminals.Term) && Factor(ts, p + 1) == r && !r.result.Parsed?
    ensures TermLoop(ts, p, acc) == r
  {
  }

  lemma TermFails(ts: seq<Token>, p: nat, r: Parse)
    requires p <= |ts| && Factor(ts, p) == r && !r.result.Parsed?
    ensures Term(ts, p) == r
  {
  }

  lemma ComparisonFrom(ts: seq<Token>, p: nat, e: Ast.Expr, k: nat, r: Parse)
    requires p <= |ts| && Term(ts, p) == Parse(Parsed(e), k) && ComparisonLoop(ts, k, e) == r
    ensures Comparison(ts, p) == r
  {
  }

  lemma ComparisonEnds(ts: seq<Token>, p: nat, e: Ast.Expr)
    requires p <= |ts| && !At(ts, p, Terminals.Comparison)
    ensures ComparisonLoop(ts, p, e) == Parse(Parsed(e), p)
  {
  }

  lemma ComparisonFolds(ts: seq<Token>, p: nat, acc: Ast.Expr, right: Ast.Expr, k: nat, r: Parse)
    requires At(ts, p, Terminals.Comparison) && Term(ts, p + 1) == Parse(Parsed(right), k)
    requires ComparisonLoop(ts, k, Bin(acc, ts[p], right)) == r
    ensures ComparisonLoop(ts, p, acc) == r
  {
  }

  lemma ComparisonFails(ts: seq<Token>, p: nat, r: Parse)
    requires p <= |ts| && Term(ts, p) == r && !r.result.Parsed?
    ensures Comparison(ts, p) == r
  {
  }

  /** A complete comparison followed by no `?` is a complete ternary. */
  lemma ComparisonIsTernary(ts: seq<Token>, p: nat, e: Ast.Expr, n: nat)
    requires p <= |ts| && Comparison(ts, p) == Parse(Parsed(e), n) && !At(ts, n, Terminals.TernaryThen)
    ensures Ternary(ts, p) == Parse(Parsed(e), n)
  {
  }

  /** A condition followed by `?`: `ternary` goes on to its branches. */
  lemma ConditionParsed(ts: seq<Token>, p: nat, c: Ast.Expr, k: nat)
    requires p <= |ts| && Comparison(ts, p) == Parse(Parsed(c), k) && At(ts, k, Terminals.TernaryThen)
    ensures Ternary(ts, p) == TernaryBranches(ts, c, ts[k], k + 1)
  {
    var cond := Comparison(ts, p);
    assert cond.result.Parsed? && cond.result.expr == c && cond.next == k;
  }

  lemma TernaryFails(ts: seq<Token>, p: nat, r: Parse)
    requires p <= |ts| && Comparison(ts, p) == r && !r.result.Parsed?
    ensures Ternary(ts, p) == r
  {
  }

  /** Both branches parsed: `ternary` builds the node and stops where the else branch stopped. */
  lemma BranchesParsed(ts: seq<Token>, c: Ast.Expr, question: Token, p: nat, t: Ast.Expr, k: nat, f: Ast.Expr, n: nat)
    requires 0 < p <= |ts|
    requires Expression(ts, p) == Parse(Parsed(t), k) && At(ts, k, Terminals.TernaryElse)
    requires Ternary(ts, k + 1) == Parse(Parsed(f), n)
    ensures TernaryBranches(ts, c, question, p) == Parse(Parsed(Ast.Ternary(c, t, f)), n)
  {
  }

  /** A then branch with no `:` after it: the error holds the condition, `?` and the then branch. */
  lemma BranchesNoColon(ts: seq<Token>, c: Ast.Expr, question: Token, p: nat, t: Ast.Expr, k: nat)
    requires 0 < p <= |ts|
    requires Expression(ts, p) == Parse(Parsed(t), k) && !At(ts, k, Terminals.TernaryElse)
    ensures TernaryBranches(ts, c, question, p) == Parse(Failed(TernaryMissingElseOperator(c, question, t)), k)
  {
  }

  lemma ExpressionFrom(ts: seq<Token>, p: nat, e: Ast.Expr, k: nat, r: Parse)
    requires p <= |ts| && Ternary(ts, p) == Parse(Parsed(e), k) && CommaLoop(ts, k, e) == r
    ensures Expression(ts, p) == r
  {
  }

  lemma CommaEnds(ts: seq<Token>, p: nat, e: Ast.Expr)
    requires p <= |ts| && !At(ts, p, Terminals.Comma)
    ensures CommaLoop(ts, p, e) == Parse(Parsed(e), p)
  {
  }

  lemma CommaFolds(ts: seq<Token>, p: nat, acc: Ast.Expr, right: Ast.Expr, k: nat, r: Parse)
    requires At(ts, p, Terminals.Comma) && Ternary(ts, p + 1) == Parse(Parsed(right), k)
    requires CommaLoop(ts, k, Bin(acc, ts[p], right)) == r
    ensures CommaLoop(ts, p, acc) == r
  {
  }

  lemma ExpressionFails(ts: seq<Token>, p: nat, r: Parse)
    requires p <= |ts| && Ternary(ts, p) == r && !r.result.Parsed?
    ensures Expression(ts, p) == r
  {
  }

  /** `(`, a complete expression, `)`: a grouping, whatever follows. */
  lemma GroupingParsed(ts: seq<Token>, p: nat, e: Ast.Expr, k: nat)
    requires AtKind(ts, p, LeftParen)
    requires Expression(ts, p + 1) == Parse(Parsed(e), k) && AtKind(ts, k, RightParen)
    ensures Primary(ts, p) == Parse(Parsed(Ast.Grouping(e)), k + 1)
  {
  }

  /** `(` and a complete expression with no `)` after it: the error holds `(` and the expression. */
  lemma GroupingUnclosed(ts: seq<Token>, p: nat, e: Ast.Expr, k: nat)
    requires AtKind(ts, p, LeftParen)
    requires Expression(ts, p + 1) == Parse(Parsed(e), k) && !AtKind(ts, k, RightParen)
    ensures Primary(ts, p) == Parse(Failed(GroupingNotClosed(ts[p], e)), k)
  {
  }

  /** `(` with no expression after it: the error holds `(`. */
  lemma GroupingEmpty(ts: seq<Token>, p: nat, k: nat)
    requires AtKind(ts, p, LeftParen) && Expression(ts, p + 1) == Parse(NoExpr, k)
    ensures Primary(ts, p) == Parse(Failed(GroupingMissingExpression(ts[p])), k)
  {
  }

  // ---------------------------------------------------------------------
  // Steps chained: a complete result of one rule is the result of the rules above it

  lemma FactorOfUnary(ts: seq<Token>, p: nat, e: Ast.Expr, n: nat)
    requires p <= |ts| && Unary(ts, p) == Parse(Parsed(e), n) && !At(ts, n, Terminals.Factor)
    ensures Factor(ts, p) == Parse(Parsed(e), n)
  {
    FactorEnds(ts, n, e);
    FactorFrom(ts, p, e, n, Parse(Parsed(e), n));
  }

  lemma TermOfFactor(ts: seq<Token>, p: nat, e: Ast.Expr, n: nat)
    requires p <= |ts| && Factor(ts, p) == Parse(Parsed(e), n) && !At(ts, n, Terminals.Term)
    ensures Term(ts, p) == Parse(Parsed(e), n)
  {
    TermEnds(ts, n, e);
    TermFrom(ts, p, e, n, Parse(Parsed(e), n));
  }

  /** A complete term followed by no comparison operator is a complete comparison. */
  lemma TermIsComparison(ts: seq<Token>, p: nat, e: Ast.Expr, n: nat)
    requires p <= |ts| && Term(ts, p) == Parse(Parsed(e), n) && !At(ts, n, Terminals.Comparison)
    ensures Comparison(ts, p) == Parse(Parsed(e), n)
  {
    ComparisonEnds(ts, n, e);
    ComparisonFrom(ts, p, e, n, Parse(Parsed(e), n));
  }

  /** A complete ternary-level expression followed by no comma is the whole expression from there. */
  lemma WholeInputFrom(ts: seq<Token>, p: nat, e: Ast.Expr, n: nat)
    requires p <= |ts| && Ternary(ts, p) == Parse(Parsed(e), n) && !At(ts, n, Terminals.Comma)
    ensures Expression(ts, p) == Parse(Parsed(e), n)
  {
    CommaEnds(ts, n, e);
    ExpressionFrom(ts, p, e, n, Parse(Parsed(e), n));
  }

  /** A complete term followed by no operator of comparison level or looser is the whole expression. */
  lemma TermIsWhole(ts: seq<Token>, p: nat, e: Ast.Expr, n: nat)
    requires p <= |ts| && Term(ts, p) == Parse(Parsed(e), n)
    requires !At(ts, n, Terminals.Comparison) && !At(ts, n, Terminals.TernaryThen) && !At(ts, n, Terminals.Comma)
    ensures Expression(ts, p) == Parse(Parsed(e), n)
  {
    TermIsComparison(ts, p, e, n);
    ComparisonIsTernary(ts, p, e, n);
    WholeInputFrom(ts, p, e, n);
  }

  /** A primary that ends the input is the whole expression. */
  lemma PrimaryIsWhole(ts: seq<Token>, p: nat, e: Ast.Expr, n: nat)
    requires n == |ts| && p <= n && !At(ts, p, Terminals.Unary) && Primary(ts, p) == Parse(Parsed(e), n)
    ensures Expression(ts, p) == Parse(Parsed(e), n)
  {
    UnaryIsPrimary(ts, p, Parse(Parsed(e), n));
    FactorOfUnary(ts, p, e, n);
    TermOfFactor(ts, p, e, n);
    TermIsWhole(ts, p, e, n);
  }

  /** A term that fails, or finds nothing, makes the whole expression fail the same way. */
  lemma TermFailureIsWhole(ts: seq<Token>, p: nat, r: Parse)
    requires p <= |ts| && Term(ts, p) == r && !r.result.Parsed?
    ensures Expression(ts, p) == r
  {
    ComparisonFails(ts, p, r);
    TernaryFails(ts, p, r);
    ExpressionFails(ts, p, r);
  }

  /** A primary that fails, with no unary operator before it, makes the whole expression fail the same way. */
  lemma PrimaryFailureIsWhole(ts: seq<Token>, p: nat, r: Parse)
    requires p <= |ts| && !At(ts, p, Terminals.Unary) && Primary(ts, p) == r && !r.result.Parsed?
    ensures Expression(ts, p) == r
  {
    UnaryIsPrimary(ts, p, r);
    FactorFails(ts, p, r);
    TermFails(ts, p, r);
    TermFailureIsWhole(ts, p, r);
  }

  /** A literal followed by no `*` or `/` is a complete factor. */
  lemma LiteralFactor(ts: seq<Token>, p: nat)
    requires LitAt(ts, p) && !At(ts, p + 1, Terminals.Factor)
    ensures Factor(ts, p) == Parse(Parsed(Lit(ts[p])), p + 1)
  {
    PrimaryLiteral(ts, p);
    UnaryIsPrimary(ts, p, Parse(Parsed(Lit(ts[p])), p + 1));
    FactorOfUnary(ts, p, Lit(ts[p]), p + 1);
  }

  /** A literal followed by no operator of term level or tighter is a complete term. */
  lemma LiteralTerm(ts: seq<Token>, p: nat)
    requires LitAt(ts, p) && !At(ts, p + 1, Terminals.Factor) && !At(ts, p + 1, Terminals.Term)
    ensures Term(ts, p) == Parse(Parsed(Lit(ts[p])), p + 1)
  {
    LiteralFactor(ts, p);
    TermOfFactor(ts, p, Lit(ts[p]), p + 1);
  }

  /** A literal followed by no operator of ternary level or tighter is a complete ternary. */
  lemma LiteralTernary(ts: seq<Token>, p: nat)
    requires LitAt(ts, p) && !At(ts, p + 1, Terminals.Factor) && !At(ts, p + 1, Terminals.Term)
    requires !At(ts, p + 1, Terminals.Comparison) && !At(ts, p + 1, Terminals.TernaryThen)
    ensures Ternary(ts, p) == Parse(Parsed(Lit(ts[p])), p + 1)
  {
    LiteralTerm(ts, p);
    TermIsComparison(ts, p, Lit(ts[p]), p + 1);
    ComparisonIsTernary(ts, p, Lit(ts[p]), p + 1);
  }

  /** A literal followed by `?` is the condition of a ternary. */
  lemma LiteralCondition(ts: seq<Token>, p: nat)
    requires LitAt(ts, p) && At(ts, p + 1, Terminals.TernaryThen)
    ensures Ternary(ts, p) == TernaryBranches(ts, Lit(ts[p]), ts[p + 1], p + 2)
  {
    LiteralTerm(ts, p);
    TermIsComparison(ts, p, Lit(ts[p]), p + 1);
    ConditionParsed(ts, p, Lit(ts[p]), p + 1);
  }

  /** A then branch of one literal, then `:`, then a complete else branch. */
  lemma LiteralThenBranch(ts: seq<Token>, c: Ast.Expr, question: Token, p: nat, f: Ast.Expr, n: nat)
    requires 0 < p && LitAt(ts, p) && At(ts, p + 1, Terminals.TernaryElse)
    requires Ternary(ts, p + 2) == Parse(Parsed(f), n)
    ensures TernaryBranches(ts, c, question, p) == Parse(Parsed(Ast.Ternary(c, Lit(ts[p]), f)), n)
  {
    LiteralTernary(ts, p);
    WholeInputFrom(ts, p, Lit(ts[p]), p + 1);
    BranchesParsed(ts, c, question, p, Lit(ts[p]), p + 1, f, n);
  }

  /** A condition, `?`, a then branch, `:` and an else branch, each parsed on its own, make one ternary. */
  lemma TernaryFromParts(ts: seq<Token>, p: nat, c: Ast.Expr, k: nat, t: Ast.Expr, m: nat, f: Ast.Expr, n: nat)
    requires p <= |ts|
    requires Comparison(ts, p) == Parse(Parsed(c), k) && At(ts, k, Terminals.TernaryThen)
    requires Expression(ts, k + 1) == Parse(Parsed(t), m) && At(ts, m, Terminals.TernaryElse)
    requires Ternary(ts, m + 1) == Parse(Parsed(f), n)
    ensures Ternary(ts, p) == Parse(Parsed(Ast.Ternary(c, t, f)), n)
  {
    ConditionParsed(ts, p, c, k);
    BranchesParsed(ts, c, ts[k], k + 1, t, m, f, n);
  }

  // ---------------------------------------------------------------------
  // The tests

  /** "1 - 2 - 3" folds to the left: (1 - 2) - 3. */
  lemma MinusFoldsLeft(ts: seq<Token>)
    requires ts == [Num("1"), Sym(Minus), Num("2"), Sym(Minus), Num("3")]
    ensures Expression(ts, 0) ==
      Parse(Parsed(Bin(Bin(Lit(ts[0]), ts[1], Lit(ts[2])), ts[3], Lit(ts[4]))), 5)
  {
    var one, two, three := Lit(ts[0]), Lit(ts[2]), Lit(ts[4]);
    var b := Bin(one, ts[1], two);
    var e := Bin(b, ts[3], three);
    var r := Parse(Parsed(e), 5);
    LiteralFactor(ts, 0);
    LiteralFactor(ts, 2);
    LiteralFactor(ts, 4);
    TermEnds(ts, 5, e);
    TermFolds(ts, 3, b, three, 5, r);
    TermFolds(ts, 1, one, two, 3, r);
    TermFrom(ts, 0, one, 1, r);
    TermIsWhole(ts, 0, e, 5);
  }

  /** "43, 52, 123" folds to the left: (43, 52), 123. */
  lemma CommaList(ts: seq<Token>)
    requires ts == [Num("43"), Sym(TokenKind.Comma), Num("52"), Sym(TokenKind.Comma), Num("123")]
    ensures Expression(ts, 0) ==
      Parse(Parsed(Bin(Bin(Lit(ts[0]), ts[1], Lit(ts[2])), ts[3], Lit(ts[4]))), 5)
  {
    var a, b, c := Lit(ts[0]), Lit(ts[2]), Lit(ts[4]);
    var ab := Bin(a, ts[1], b);
    var e := Bin(ab, ts[3], c);
    var r := Parse(Parsed(e), 5);
    LiteralTernary(ts, 0);
    LiteralTernary(ts, 2);
    LiteralTernary(ts, 4);
    CommaEnds(ts, 5, e);
    CommaFolds(ts, 3, ab, c, 5, r);
    CommaFolds(ts, 1, a, b, 3, r);
    ExpressionFrom(ts, 0, a, 1, r);
  }

  /** "true ? 1 : false ? 2 : 3" nests to the right: true ? 1 : (false ? 2 : 3). */
  lemma TernaryNestsRight(ts: seq<Token>)
    requires ts == [Sym(True), Sym(Question), Num("1"), Sym(Colon),
                    Sym(False), Sym(Question), Num("2"), Sym(Colon), Num("3")]
    ensures Expression(ts, 0) ==
      Parse(Parsed(Ast.Ternary(Lit(ts[0]), Lit(ts[2]), Ast.Ternary(Lit(ts[4]), Lit(ts[6]), Lit(ts[8])))), 9)
  {
    TwoTernaries(ts);
  }

  /** Any `a ? b : c ? d : e` over literals, whatever the literals are. */
  lemma TwoTernaries(ts: seq<Token>)
    requires |ts| == 9 && LitAt(ts, 0) && LitAt(ts, 2) && LitAt(ts, 4) && LitAt(ts, 6) && LitAt(ts, 8)
    requires ts[1].kind == Question && ts[5].kind == Question && ts[3].kind == Colon && ts[7].kind == Colon
    ensures Expression(ts, 0) ==
      Parse(Parsed(Ast.Ternary(Lit(ts[0]), Lit(ts[2]), Ast.Ternary(Lit(ts[4]), Lit(ts[6]), Lit(ts[8])))), 9)
  {
    var inner := Ast.Ternary(Lit(ts[4]), Lit(ts[6]), Lit(ts[8]));
    LiteralTernary(ts, 8);
    LiteralThenBranch(ts, Lit(ts[4]), ts[5], 6, Lit(ts[8]), 9);
    LiteralCondition(ts, 4);
    LiteralThenBranch(ts, Lit(ts[0]), ts[1], 2, inner, 9);
    LiteralCondition(ts, 0);
    WholeInputFrom(ts, 0, Ast.Ternary(Lit(ts[0]), Lit(ts[2]), inner), 9);
  }

  /** `a + b` over literals, from `p` to `p3`, followed by nothing of term level or tighter. */
  lemma LiteralSum(ts: seq<Token>, p: nat)
    requires LitAt(ts, p) && AtKind(ts, p + 1, Plus) && LitAt(ts, p + 2)
    requires !At(ts, p + 3, Terminals.Factor) && !At(ts, p + 3, Terminals.Term)
    ensures Term(ts, p) == Parse(Parsed(Bin(Lit(ts[p]), ts[p + 1], Lit(ts[p + 2]))), p + 3)
  {
    var e := Bin(Lit(ts[p]), ts[p + 1], Lit(ts[p + 2]));
    LiteralFactor(ts, p);
    LiteralFactor(ts, p + 2);
    TermEnds(ts, p + 3, e);
    TermFolds(ts, p + 1, Lit(ts[p]), Lit(ts[p + 2]), p + 3, Parse(Parsed(e), p + 3));
    TermFrom(ts, p, Lit(ts[p]), p + 1, Parse(Parsed(e), p + 3));
  }

  /** "(1 + 2" is a grouping that is not closed; the error holds `(` and the inner sum. */
  lemma UnclosedGrouping(ts: seq<Token>)
    requires ts == [Sym(LeftParen), Num("1"), Sym(Plus), Num("2")]
    ensures Expression(ts, 0) ==
      Parse(Failed(GroupingNotClosed(ts[0], Bin(Lit(ts[1]), ts[2], Lit(ts[3])))), 4)
  {
    var sum := Bin(Lit(ts[1]), ts[2], Lit(ts[3]));
    LiteralSum(ts, 1);
    TermIsWhole(ts, 1, sum, 4);
    GroupingUnclosed(ts, 0, sum, 4);
    PrimaryFailureIsWhole(ts, 0, Parse(Failed(GroupingNotClosed(ts[0], sum)), 4));
  }

  /** "()" has nothing inside the parentheses. */
  lemma EmptyGrouping(ts: seq<Token>)
    requires ts == [Sym(LeftParen), Sym(RightParen)]
    ensures Expression(ts, 0) == Parse(Failed(GroupingMissingExpression(ts[0])), 1)
  {
    ParserProperties.NothingToParse(ts, 1);
    GroupingEmpty(ts, 0, 1);
    PrimaryFailureIsWhole(ts, 0, Parse(Failed(GroupingMissingExpression(ts[0])), 1));
  }

  /** "1 -": the `-` is consumed, no operand follows, and the whole expression is `None`. */
  lemma DanglingOperator(ts: seq<Token>)
    requires ts == [Num("1"), Sym(Minus)]
    ensures Expression(ts, 0) == Parse(NoExpr, 2)
  {
    var none := Parse(NoExpr, 2);
    LiteralFactor(ts, 0);
    ParserProperties.NothingToParse(ts, 2);
    UnaryIsPrimary(ts, 2, none);
    FactorFails(ts, 2, none);
    TermLoopFails(ts, 1, Lit(ts[0]), none);
    TermFrom(ts, 0, Lit(ts[0]), 1, none);
    TermFailureIsWhole(ts, 0, none);
  }

  /** "1 ? 2" has no `:`; the error holds the condition, `?` and the then branch. */
  lemma MissingElseOperator(ts: seq<Token>)
    requires ts == [Num("1"), Sym(Question), Num("2")]
    ensures Expression(ts, 0) ==
      Parse(Failed(TernaryMissingElseOperator(Lit(ts[0]), ts[1], Lit(ts[2]))), 3)
  {
    var err := Parse(Failed(TernaryMissingElseOperator(Lit(ts[0]), ts[1], Lit(ts[2]))), 3);
    LiteralTernary(ts, 2);
    WholeInputFrom(ts, 2, Lit(ts[2]), 3);
    BranchesNoColon(ts, Lit(ts[0]), ts[1], 2, Lit(ts[2]), 3);
    LiteralCondition(ts, 0);
    ExpressionFails(ts, 0, err);
  }

  /** "43 < 52" is one comparison node. */
  lemma LessThan(ts: seq<Token>)
    requires ts == [Num("43"), Sym(Less), Num("52")]
    ensures Expression(ts, 0) == Parse(Parsed(Bin(Lit(ts[0]), ts[1], Lit(ts[2]))), 3)
  {
    var e := Bin(Lit(ts[0]), ts[1], Lit(ts[2]));
    LiteralComparison(ts, 0);
    ComparisonIsTernary(ts, 0, e, 3);
    WholeInputFrom(ts, 0, e, 3);
  }

  /** `a < b` over literals, followed by something that is not an operator of comparison level or tighter. */
  lemma LiteralComparison(ts: seq<Token>, p: nat)
    requires LitAt(ts, p) && At(ts, p + 1, Terminals.Comparison) && LitAt(ts, p + 2)
    requires !At(ts, p + 3, Terminals.Factor) && !At(ts, p + 3, Terminals.Term) && !At(ts, p + 3, Terminals.Comparison)
    ensures Comparison(ts, p) == Parse(Parsed(Bin(Lit(ts[p]), ts[p + 1], Lit(ts[p + 2]))), p + 3)
  {
    var e := Bin(Lit(ts[p]), ts[p + 1], Lit(ts[p + 2]));
    Terminals.OperatorCategoriesDisjoint(ts[p + 1]);
    LiteralTerm(ts, p);
    LiteralTerm(ts, p + 2);
    ComparisonEnds(ts, p + 3, e);
    ComparisonFolds(ts, p + 1, Lit(ts[p]), Lit(ts[p + 2]), p + 3, Parse(Parsed(e), p + 3));
    ComparisonFrom(ts, p, Lit(ts[p]), p + 1, Parse(Parsed(e), p + 3));
  }

  /** "1 > 2 ? 2 > 3 : 5 < 6": comparisons bind tighter than `?` and `:`. */
  lemma ComparisonsInTernary(ts: seq<Token>)
    requires ts == [Num("1"), Sym(Greater), Num("2"), Sym(Question), Num("2"), Sym(Greater), Num("3"),
                    Sym(Colon), Num("5"), Sym(Less), Num("6")]
    ensures Expression(ts, 0) == Parse(Parsed(Ast.Ternary(
      Bin(Lit(Num("1")), Sym(Greater), Lit(Num("2"))),
      Bin(Lit(Num("2")), Sym(Greater), Lit(Num("3"))),
      Bin(Lit(Num("5")), Sym(Less), Lit(Num("6"))))), 11)
  {
    ComparisonTernary(ts);
  }

  /** Any `a < b ? c < d : e < f` over literals and comparison operators. */
  lemma ComparisonTernary(ts: seq<Token>)
    requires |ts| == 11 && LitAt(ts, 0) && LitAt(ts, 2) && LitAt(ts, 4) && LitAt(ts, 6) && LitAt(ts, 8) && LitAt(ts, 10)
    requires At(ts, 1, Terminals.Comparison) && At(ts, 5, Terminals.Comparison) && At(ts, 9, Terminals.Comparison)
    requires ts[3].kind == Question && ts[7].kind == Colon
    ensures Expression(ts, 0) == Parse(Parsed(Ast.Ternary(
      Bin(Lit(ts[0]), ts[1], Lit(ts[2])), Bin(Lit(ts[4]), ts[5], Lit(ts[6])), Bin(Lit(ts[8]), ts[9], Lit(ts[10])))), 11)
  {
    var c := Bin(Lit(ts[0]), ts[1], Lit(ts[2]));
    var t := Bin(Lit(ts[4]), ts[5], Lit(ts[6]));
    var f := Bin(Lit(ts[8]), ts[9], Lit(ts[10]));
    ComparisonBranches(ts);
    LiteralComparison(ts, 0);
    TernaryFromParts(ts, 0, c, 3, t, 7, f, 11);
    WholeInputFrom(ts, 0, Ast.Ternary(c, t, f), 11);
  }

  /** The two branches of `a < b ? c < d : e < f`, each parsed on its own. */
  lemma ComparisonBranches(ts: seq<Token>)
    requires |ts| == 11 && LitAt(ts, 4) && LitAt(ts, 6) && LitAt(ts, 8) && LitAt(ts, 10)
    requires At(ts, 5, Terminals.Comparison) && At(ts, 9, Terminals.Comparison) && ts[7].kind == Colon
    ensures Expression(ts, 4) == Parse(Parsed(Bin(Lit(ts[4]), ts[5], Lit(ts[6]))), 7)
    ensures Ternary(ts, 8) == Parse(Parsed(Bin(Lit(ts[8]), ts[9], Lit(ts[10]))), 11)
  {
    var t := Bin(Lit(ts[4]), ts[5], Lit(ts[6]));
    LiteralComparison(ts, 8);
    ComparisonIsTernary(ts, 8, Bin(Lit(ts[8]), ts[9], Lit(ts[10])), 11);
    LiteralComparison(ts, 4);
    ComparisonIsTernary(ts, 4, t, 7);
    WholeInputFrom(ts, 4, t, 7);
  }

  /** "(1 + 2)" is a grouping around the sum. */
  lemma ClosedGrouping(ts: seq<Token>)
    requires ts == [Sym(LeftParen), Num("1"), Sym(Plus), Num("2"), Sym(RightParen)]
    ensures Expression(ts, 0) == Parse(Parsed(Ast.Grouping(Bin(Lit(ts[1]), ts[2], Lit(ts[3])))), 5)
  {
    var sum := Bin(Lit(ts[1]), ts[2], Lit(ts[3]));
    LiteralSum(ts, 1);
    TermIsWhole(ts, 1, sum, 4);
    GroupingParsed(ts, 0, sum, 4);
    PrimaryIsWhole(ts, 0, Ast.Grouping(sum), 5);
  }

  // ---------------------------------------------------------------------
  // The mixed-precedence test of the parser module:
  //   ( 4 + 5 * 3 / 7 <= - 2 + (-1) + "anass" ? 1, 2, 5 + 5 ? 7 : 8 : 9 )
  // Positions 0 to 32; lines play no part in parsing, so every token is on line 1.
  // Each part of the proof asks only for the tokens it reads.

  /** Positions 1 to 8: `4 + 5 * 3 / 7 <=`. */
  predicate LeftShape(ts: seq<Token>) {
    |ts| == 33 && LitAt(ts, 1) && ts[2].kind == Plus && LitAt(ts, 3) && ts[4].kind == Star
    && LitAt(ts, 5) && ts[6].kind == Slash && LitAt(ts, 7) && ts[8].kind == LessEqual
  }

  /** Positions 12 to 16: `(-1) +`. */
  predicate GroupShape(ts: seq<Token>) {
    |ts| == 33 && ts[12].kind == LeftParen && ts[13].kind == Minus && LitAt(ts, 14) && ts[15].kind == RightParen
    && ts[16].kind == Plus
  }

  /** Positions 9 to 18: `- 2 + (-1) + "anass" ?`. */
  predicate RightShape(ts: seq<Token>) {
    GroupShape(ts) && ts[9].kind == Minus && LitAt(ts, 10) && ts[11].kind == Plus && LitAt(ts, 17)
    && ts[18].kind == Question
  }

  /** Positions 23 to 30: `5 + 5 ? 7 : 8 :`. */
  predicate InnerShape(ts: seq<Token>) {
    |ts| == 33 && LitAt(ts, 23) && ts[24].kind == Plus && LitAt(ts, 25) && ts[26].kind == Question
    && LitAt(ts, 27) && ts[28].kind == Colon && LitAt(ts, 29) && ts[30].kind == Colon
  }

  /** Positions 19 to 30: `1, 2, 5 + 5 ? 7 : 8 :`. */
  predicate ThenShape(ts: seq<Token>) {
    InnerShape(ts) && LitAt(ts, 19) && ts[20].kind == TokenKind.Comma && LitAt(ts, 21) && ts[22].kind == TokenKind.Comma
  }

  /** Positions 31 and 32: `9 )`. */
  predicate ElseShape(ts: seq<Token>) {
    |ts| == 33 && LitAt(ts, 31) && ts[32].kind == RightParen
  }

  /** The tokens of the test, kinds only: all that the proofs below rely on. */
  predicate MixedShape(ts: seq<Token>) {
    LeftShape(ts) && RightShape(ts) && ThenShape(ts) && ElseShape(ts) && ts[0].kind == LeftParen
  }

  /** The tokens of the test, in three runs of eleven. */
  function MixedTest(): seq<Token> {
    [Sym(LeftParen), Num("4"), Sym(Plus), Num("5"), Sym(Star), Num("3"), Sym(Slash), Num("7"),
     Sym(LessEqual), Sym(Minus), Num("2")] +
    [Sym(Plus), Sym(LeftParen), Sym(Minus), Num("1"), Sym(RightParen), Sym(Plus),
     Token(String("anass"), Some("\"anass\""), 1), Sym(Question), Num("1"), Sym(TokenKind.Comma), Num("2")] +
    [Sym(TokenKind.Comma), Num("5"), Sym(Plus), Num("5"), Sym(Question), Num("7"), Sym(Colon), Num("8"),
     Sym(Colon), Num("9"), Sym(RightParen)]
  }

  /** `4 + 5 * 3 / 7`, positions 1 to 7. */
  function LeftOperand(ts: seq<Token>): Ast.Expr
    requires LeftShape(ts)
  {
    Bin(Lit(ts[1]), ts[2], Bin(Bin(Lit(ts[3]), ts[4], Lit(ts[5])), ts[6], Lit(ts[7])))
  }

  /** `(-1)`, positions 12 to 15. */
  function InnerGroup(ts: seq<Token>): Ast.Expr
    requires GroupShape(ts)
  {
    Ast.Grouping(Neg(ts[13], Lit(ts[14])))
  }

  /** `- 2 + (-1) + "anass"`, positions 9 to 17. */
  function RightOperand(ts: seq<Token>): Ast.Expr
    requires RightShape(ts)
  {
    Bin(Bin(Neg(ts[9], Lit(ts[10])), ts[11], InnerGroup(ts)), ts[16], Lit(ts[17]))
  }

  /** `4 + 5 * 3 / 7 <= - 2 + (-1) + "anass"`, positions 1 to 17. */
  function Condition(ts: seq<Token>): Ast.Expr
    requires LeftShape(ts) && RightShape(ts)
  {
    Bin(LeftOperand(ts), ts[8], RightOperand(ts))
  }

  /** `5 + 5 ? 7 : 8`, positions 23 to 29. */
  function InnerTernary(ts: seq<Token>): Ast.Expr
    requires InnerShape(ts)
  {
    Ast.Ternary(Bin(Lit(ts[23]), ts[24], Lit(ts[25])), Lit(ts[27]), Lit(ts[29]))
  }

  /** `1, 2, 5 + 5 ? 7 : 8`, positions 19 to 29. */
  function ThenList(ts: seq<Token>): Ast.Expr
    requires ThenShape(ts)
  {
    Bin(Bin(Lit(ts[19]), ts[20], Lit(ts[21])), ts[22], InnerTernary(ts))
  }

  /** `condition ? comma list : 9`, positions 1 to 31. */
  function OuterTernary(ts: seq<Token>): Ast.Expr
    requires LeftShape(ts) && RightShape(ts) && ThenShape(ts) && ElseShape(ts)
  {
    Ast.Ternary(Condition(ts), ThenList(ts), Lit(ts[31]))
  }

  /** `a * b / c` over literals, followed by no `*` or `/`: folded to the left. */
  lemma FactorChain(ts: seq<Token>, p: nat)
    requires LitAt(ts, p) && At(ts, p + 1, Terminals.Factor) && LitAt(ts, p + 2)
    requires At(ts, p + 3, Terminals.Factor) && LitAt(ts, p + 4) && !At(ts, p + 5, Terminals.Factor)
    ensures Factor(ts, p) ==
      Parse(Parsed(Bin(Bin(Lit(ts[p]), ts[p + 1], Lit(ts[p + 2])), ts[p + 3], Lit(ts[p + 4]))), p + 5)
  {
    var l0, l2, l4 := Lit(ts[p]), Lit(ts[p + 2]), Lit(ts[p + 4]);
    var b := Bin(l0, ts[p + 1], l2);
    var r := Parse(Parsed(Bin(b, ts[p + 3], l4)), p + 5);
    PrimaryLiteral(ts, p);
    UnaryIsPrimary(ts, p, Parse(Parsed(l0), p + 1));
    PrimaryLiteral(ts, p + 2);
    UnaryIsPrimary(ts, p + 2, Parse(Parsed(l2), p + 3));
    PrimaryLiteral(ts, p + 4);
    UnaryIsPrimary(ts, p + 4, Parse(Parsed(l4), p + 5));
    FactorEnds(ts, p + 5, Bin(b, ts[p + 3], l4));
    FactorFolds(ts, p + 3, b, l4, p + 5, r);
    FactorFolds(ts, p + 1, l0, l2, p + 3, r);
    FactorFrom(ts, p, l0, p + 1, r);
  }

  lemma MixedLeftOperand(ts: seq<Token>)
    requires LeftShape(ts)
    ensures Term(ts, 1) == Parse(Parsed(LeftOperand(ts)), 8)
  {
    var chain := Bin(Bin(Lit(ts[3]), ts[4], Lit(ts[5])), ts[6], Lit(ts[7]));
    var r := Parse(Parsed(LeftOperand(ts)), 8);
    FactorChain(ts, 3);
    LiteralFactor(ts, 1);
    TermEnds(ts, 8, LeftOperand(ts));
    TermFolds(ts, 2, Lit(ts[1]), chain, 8, r);
    TermFrom(ts, 1, Lit(ts[1]), 2, r);
  }

  /** `-1` inside the parentheses, positions 13 and 14. */
  lemma MixedNegatedOne(ts: seq<Token>)
    requires GroupShape(ts)
    ensures Expression(ts, 13) == Parse(Parsed(Neg(ts[13], Lit(ts[14]))), 15)
  {
    var u := Neg(ts[13], Lit(ts[14]));
    PrimaryLiteral(ts, 14);
    UnaryApplied(ts, 13, Lit(ts[14]), 15);
    FactorOfUnary(ts, 13, u, 15);
    TermOfFactor(ts, 13, u, 15);
    TermIsWhole(ts, 13, u, 15);
  }

  lemma MixedInnerGroup(ts: seq<Token>)
    requires GroupShape(ts)
    ensures Factor(ts, 12) == Parse(Parsed(InnerGroup(ts)), 16)
  {
    var g := InnerGroup(ts);
    MixedNegatedOne(ts);
    GroupingParsed(ts, 12, Neg(ts[13], Lit(ts[14])), 15);
    UnaryIsPrimary(ts, 12, Parse(Parsed(g), 16));
    FactorOfUnary(ts, 12, g, 16);
  }

  /** `- 2`, positions 9 and 10. */
  lemma MixedNegatedTwo(ts: seq<Token>)
    requires RightShape(ts)
    ensures Factor(ts, 9) == Parse(Parsed(Neg(ts[9], Lit(ts[10]))), 11)
  {
    PrimaryLiteral(ts, 10);
    UnaryApplied(ts, 9, Lit(ts[10]), 11);
    FactorOfUnary(ts, 9, Neg(ts[9], Lit(ts[10])), 11);
  }

  /** `+ (-1) + "anass"`, positions 11 to 17, after any left operand `u`. */
  lemma MixedRightTail(ts: seq<Token>, u: Ast.Expr)
    requires GroupShape(ts) && ts[11].kind == Plus && LitAt(ts, 17) && ts[18].kind == Question
    ensures TermLoop(ts, 11, u) == Parse(Parsed(Bin(Bin(u, ts[11], InnerGroup(ts)), ts[16], Lit(ts[17]))), 18)
  {
    var b := Bin(u, ts[11], InnerGroup(ts));
    MixedInnerGroup(ts);
    MixedRightLast(ts, b);
    TermFolds(ts, 11, u, InnerGroup(ts), 16, Parse(Parsed(Bin(b, ts[16], Lit(ts[17]))), 18));
  }

  /** `+ "anass"`, positions 16 and 17, after any left operand `acc`. */
  lemma MixedRightLast(ts: seq<Token>, acc: Ast.Expr)
    requires |ts| == 33 && ts[16].kind == Plus && LitAt(ts, 17) && ts[18].kind == Question
    ensures TermLoop(ts, 16, acc) == Parse(Parsed(Bin(acc, ts[16], Lit(ts[17]))), 18)
  {
    var e := Bin(acc, ts[16], Lit(ts[17]));
    LiteralFactor(ts, 17);
    TermEnds(ts, 18, e);
    TermFolds(ts, 16, acc, Lit(ts[17]), 18, Parse(Parsed(e), 18));
  }

  lemma MixedRightOperand(ts: seq<Token>)
    requires RightShape(ts)
    ensures Term(ts, 9) == Parse(Parsed(RightOperand(ts)), 18)
  {
    MixedNegatedTwo(ts);
    MixedRightTail(ts, Neg(ts[9], Lit(ts[10])));
    TermFrom(ts, 9, Neg(ts[9], Lit(ts[10])), 11, Parse(Parsed(RightOperand(ts)), 18));
  }

  lemma MixedCondition(ts: seq<Token>)
    requires LeftShape(ts) && RightShape(ts)
    ensures Comparison(ts, 1) == Parse(Parsed(Condition(ts)), 18)
  {
    var r := Parse(Parsed(Condition(ts)), 18);
    MixedLeftOperand(ts);
    MixedRightOperand(ts);
    ComparisonEnds(ts, 18, Condition(ts));
    ComparisonFolds(ts, 8, LeftOperand(ts), RightOperand(ts), 18, r);
    ComparisonFrom(ts, 1, LeftOperand(ts), 8, r);
  }

  lemma MixedInnerTernary(ts: seq<Token>)
    requires InnerShape(ts)
    ensures Ternary(ts, 23) == Parse(Parsed(InnerTernary(ts)), 30)
  {
    var b := Bin(Lit(ts[23]), ts[24], Lit(ts[25]));
    LiteralSum(ts, 23);
    TermIsComparison(ts, 23, b, 26);
    LiteralTernary(ts, 29);
    LiteralThenBranch(ts, b, ts[26], 27, Lit(ts[29]), 30);
    ConditionParsed(ts, 23, b, 26);
  }

  lemma MixedThenBranch(ts: seq<Token>)
    requires ThenShape(ts)
    ensures Expression(ts, 19) == Parse(Parsed(ThenList(ts)), 30)
  {
    var b := Bin(Lit(ts[19]), ts[20], Lit(ts[21]));
    var r := Parse(Parsed(ThenList(ts)), 30);
    LiteralTernary(ts, 19);
    LiteralTernary(ts, 21);
    MixedInnerTernary(ts);
    CommaEnds(ts, 30, ThenList(ts));
    CommaFolds(ts, 22, b, InnerTernary(ts), 30, r);
    CommaFolds(ts, 20, Lit(ts[19]), Lit(ts[21]), 22, r);
    ExpressionFrom(ts, 19, Lit(ts[19]), 20, r);
  }

  lemma MixedElseBranch(ts: seq<Token>)
    requires ElseShape(ts)
    ensures Ternary(ts, 31) == Parse(Parsed(Lit(ts[31])), 32)
  {
    LiteralTernary(ts, 31);
  }

  /** What follows the `?` at position 18, whatever the condition `c` before it. */
  lemma MixedBranches(ts: seq<Token>, c: Ast.Expr)
    requires ThenShape(ts) && ElseShape(ts)
    ensures TernaryBranches(ts, c, ts[18], 19) == Parse(Parsed(Ast.Ternary(c, ThenList(ts), Lit(ts[31]))), 32)
  {
    MixedThenBranch(ts);
    MixedElseBranch(ts);
    BranchesParsed(ts, c, ts[18], 19, ThenList(ts), 30, Lit(ts[31]), 32);
  }

  lemma MixedTernary(ts: seq<Token>)
    requires LeftShape(ts) && RightShape(ts) && ThenShape(ts) && ElseShape(ts)
    ensures Ternary(ts, 1) == Parse(Parsed(OuterTernary(ts)), 32)
  {
    MixedCondition(ts);
    ConditionParsed(ts, 1, Condition(ts), 18);
    MixedBranches(ts, Condition(ts));
  }

  /** Inside the parentheses, positions 1 to 31. */
  lemma MixedInside(ts: seq<Token>)
    requires LeftShape(ts) && RightShape(ts) && ThenShape(ts) && ElseShape(ts)
    ensures Expression(ts, 1) == Parse(Parsed(OuterTernary(ts)), 32)
  {
    MixedTernary(ts);
    WholeInputFrom(ts, 1, OuterTernary(ts), 32);
  }

  /** Input that is `(`, an expression `e` and `)` parses to a grouping around `e`. */
  lemma GroupedWhole(ts: seq<Token>, e: Ast.Expr, n: nat)
    requires 0 < n && n + 1 == |ts| && ts[0].kind == LeftParen && ts[n].kind == RightParen
    requires Expression(ts, 1) == Parse(Parsed(e), n)
    ensures Expression(ts, 0) == Parse(Parsed(Ast.Grouping(e)), n + 1)
  {
    GroupingParsed(ts, 0, e, n);
    PrimaryIsWhole(ts, 0, Ast.Grouping(e), n + 1);
  }

  /** The whole test, for any tokens of its shape. */
  lemma MixedWhole(ts: seq<Token>)
    requires MixedShape(ts)
    ensures Expression(ts, 0) == Parse(Parsed(Ast.Grouping(OuterTernary(ts))), 33)
  {
    MixedInside(ts);
    GroupedWhole(ts, OuterTernary(ts), 32);
  }

  lemma MixedTestLeft()
    ensures LeftShape(MixedTest())
  {
  }

  lemma MixedTestRight()
    ensures RightShape(MixedTest())
  {
  }

  lemma MixedTestInner()
    ensures InnerShape(MixedTest())
  {
  }

  lemma MixedTestThen()
    ensures ThenShape(MixedTest())
  {
    MixedTestInner();
  }

  /** The test's tokens have the shape the proofs above ask for. */
  lemma MixedTestShape()
    ensures MixedShape(MixedTest())
  {
    MixedTestLeft();
    MixedTestRight();
    MixedTestThen();
    assert ElseShape(MixedTest());
  }

  /**
   * The test itself: the parenthesised source parses, as a whole, to a
   * grouping around `condition ? comma list : 9`, the comma list holding the
   * nested `5 + 5 ? 7 : 8`.
   */
  lemma MixedPrecedence()
    ensures MixedShape(MixedTest())
    ensures Expression(MixedTest(), 0) == Parse(Parsed(Ast.Grouping(OuterTernary(MixedTest()))), 33)
  {
    MixedTestShape();
    MixedWhole(MixedTest());
  }
}
