/**
 * What every rule of the parser guarantees about a successful parse: the
 * tree spells exactly the tokens consumed (with parentheses, `?` and `:`
 * restored), and it respects precedence and associativity (`WellNested`).
 * The proofs follow the rules' own mutual recursion.
 */
module ParserProperties {
  import opened Tokens
  import Ast
  import opened ParserSpec
  import Terminals

  /** A rule's result at `pos`: on success, the tree spells the consumed tokens and sits at most at `level`. */
  predicate Sound(ts: seq<Token>, pos: nat, r: Parse, level: nat) {
    r.result.Parsed? ==>
      pos <= r.next <= |ts| &&
      Ast.Spelled(r.result.expr) == KindsBetween(ts, pos, r.next) &&
      WellNested(r.result.expr) && Level(r.result.expr) <= level
  }

  /** A fold loop's result at `pos` from `acc`: a left fold of category `c` over `acc`, spelling `acc` and the consumed tokens. */
  predicate LoopSound(ts: seq<Token>, pos: nat, acc: Ast.Expr, r: Parse, c: Terminals.Category, level: nat) {
    r.result.Parsed? ==>
      pos <= r.next <= |ts| &&
      LeftFold(r.result.expr, acc, c) &&
      Ast.Spelled(r.result.expr) == Ast.Spelled(acc) + KindsBetween(ts, pos, r.next) &&
      (WellNested(acc) && Level(acc) <= level ==> WellNested(r.result.expr) && Level(r.result.expr) <= level)
  }

  lemma {:induction false} LeftFoldStep(e: Ast.Expr, folded: Ast.Expr, acc: Ast.Expr, c: Terminals.Category)
    requires LeftFold(e, folded, c)
    requires folded.Binary? && folded.left == acc && Terminals.Matches(c, folded.operator.token)
    ensures LeftFold(e, acc, c)
  {
    if e != folded {
      LeftFoldStep(e.left, folded, acc, c);
    }
  }

  /** One turn of a fold loop, on values: the operator at `pos`, a sound operand, then a sound rest of the loop. */
  lemma FoldTurnSound(ts: seq<Token>, pos: nat, acc: Ast.Expr, c: Terminals.Category, right: Parse, r: Parse, operand: nat, level: nat)
    requires pos < |ts| && c in {Terminals.Comparison, Terminals.Term, Terminals.Factor, Terminals.Comma}
    requires Terminals.Matches(c, ts[pos])
    requires OperatorLevel(Terminals.IntoBinary(Terminals.Terminal(c, ts[pos]))) == level && operand < level
    requires right.result.Parsed? && Sound(ts, pos + 1, right, operand)
    requires LoopSound(ts, right.next, Fold(acc, c, ts[pos], right.result.expr), r, c, level)
    ensures LoopSound(ts, pos, acc, r, c, level)
  {
    var folded := Fold(acc, c, ts[pos], right.result.expr);
    if r.result.Parsed? {
      LeftFoldStep(r.result.expr, folded, acc, c);
      FoldSpelled(ts, pos, right.next, r.next, acc, folded, right.result.expr, Ast.Spelled(r.result.expr));
    }
  }

  /** Proof hint, not a property of the parser: the one regrouping of a spelling that FoldSpelled needs. */
  lemma Assoc(a: seq<TokenKind>, b: seq<TokenKind>, c: seq<TokenKind>)
    ensures (a + b) + c == a + (b + c)
  {
  }

  /** One turn of a fold loop: the operator at `pos`, then the operand from `pos + 1` to `m`. */
  lemma FoldSpelled(ts: seq<Token>, pos: nat, m: nat, n: nat, acc: Ast.Expr, folded: Ast.Expr, right: Ast.Expr, rest: seq<TokenKind>)
    requires pos < m <= n <= |ts|
    requires folded.Binary? && folded.left == acc && folded.operator.token == ts[pos] && folded.right == right
    requires Ast.Spelled(right) == KindsBetween(ts, pos + 1, m)
    requires rest == Ast.Spelled(folded) + KindsBetween(ts, m, n)
    ensures rest == Ast.Spelled(acc) + KindsBetween(ts, pos, n)
  {
    var a, k, b, c := Ast.Spelled(acc), [ts[pos].kind], KindsBetween(ts, pos + 1, m), KindsBetween(ts, m, n);
    assert Ast.Spelled(folded) == a + k + b;
    Assoc(a + k, b, c);
    Assoc(a, k, b + c);
    KindsSplit(ts, pos + 1, m, n);
    assert KindsBetween(ts, pos, n) == k + (b + c);
  }

  lemma {:induction false} ExpressionSound(ts: seq<Token>, pos: nat)
    requires pos <= |ts|
    ensures Sound(ts, pos, Expression(ts, pos), 6)
    decreases |ts| - pos, 7
  {
    CommaSound(ts, pos);
  }

  lemma {:induction false} CommaSound(ts: seq<Token>, pos: nat)
    requires pos <= |ts|
    ensures Sound(ts, pos, ParserSpec.Comma(ts, pos), 6)
    decreases |ts| - pos, 6
  {
    TernarySound(ts, pos);
    var first := Ternary(ts, pos);
    if first.result.Parsed? {
      CommaLoopSound(ts, first.next, first.result.expr);
      var r := CommaLoop(ts, first.next, first.result.expr);
      if r.result.Parsed? {
        KindsSplit(ts, pos, first.next, r.next);
      }
    }
  }

  lemma {:induction false} CommaLoopSound(ts: seq<Token>, pos: nat, acc: Ast.Expr)
    requires pos <= |ts|
    ensures LoopSound(ts, pos, acc, CommaLoop(ts, pos, acc), Terminals.Comma, 6)
    decreases |ts| - pos, 0
  {
    if At(ts, pos, Terminals.Comma) {
      TernarySound(ts, pos + 1);
      var right := Ternary(ts, pos + 1);
      if right.result.Parsed? {
        var folded := Fold(acc, Terminals.Comma, ts[pos], right.result.expr);
        CommaLoopSound(ts, right.next, folded);
        assert CommaLoop(ts, pos, acc) == CommaLoop(ts, right.next, folded);
        FoldTurnSound(ts, pos, acc, Terminals.Comma, right, CommaLoop(ts, right.next, folded), 5, 6);
      }
    }
  }

  lemma {:induction false} TernarySound(ts: seq<Token>, pos: nat)
    requires pos <= |ts|
    ensures Sound(ts, pos, Ternary(ts, pos), 5)
    decreases |ts| - pos, 5
  {
    ComparisonSound(ts, pos);
    var cond := Comparison(ts, pos);
    if cond.result.Parsed? && At(ts, cond.next, Terminals.TernaryThen) {
      TernaryBranchesSound(ts, pos, cond.result.expr, cond.next, cond.next + 1);
      assert Ternary(ts, pos) == TernaryBranches(ts, cond.result.expr, ts[cond.next], cond.next + 1);
    } else {
      assert Ternary(ts, pos) == cond;
    }
  }

  lemma {:induction false} TernaryBranchesSound(ts: seq<Token>, pos: nat, c: Ast.Expr, q: nat, q1: nat)
    requires pos <= q < |ts| && ts[q].kind == Question && q1 == q + 1
    requires Ast.Spelled(c) == KindsBetween(ts, pos, q) && WellNested(c) && Level(c) <= 4
    ensures Sound(ts, pos, TernaryBranches(ts, c, ts[q], q1), 5)
    decreases |ts| - q, 2
  {
    ExpressionSound(ts, q1);
    var t := Expression(ts, q1);
    if t.result.Parsed? && At(ts, t.next, Terminals.TernaryElse) {
      BothBranchesSound(ts, pos, c, q, q1, t, t.next + 1);
    } else {
      NoElse(ts, c, ts[q], q1);
    }
  }

  lemma NoElse(ts: seq<Token>, c: Ast.Expr, question: Token, q1: nat)
    requires 0 < q1 <= |ts|
    requires !Expression(ts, q1).result.Parsed? || !At(ts, Expression(ts, q1).next, Terminals.TernaryElse)
    ensures !TernaryBranches(ts, c, question, q1).result.Parsed?
  {
  }

  /**
   * The case of `ternary` where `?` (at `q`), a then branch `t` and `:` have
   * all been read, and the else branch is the ternary after the `:`.
   */
  lemma {:induction false} BothBranchesSound(ts: seq<Token>, pos: nat, c: Ast.Expr, q: nat, q1: nat, t: Parse, k1: nat)
    requires pos <= q < |ts| && ts[q].kind == Question && q1 == q + 1
    requires Ast.Spelled(c) == KindsBetween(ts, pos, q) && WellNested(c) && Level(c) <= 4
    requires t == Expression(ts, q1) && t.result.Parsed? && At(ts, t.next, Terminals.TernaryElse) && k1 == t.next + 1
    requires Sound(ts, q1, t, 6)
    ensures Sound(ts, pos, TernaryBranches(ts, c, ts[q], q1), 5)
    decreases |ts| - q, 1
  {
    TernarySound(ts, k1);
    BranchesOutcome(ts, c, ts[q], q1, t, k1, Ternary(ts, k1), TernaryBranches(ts, c, ts[q], q1));
    BranchesSoundFrom(ts, pos, c, q, q1, t, k1, Ternary(ts, k1), TernaryBranches(ts, c, ts[q], q1));
  }

  /** The ternary step on values: a sound condition, then branch and else branch make a sound ternary. */
  lemma BranchesSoundFrom(ts: seq<Token>, pos: nat, c: Ast.Expr, q: nat, q1: nat, t: Parse, k1: nat, f: Parse, r: Parse)
    requires pos <= q < |ts| && ts[q].kind == Question && q1 == q + 1
    requires Ast.Spelled(c) == KindsBetween(ts, pos, q) && WellNested(c) && Level(c) <= 4
    requires t.result.Parsed? && At(ts, t.next, Terminals.TernaryElse) && k1 == t.next + 1
    requires Sound(ts, q1, t, 6) && Sound(ts, k1, f, 5)
    requires r.result.Parsed? <==> f.result.Parsed?
    requires f.result.Parsed? ==> r == Parse(Parsed(Ast.Ternary(c, t.result.expr, f.result.expr)), f.next)
    ensures Sound(ts, pos, r, 5)
  {
    if f.result.Parsed? {
      TernarySpelled(ts, pos, q, q1, t.next, k1, f.next, c, t.result.expr, f.result.expr);
      TernaryNested(c, t.result.expr, f.result.expr);
    }
  }

  /** A ternary sits at level 5, and is well nested when its condition sits below it and its else branch at most at it. */
  lemma TernaryNested(c: Ast.Expr, t: Ast.Expr, f: Ast.Expr)
    requires WellNested(c) && Level(c) <= 4 && WellNested(t) && WellNested(f) && Level(f) <= 5
    ensures WellNested(Ast.Ternary(c, t, f)) && Level(Ast.Ternary(c, t, f)) == 5
  {
  }

  /** What `ternary` returns once the then branch `t` and the `:` have been read and the else branch is `f`. */
  lemma BranchesOutcome(ts: seq<Token>, c: Ast.Expr, question: Token, q1: nat, t: Parse, k1: nat, f: Parse, r: Parse)
    requires 0 < q1 <= |ts|
    requires t == Expression(ts, q1) && t.result.Parsed? && At(ts, t.next, Terminals.TernaryElse) && k1 == t.next + 1
    requires f == Ternary(ts, k1) && r == TernaryBranches(ts, c, question, q1)
    ensures r.result.Parsed? <==> f.result.Parsed?
    ensures f.result.Parsed? ==> r == Parse(Parsed(Ast.Ternary(c, t.result.expr, f.result.expr)), f.next)
  {
  }

  lemma TernarySpelled(ts: seq<Token>, pos: nat, q: nat, q1: nat, k: nat, k1: nat, n: nat, c: Ast.Expr, t: Ast.Expr, f: Ast.Expr)
    requires pos <= q < k < n <= |ts| && q1 == q + 1 && k1 == k + 1
    requires ts[q].kind == Question && ts[k].kind == Colon
    requires Ast.Spelled(c) == KindsBetween(ts, pos, q)
    requires Ast.Spelled(t) == KindsBetween(ts, q1, k)
    requires Ast.Spelled(f) == KindsBetween(ts, k1, n)
    ensures Ast.Spelled(Ast.Ternary(c, t, f)) == KindsBetween(ts, pos, n)
  {
    TernaryKinds(ts, pos, q, q1, k, k1, n, Ast.Spelled(c), Ast.Spelled(t), Ast.Spelled(f));
    SpelledTernary(c, t, f);
  }

  lemma SpelledTernary(c: Ast.Expr, t: Ast.Expr, f: Ast.Expr)
    ensures Ast.Spelled(Ast.Ternary(c, t, f)) == Ast.Spelled(c) + [Question] + Ast.Spelled(t) + [Colon] + Ast.Spelled(f)
  {
  }

  lemma TernaryKinds(ts: seq<Token>, pos: nat, q: nat, q1: nat, k: nat, k1: nat, n: nat, a: seq<TokenKind>, b: seq<TokenKind>, d: seq<TokenKind>)
    requires pos <= q < k < n <= |ts| && q1 == q + 1 && k1 == k + 1
    requires ts[q].kind == Question && ts[k].kind == Colon
    requires a == KindsBetween(ts, pos, q) && b == KindsBetween(ts, q1, k) && d == KindsBetween(ts, k1, n)
    ensures a + [Question] + b + [Colon] + d == KindsBetween(ts, pos, n)
  {
    KindsAround(ts, pos, k, k1, n);
    KindsAround(ts, pos, q, q1, k);
  }

  lemma {:induction false} ComparisonSound(ts: seq<Token>, pos: nat)
    requires pos <= |ts|
    ensures Sound(ts, pos, Comparison(ts, pos), 4)
    decreases |ts| - pos, 4
  {
    TermSound(ts, pos);
    var first := Term(ts, pos);
    if first.result.Parsed? {
      ComparisonLoopSound(ts, first.next, first.result.expr);
      var r := ComparisonLoop(ts, first.next, first.result.expr);
      if r.result.Parsed? {
        KindsSplit(ts, pos, first.next, r.next);
      }
    }
  }

  lemma {:induction false} ComparisonLoopSound(ts: seq<Token>, pos: nat, acc: Ast.Expr)
    requires pos <= |ts|
    ensures LoopSound(ts, pos, acc, ComparisonLoop(ts, pos, acc), Terminals.Comparison, 4)
    decreases |ts| - pos, 0
  {
    if At(ts, pos, Terminals.Comparison) {
      TermSound(ts, pos + 1);
      var right := Term(ts, pos + 1);
      if right.result.Parsed? {
        var folded := Fold(acc, Terminals.Comparison, ts[pos], right.result.expr);
        ComparisonLoopSound(ts, right.next, folded);
        assert ComparisonLoop(ts, pos, acc) == ComparisonLoop(ts, right.next, folded);
        FoldTurnSound(ts, pos, acc, Terminals.Comparison, right, ComparisonLoop(ts, right.next, folded), 3, 4);
      }
    }
  }

  lemma {:induction false} TermSound(ts: seq<Token>, pos: nat)
    requires pos <= |ts|
    ensures Sound(ts, pos, Term(ts, pos), 3)
    decreases |ts| - pos, 3
  {
    FactorSound(ts, pos);
    var first := Factor(ts, pos);
    if first.result.Parsed? {
      TermLoopSound(ts, first.next, first.result.expr);
      var r := TermLoop(ts, first.next, first.result.expr);
      if r.result.Parsed? {
        KindsSplit(ts, pos, first.next, r.next);
      }
    }
  }

  lemma {:induction false} TermLoopSound(ts: seq<Token>, pos: nat, acc: Ast.Expr)
    requires pos <= |ts|
    ensures LoopSound(ts, pos, acc, TermLoop(ts, pos, acc), Terminals.Term, 3)
    decreases |ts| - pos, 0
  {
    if At(ts, pos, Terminals.Term) {
      FactorSound(ts, pos + 1);
      var right := Factor(ts, pos + 1);
      if right.result.Parsed? {
        var folded := Fold(acc, Terminals.Term, ts[pos], right.result.expr);
        TermLoopSound(ts, right.next, folded);
        assert TermLoop(ts, pos, acc) == TermLoop(ts, right.next, folded);
        FoldTurnSound(ts, pos, acc, Terminals.Term, right, TermLoop(ts, right.next, folded), 2, 3);
      }
    }
  }

  lemma {:induction false} FactorSound(ts: seq<Token>, pos: nat)
    requires pos <= |ts|
    ensures Sound(ts, pos, Factor(ts, pos), 2)
    decreases |ts| - pos, 2
  {
    UnarySound(ts, pos);
    var first := Unary(ts, pos);
    if first.result.Parsed? {
      FactorLoopSound(ts, first.next, first.result.expr);
      var r := FactorLoop(ts, first.next, first.result.expr);
      if r.result.Parsed? {
        KindsSplit(ts, pos, first.next, r.next);
      }
    }
  }

  lemma {:induction false} FactorLoopSound(ts: seq<Token>, pos: nat, acc: Ast.Expr)
    requires pos <= |ts|
    ensures LoopSound(ts, pos, acc, FactorLoop(ts, pos, acc), Terminals.Factor, 2)
    decreases |ts| - pos, 0
  {
    if At(ts, pos, Terminals.Factor) {
      UnarySound(ts, pos + 1);
      var right := Unary(ts, pos + 1);
      if right.result.Parsed? {
        var folded := Fold(acc, Terminals.Factor, ts[pos], right.result.expr);
        FactorLoopSound(ts, right.next, folded);
        assert FactorLoop(ts, pos, acc) == FactorLoop(ts, right.next, folded);
        FoldTurnSound(ts, pos, acc, Terminals.Factor, right, FactorLoop(ts, right.next, folded), 1, 2);
      }
    }
  }

  lemma {:induction false} UnarySound(ts: seq<Token>, pos: nat)
    requires pos <= |ts|
    ensures Sound(ts, pos, Unary(ts, pos), 1)
    decreases |ts| - pos, 1
  {
    if At(ts, pos, Terminals.Unary) {
      PrimarySound(ts, pos + 1);
      var right := Primary(ts, pos + 1);
      if right.result.Parsed? {
        var op: Terminals.UnaryOperator := Terminals.Terminal(Terminals.Unary, ts[pos]);
        assert Unary(ts, pos) == Parse(Parsed(Ast.Unary(op, right.result.expr)), right.next);
        assert KindsBetween(ts, pos, right.next) == [ts[pos].kind] + KindsBetween(ts, pos + 1, right.next);
      } else {
        assert Unary(ts, pos) == right;
      }
    } else {
      PrimarySound(ts, pos);
      assert Unary(ts, pos) == Primary(ts, pos);
    }
  }

  lemma {:induction false} PrimarySound(ts: seq<Token>, pos: nat)
    requires pos <= |ts|
    ensures Sound(ts, pos, Primary(ts, pos), 0)
    decreases |ts| - pos, 0
  {
    if At(ts, pos, Terminals.Literal) {
      var lit: Terminals.LiteralToken := Terminals.Terminal(Terminals.Literal, ts[pos]);
      assert Primary(ts, pos) == Parse(Parsed(Ast.Literal(lit)), pos + 1);
      assert KindsBetween(ts, pos, pos + 1) == [ts[pos].kind];
    } else if AtKind(ts, pos, LeftParen) {
      ExpressionSound(ts, pos + 1);
      GroupingSound(ts, pos);
    }
  }

  /** The parenthesised case of `primary`, given what the inner expression guarantees. */
  lemma GroupingSound(ts: seq<Token>, pos: nat)
    requires pos < |ts| && !At(ts, pos, Terminals.Literal) && ts[pos].kind == LeftParen
    requires Sound(ts, pos + 1, Expression(ts, pos + 1), 6)
    ensures Sound(ts, pos, Primary(ts, pos), 0)
  {
    GroupingOutcome(ts, pos, Expression(ts, pos + 1), Primary(ts, pos));
    GroupingSoundFrom(ts, pos, Expression(ts, pos + 1), Primary(ts, pos));
  }

  /** The grouping step on its own: from a sound inner expression to a sound grouping. */
  lemma GroupingSoundFrom(ts: seq<Token>, pos: nat, inner: Parse, r: Parse)
    requires pos < |ts| && ts[pos].kind == LeftParen && Sound(ts, pos + 1, inner, 6)
    requires r.result.Parsed? ==>
      inner.result.Parsed? && AtKind(ts, inner.next, RightParen) &&
      r == Parse(Parsed(Ast.Grouping(inner.result.expr)), inner.next + 1)
    ensures Sound(ts, pos, r, 0)
  {
    if r.result.Parsed? {
      var e := inner.result.expr;
      GroupingSpelled(ts, pos, pos + 1, inner.next, inner.next + 1, e);
      GroupedSound(ts, pos, r, e, inner.next);
    }
  }

  /** `primary` at `(` succeeds only when the inner expression is followed by `)`, and then returns the grouping. */
  lemma GroupingOutcome(ts: seq<Token>, pos: nat, inner: Parse, r: Parse)
    requires pos < |ts| && !At(ts, pos, Terminals.Literal) && ts[pos].kind == LeftParen
    requires inner == Expression(ts, pos + 1) && r == Primary(ts, pos)
    ensures r.result.Parsed? ==>
      inner.result.Parsed? && AtKind(ts, inner.next, RightParen) &&
      r == Parse(Parsed(Ast.Grouping(inner.result.expr)), inner.next + 1)
  {
  }

  /** A grouping that spells its tokens is sound at level 0 whenever its contents are well nested. */
  lemma GroupedSound(ts: seq<Token>, pos: nat, r: Parse, e: Ast.Expr, n: nat)
    requires pos < n < |ts| && r == Parse(Parsed(Ast.Grouping(e)), n + 1)
    requires Ast.Spelled(Ast.Grouping(e)) == KindsBetween(ts, pos, n + 1) && WellNested(e)
    ensures Sound(ts, pos, r, 0)
  {
  }

  lemma GroupingSpelled(ts: seq<Token>, pos: nat, p1: nat, n: nat, n1: nat, e: Ast.Expr)
    requires pos < n < |ts| && p1 == pos + 1 && n1 == n + 1
    requires ts[pos].kind == LeftParen && ts[n].kind == RightParen
    requires Ast.Spelled(e) == KindsBetween(ts, p1, n)
    ensures Ast.Spelled(Ast.Grouping(e)) == KindsBetween(ts, pos, n1)
  {
    KindsSplit(ts, pos, p1, n);
    KindsOne(ts, pos, p1);
    KindsSplit(ts, pos, n, n1);
    KindsOne(ts, n, n1);
  }

  // ---------------------------------------------------------------------
  // When there is nothing to parse

  /**
   * With neither a literal, `(`, `!` nor `-` at the cursor (an identifier,
   * say, or the end of input), every rule returns `None` and consumes nothing.
   */
  lemma NothingToParse(ts: seq<Token>, pos: nat)
    requires pos <= |ts|
    requires !At(ts, pos, Terminals.Literal) && !AtKind(ts, pos, LeftParen) && !At(ts, pos, Terminals.Unary)
    ensures Primary(ts, pos) == Parse(NoExpr, pos)
    ensures Expression(ts, pos) == Parse(NoExpr, pos)
  {
    assert Unary(ts, pos) == Parse(NoExpr, pos);
    assert Factor(ts, pos) == Parse(NoExpr, pos);
    assert Term(ts, pos) == Parse(NoExpr, pos);
    assert Comparison(ts, pos) == Parse(NoExpr, pos);
    assert Ternary(ts, pos) == Parse(NoExpr, pos);
    assert ParserSpec.Comma(ts, pos) == Parse(NoExpr, pos);
  }

  /**
   * The converse: a call leaves the cursor where it was exactly when there is
   * nothing to parse. Once a literal, `(`, `!` or `-` is at the cursor, every
   * outcome, `None` included, comes after consuming at least that token.
   */
  lemma {:induction false} ProgressOrNothing(ts: seq<Token>, pos: nat)
    requires pos <= |ts|
    ensures Expression(ts, pos).next == pos <==>
      !At(ts, pos, Terminals.Literal) && !AtKind(ts, pos, LeftParen) && !At(ts, pos, Terminals.Unary)
  {
    if At(ts, pos, Terminals.Literal) || AtKind(ts, pos, LeftParen) || At(ts, pos, Terminals.Unary) {
      assert Primary(ts, pos).next > pos || At(ts, pos, Terminals.Unary);
      assert Unary(ts, pos).next > pos;
      assert Factor(ts, pos).next > pos;
      assert Term(ts, pos).next > pos;
      assert Comparison(ts, pos).next > pos;
      assert Ternary(ts, pos).next > pos;
      assert ParserSpec.Comma(ts, pos).next > pos;
    } else {
      NothingToParse(ts, pos);
    }
  }

  /** An empty token sequence parses to `None`. */
  lemma EmptyInput()
    ensures Expression([], 0) == Parse(NoExpr, 0)
  {
    NothingToParse([], 0);
  }

  /**
   * The operand of a unary operator is a primary, not another unary: two
   * unary operators in a row make the whole expression `None`, with the
   * cursor left after the first one.
   */
  lemma DoubleUnary(ts: seq<Token>, pos: nat)
    requires pos + 1 < |ts| && At(ts, pos, Terminals.Unary) && At(ts, pos + 1, Terminals.Unary)
    ensures Expression(ts, pos) == Parse(NoExpr, pos + 1)
  {
    var k := ts[pos + 1].kind;
    assert k == Bang || k == Minus;
    assert Primary(ts, pos + 1) == Parse(NoExpr, pos + 1);
    assert Unary(ts, pos) == Parse(NoExpr, pos + 1);
    assert Factor(ts, pos) == Parse(NoExpr, pos + 1);
    assert Term(ts, pos) == Parse(NoExpr, pos + 1);
    assert Comparison(ts, pos) == Parse(NoExpr, pos + 1);
    assert Ternary(ts, pos) == Parse(NoExpr, pos + 1);
    assert ParserSpec.Comma(ts, pos) == Parse(NoExpr, pos + 1);
  }

  /** A ternary's condition is never itself a bare ternary: `?` groups to the right. */
  lemma TernaryGroupsRight(ts: seq<Token>, pos: nat)
    requires pos <= |ts|
    ensures var r := Expression(ts, pos);
      r.result.Parsed? && r.result.expr.Ternary? ==>
        !r.result.expr.condition.Ternary? && Level(r.result.expr.condition) <= 4
  {
    ExpressionSound(ts, pos);
  }
}
