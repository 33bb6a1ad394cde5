/**
 * The parser of src/parser as a cursor over a token sequence: the `Peekable`
 * iterator becomes the sequence `tokens` and the position `pos` of the next
 * token. Each method is one rule of the grammar, advances `pos` as the Rust
 * method advances the iterator, and is proved to return what the rule of
 * module ParserSpec computes from the position it started at.
 */
module Parser {
  import opened Tokens
  import Ast
  import Terminals
  import Spec = ParserSpec

  class Parser {
    const tokens: seq<Token>
    var pos: nat

    /** `Parser::new`: the cursor at the first token. */
    constructor(ts: seq<Token>)
      ensures tokens == ts && pos == 0
    {
      tokens := ts;
      pos := 0;
    }

    /** `Iterator::next`: one expression from where the previous call stopped. */
    method Next() returns (r: Spec.ParseResult)
      requires pos <= |tokens|
      modifies this
      ensures Spec.Parse(r, pos) == Spec.Expression(tokens, old(pos))
    {
      r := Expression();
    }

    /** `expression`. */
    method Expression() returns (r: Spec.ParseResult)
      requires pos <= |tokens|
      modifies this
      ensures Spec.Parse(r, pos) == Spec.Expression(tokens, old(pos))
      decreases |tokens| - pos, 7
    {
      r := Comma();
    }

    /** `comma`. */
    method Comma() returns (r: Spec.ParseResult)
      requires pos <= |tokens|
      modifies this
      ensures Spec.Parse(r, pos) == Spec.Comma(tokens, old(pos))
      decreases |tokens| - pos, 6
    {
      var expr :- Ternary();
      while Spec.At(tokens, pos, Terminals.Comma)
        invariant old(pos) < pos <= |tokens|
        invariant Spec.Comma(tokens, old(pos)) == Spec.CommaLoop(tokens, pos, expr)
        decreases |tokens| - pos
      {
        var operator := tokens[pos];
        pos := pos + 1;
        var right :- Ternary();
        expr := Spec.Fold(expr, Terminals.Comma, operator, right);
      }
      return Spec.Parsed(expr);
    }

    /** `ternary`. */
    method Ternary() returns (r: Spec.ParseResult)
      requires pos <= |tokens|
      modifies this
      ensures Spec.Parse(r, pos) == Spec.Ternary(tokens, old(pos))
      decreases |tokens| - pos, 5
    {
      ghost var start := pos;
      var expr :- Comparison();
      if Spec.At(tokens, pos, Terminals.TernaryThen) {
        var question := tokens[pos];
        pos := pos + 1;
        assert Spec.Ternary(tokens, start) == Spec.TernaryBranches(tokens, expr, question, pos);
        var thenResult := Expression();
        if thenResult.NoExpr? {
          return Spec.Failed(Spec.TernaryMissingThenBranch(expr, question));
        } else if thenResult.Failed? {
          return thenResult;
        }
        var thenBranch := thenResult.expr;
        if !Spec.At(tokens, pos, Terminals.TernaryElse) {
          return Spec.Failed(Spec.TernaryMissingElseOperator(expr, question, thenBranch));
        }
        var colon := tokens[pos];
        pos := pos + 1;
        var elseResult := Ternary();
        if elseResult.NoExpr? {
          return Spec.Failed(Spec.TernaryMissingElseBranch(expr, question, thenBranch, colon));
        } else if elseResult.Failed? {
          return elseResult;
        }
        expr := Ast.Ternary(expr, thenBranch, elseResult.expr);
      }
      return Spec.Parsed(expr);
    }

    /** `comparison`. */
    method Comparison() returns (r: Spec.ParseResult)
      requires pos <= |tokens|
      modifies this
      ensures Spec.Parse(r, pos) == Spec.Comparison(tokens, old(pos))
      decreases |tokens| - pos, 4
    {
      var expr :- Term();
      while Spec.At(tokens, pos, Terminals.Comparison)
        invariant old(pos) < pos <= |tokens|
        invariant Spec.Comparison(tokens, old(pos)) == Spec.ComparisonLoop(tokens, pos, expr)
        decreases |tokens| - pos
      {
        var operator := tokens[pos];
        pos := pos + 1;
        var right :- Term();
        expr := Spec.Fold(expr, Terminals.Comparison, operator, right);
      }
      return Spec.Parsed(expr);
    }

    /** `term`. */
    method Term() returns (r: Spec.ParseResult)
      requires pos <= |tokens|
      modifies this
      ensures Spec.Parse(r, pos) == Spec.Term(tokens, old(pos))
      decreases |tokens| - pos, 3
    {
      var expr :- Factor();
      while Spec.At(tokens, pos, Terminals.Term)
        invariant old(pos) < pos <= |tokens|
        invariant Spec.Term(tokens, old(pos)) == Spec.TermLoop(tokens, pos, expr)
        decreases |tokens| - pos
      {
        var operator := tokens[pos];
        pos := pos + 1;
        var right :- Factor();
        expr := Spec.Fold(expr, Terminals.Term, operator, right);
      }
      return Spec.Parsed(expr);
    }

    /** `factor`. */
    method Factor() returns (r: Spec.ParseResult)
      requires pos <= |tokens|
      modifies this
      ensures Spec.Parse(r, pos) == Spec.Factor(tokens, old(pos))
      decreases |tokens| - pos, 2
    {
      var expr :- Unary();
      while Spec.At(tokens, pos, Terminals.Factor)
        invariant old(pos) < pos <= |tokens|
        invariant Spec.Factor(tokens, old(pos)) == Spec.FactorLoop(tokens, pos, expr)
        decreases |tokens| - pos
      {
        var operator := tokens[pos];
        pos := pos + 1;
        var right :- Unary();
        expr := Spec.Fold(expr, Terminals.Factor, operator, right);
      }
      return Spec.Parsed(expr);
    }

    /** `unary`. */
    method Unary() returns (r: Spec.ParseResult)
      requires pos <= |tokens|
      modifies this
      ensures Spec.Parse(r, pos) == Spec.Unary(tokens, old(pos))
      decreases |tokens| - pos, 1
    {
      if !Spec.At(tokens, pos, Terminals.Unary) {
        r := Primary();
        return;
      }
      var operator: Terminals.UnaryOperator := Terminals.Terminal(Terminals.Unary, tokens[pos]);
      pos := pos + 1;
      var right :- Primary();
      return Spec.Parsed(Ast.Unary(operator, right));
    }

    /** `primary`. */
    method Primary() returns (r: Spec.ParseResult)
      requires pos <= |tokens|
      modifies this
      ensures Spec.Parse(r, pos) == Spec.Primary(tokens, old(pos))
      decreases |tokens| - pos, 0
    {
      if Spec.At(tokens, pos, Terminals.Literal) {
        var literal: Terminals.LiteralToken := Terminals.Terminal(Terminals.Literal, tokens[pos]);
        pos := pos + 1;
        return Spec.Parsed(Ast.Literal(literal));
      }
      if Spec.AtKind(tokens, pos, LeftParen) {
        var leftParen := tokens[pos];
        pos := pos + 1;
        var inner := Expression();
        if inner.NoExpr? {
          return Spec.Failed(Spec.GroupingMissingExpression(leftParen));
        } else if inner.Failed? {
          return inner;
        }
        if Spec.AtKind(tokens, pos, RightParen) {
          pos := pos + 1;
          return Spec.Parsed(Ast.Grouping(inner.expr));
        }
        return Spec.Failed(Spec.GroupingNotClosed(leftParen, inner.expr));
      }
      return Spec.NoExpr;
    }
  }
}
