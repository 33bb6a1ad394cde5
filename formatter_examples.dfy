/** The printer cases of src/expr/formatter.rs, each on the tree its test builds. */
module FormatterExamples {
  import opened Wrappers
  import opened Tokens
  import opened Ast
  import opened Formatter
  import Terminals

  function Num(text: string): Terminals.LiteralToken {
    Terminals.Terminal(Terminals.Literal, Token(Number(text), Some(text), 1))
  }

  function Op(k: TokenKind): Terminals.BinaryOperator
    requires Terminals.Matches(Terminals.Binary, Token(k, None, 1))
  {
    Terminals.Terminal(Terminals.Binary, Token(k, None, 1))
  }

  const Neg: Terminals.UnaryOperator := Terminals.Terminal(Terminals.Unary, Token(Minus, None, 1))

  /** `1 + 2` prints as "(+ 1 2)" and "1 2 +". */
  lemma PrintBinary()
    ensures Prefix(Binary(Literal(Num("1")), Op(Plus), Literal(Num("2")))) == "(+ 1 2)"
    ensures Rpn(Binary(Literal(Num("1")), Op(Plus), Literal(Num("2")))) == "1 2 +"
  {
  }

  /** `-2` prints as "(- 2)" and, with no space, "-2". */
  lemma PrintUnary()
    ensures Prefix(Unary(Neg, Literal(Num("2")))) == "(- 2)"
    ensures Rpn(Unary(Neg, Literal(Num("2")))) == "-2"
  {
  }

  /** `(45.67)` prints as "(group 45.67)" and, with the grouping dropped, "45.67". */
  lemma PrintGrouping()
    ensures Prefix(Grouping(Literal(Num("45.67")))) == "(group 45.67)"
    ensures Rpn(Grouping(Literal(Num("45.67")))) == "45.67"
  {
  }

  /** A literal prints as its lexeme in both forms. */
  lemma PrintLiteral()
    ensures Prefix(Literal(Num("45.67"))) == "45.67" == Rpn(Literal(Num("45.67")))
  {
  }

  /** The tree of `-123 * (45.67)`. */
  function MixedTree(): Expr {
    Binary(Unary(Neg, Literal(Num("123"))), Op(Star), Grouping(Literal(Num("45.67"))))
  }

  /** `-123 * (45.67)` prints as "(* (- 123) (group 45.67))". */
  lemma PrintMixed()
    ensures Prefix(MixedTree()) == "(* (- 123) (group 45.67))"
  {
    MixedPrefixParts();
    MixedPrefixJoined();
  }

  lemma MixedPrefixParts()
    ensures Prefix(MixedTree()) == "(" + "*" + " " + "(- 123)" + " " + "(group 45.67)" + ")"
  {
    assert Prefix(Unary(Neg, Literal(Num("123")))) == "(- 123)";
    assert Prefix(Grouping(Literal(Num("45.67")))) == "(group 45.67)";
  }

  lemma MixedPrefixJoined()
    ensures "(" + "*" + " " + "(- 123)" + " " + "(group 45.67)" + ")" == "(* (- 123) (group 45.67))"
  {
  }

  /** `-123 * (45.67)` prints as "-123 45.67 *": the grouping leaves no trace. */
  lemma PrintMixedRpn()
    ensures Rpn(MixedTree()) == "-123 45.67 *"
  {
    var neg, group := Unary(Neg, Literal(Num("123"))), Grouping(Literal(Num("45.67")));
    assert Rpn(neg) == "-123";
    assert Rpn(group) == "45.67";
    assert TokenText(Op(Star).token) == "*";
  }
}
