/**
 * The two printers of src/expr/formatter.rs: the Lisp-like prefix form of
 * `AstFormatter` and the Reverse Polish form of `RpnFormatter`. Neither has
 * an arm for a ternary node, so both are defined on ternary-free trees only.
 */
module Formatter {
  import opened Wrappers
  import opened Tokens
  import opened Ast
  import Terminals
  import ScannerSpec

  /** The fixed spelling of a kind, used when a token carries no lexeme. */
  function Symbol(k: TokenKind): string {
    match k
    case Comma => ","
    case Dot => "."
    case LeftBrace => "{"
    case LeftParen => "("
    case Minus => "-"
    case Plus => "+"
    case RightBrace => "}"
    case RightParen => ")"
    case SemiColon => ";"
    case Slash => "/"
    case Star => "*"
    case Bang => "!"
    case BangEqual => "!="
    case Equal => "="
    case EqualEqual => "=="
    case Greater => ">"
    case GreaterEqual => ">="
    case Less => "<"
    case LessEqual => "<="
    case Question => "?"
    case Colon => ":"
    case Identifier => ""
    case String(content) => "\"" + content + "\""
    case Number(text) => text
    case _ => KeywordSpelling(k)
  }

  /** The kinds whose spelling is fixed: all but identifiers, strings and numbers. */
  predicate FixedSpelling(k: TokenKind) {
    !k.Identifier? && !k.String? && !k.Number?
  }

  /**
   * The text a token prints as: its lexeme when it has one, else its kind's
   * spelling. A lexeme-less token of fixed spelling prints as text the
   * scanner reads back as the same kind: a keyword through the keyword
   * table, a one-character kind through the single-character arm, a
   * two-character operator through the `=` pairs.
   */
  function TokenText(t: Token): (s: string)
    ensures t.lexeme.Some? ==> s == t.lexeme.value
    ensures t.lexeme.None? && IsKeyword(t.kind) ==> KeywordKind(s) == Some(t.kind)
    ensures t.lexeme.None? && FixedSpelling(t.kind) && |s| == 1 && ScannerSpec.SingleKind(s[0]).Some? ==>
      ScannerSpec.SingleKind(s[0]).value == t.kind
    ensures t.lexeme.None? && FixedSpelling(t.kind) && |s| == 2 && s[1] == '=' && TwoCharKinds(s[0]).Some? ==>
      TwoCharKinds(s[0]).value.0 == t.kind
  {
    match t.lexeme
    case Some(s) => s
    case None =>
      if IsKeyword(t.kind) then KeywordRoundTrip(t.kind); Symbol(t.kind) else Symbol(t.kind)
  }

  /**
   * `AstFormatter::visit`. Every node but a literal is printed inside one
   * pair of parentheses; ParenthesesCount shows that the pairs balance.
   */
  function Prefix(e: Expr): (s: string)
    requires !HasTernary(e)
    ensures !e.Literal? ==> |s| >= 2 && s[0] == '(' && s[|s| - 1] == ')'
  {
    match e
    case Binary(l, op, r) => "(" + TokenText(op.token) + " " + Prefix(l) + " " + Prefix(r) + ")"
    case Grouping(inner) => "(group " + Prefix(inner) + ")"
    case Unary(op, r) => "(" + TokenText(op.token) + " " + Prefix(r) + ")"
    case Literal(lit) => TokenText(lit.token)
  }

  /**
   * `RpnFormatter::visit`. A binary operator is printed after both operands
   * and a unary one before its operand; RpnIgnoresGrouping shows that
   * groupings leave no trace.
   */
  function Rpn(e: Expr): (s: string)
    requires !HasTernary(e)
    ensures e.Binary? ==> var o := TokenText(e.operator.token);
      |o| <= |s| && s[|s| - |o|..] == o
    ensures e.Unary? ==> var o := TokenText(e.unaryOperator.token);
      |o| <= |s| && s[..|o|] == o
  {
    match e
    case Binary(l, op, r) => Rpn(l) + " " + Rpn(r) + " " + TokenText(op.token)
    case Grouping(inner) => Rpn(inner)
    case Unary(op, r) => TokenText(op.token) + Rpn(r)
    case Literal(lit) => TokenText(lit.token)
  }

  // ---------------------------------------------------------------------
  // Groupings only matter to the prefix form

  predicate HasGrouping(e: Expr) {
    match e
    case Binary(l, _, r) => HasGrouping(l) || HasGrouping(r)
    case Ternary(c, t, f) => HasGrouping(c) || HasGrouping(t) || HasGrouping(f)
    case Grouping(_) => true
    case Unary(_, r) => HasGrouping(r)
    case Literal(_) => false
  }

  /** The tree with every Grouping node replaced by its content. */
  function StripGroupings(e: Expr): (s: Expr)
    ensures !HasGrouping(s)
    ensures HasTernary(s) == HasTernary(e)
    ensures !HasGrouping(e) ==> s == e
  {
    match e
    case Binary(l, op, r) => Binary(StripGroupings(l), op, StripGroupings(r))
    case Ternary(c, t, f) => Ternary(StripGroupings(c), StripGroupings(t), StripGroupings(f))
    case Grouping(inner) => StripGroupings(inner)
    case Unary(op, r) => Unary(op, StripGroupings(r))
    case Literal(lit) => Literal(lit)
  }

  /** The Reverse Polish form is blind to groupings. */
  lemma {:induction false} RpnIgnoresGrouping(e: Expr)
    requires !HasTernary(e)
    ensures Rpn(StripGroupings(e)) == Rpn(e)
  {
    match e
    case Binary(l, op, r) =>
      RpnIgnoresGrouping(l);
      RpnIgnoresGrouping(r);
    case Grouping(inner) =>
      RpnIgnoresGrouping(inner);
    case Unary(op, r) =>
      RpnIgnoresGrouping(r);
    case Literal(lit) =>
  }

  // ---------------------------------------------------------------------
  // Parentheses

  function Count(s: string, c: char): (n: nat)
    ensures n <= |s|
  {
    if s == [] then 0 else Count(s[..|s| - 1], c) + (if s[|s| - 1] == c then 1 else 0)
  }

  lemma {:induction false} CountAppend(s: string, t: string, c: char)
    ensures Count(s + t, c) == Count(s, c) + Count(t, c)
    decreases |t|
  {
    if t == [] {
      assert s + t == s;
    } else {
      assert (s + t)[..|s + t| - 1] == s + t[..|t| - 1];
      CountAppend(s, t[..|t| - 1], c);
    }
  }

  /** Whether no token in the tree prints with a parenthesis in it. */
  predicate TextsParenFree(e: Expr) {
    match e
    case Binary(l, op, r) =>
      Count(TokenText(op.token), '(') == 0 && Count(TokenText(op.token), ')') == 0 &&
      TextsParenFree(l) && TextsParenFree(r)
    case Ternary(c, t, f) => TextsParenFree(c) && TextsParenFree(t) && TextsParenFree(f)
    case Grouping(inner) => TextsParenFree(inner)
    case Unary(op, r) =>
      Count(TokenText(op.token), '(') == 0 && Count(TokenText(op.token), ')') == 0 && TextsParenFree(r)
    case Literal(lit) => Count(TokenText(lit.token), '(') == 0 && Count(TokenText(lit.token), ')') == 0
  }

  /**
   * When no token text holds a parenthesis, the prefix form opens exactly one
   * parenthesis per Binary, Unary and Grouping node and closes each of them,
   * while the Reverse Polish form holds none.
   */
  lemma {:induction false} ParenthesesCount(e: Expr)
    requires !HasTernary(e) && TextsParenFree(e)
    ensures Balanced(e)
  {
    match e
    case Binary(l, op, r) =>
      ParenthesesCount(l);
      ParenthesesCount(r);
      BinaryBalanced(l, op, r);
    case Grouping(inner) =>
      ParenthesesCount(inner);
      GroupingBalanced(inner);
    case Unary(op, r) =>
      ParenthesesCount(r);
      UnaryBalanced(op, r);
    case Literal(lit) =>
  }

  /** The counts `ParenthesesCount` states for one tree. */
  predicate Balanced(e: Expr)
    requires !HasTernary(e)
  {
    Count(Prefix(e), '(') == Count(Prefix(e), ')') == Nodes(e) &&
    Count(Rpn(e), '(') == 0 && Count(Rpn(e), ')') == 0
  }

  lemma BinaryBalanced(l: Expr, op: Terminals.BinaryOperator, r: Expr)
    requires !HasTernary(Binary(l, op, r)) && TextsParenFree(Binary(l, op, r)) && Balanced(l) && Balanced(r)
    ensures Balanced(Binary(l, op, r))
  {
    var o, p, q := TokenText(op.token), Prefix(Binary(l, op, r)), Rpn(Binary(l, op, r));
    Singles();
    assert p == "(" + o + " " + Prefix(l) + " " + Prefix(r) + ")";
    CountPrefixBinary(o, Prefix(l), Prefix(r), '(');
    CountPrefixBinary(o, Prefix(l), Prefix(r), ')');
    assert Count(p, '(') == 1 + Count(Prefix(l), '(') + Count(Prefix(r), '(');
    assert Count(p, ')') == 1 + Count(Prefix(l), ')') + Count(Prefix(r), ')');
    assert q == Rpn(l) + " " + Rpn(r) + " " + o;
    CountRpnBinary(Rpn(l), Rpn(r), o, '(');
    CountRpnBinary(Rpn(l), Rpn(r), o, ')');
  }

  lemma GroupingBalanced(inner: Expr)
    requires !HasTernary(inner) && Balanced(inner)
    ensures Balanced(Grouping(inner))
  {
    Singles();
    CountAppend("(group " + Prefix(inner), ")", '(');
    CountAppend("(group " + Prefix(inner), ")", ')');
    CountAppend("(group ", Prefix(inner), '(');
    CountAppend("(group ", Prefix(inner), ')');
    OpenGroup();
  }

  lemma UnaryBalanced(op: Terminals.UnaryOperator, r: Expr)
    requires !HasTernary(r) && TextsParenFree(Unary(op, r)) && Balanced(r)
    ensures Balanced(Unary(op, r))
  {
    Singles();
    CountPrefixUnary(TokenText(op.token), Prefix(r), '(');
    CountPrefixUnary(TokenText(op.token), Prefix(r), ')');
    CountAppend(TokenText(op.token), Rpn(r), '(');
    CountAppend(TokenText(op.token), Rpn(r), ')');
  }

  lemma Singles()
    ensures Count("(", '(') == 1 && Count("(", ')') == 0
    ensures Count(")", ')') == 1 && Count(")", '(') == 0
    ensures Count(" ", '(') == 0 && Count(" ", ')') == 0
  {
  }

  lemma CountPrefixBinary(o: string, pl: string, pr: string, c: char)
    requires Count(" ", c) == 0
    ensures Count("(" + o + " " + pl + " " + pr + ")", c) ==
      Count("(", c) + Count(o, c) + Count(pl, c) + Count(pr, c) + Count(")", c)
  {
    CountAppend("(" + o + " " + pl + " " + pr, ")", c);
    CountAppend("(" + o + " " + pl + " ", pr, c);
    CountAppend("(" + o + " " + pl, " ", c);
    CountAppend("(" + o + " ", pl, c);
    CountAppend("(" + o, " ", c);
    CountAppend("(", o, c);
  }

  lemma CountRpnBinary(rl: string, rr: string, o: string, c: char)
    requires Count(" ", c) == 0
    ensures Count(rl + " " + rr + " " + o, c) == Count(rl, c) + Count(rr, c) + Count(o, c)
  {
    CountAppend(rl + " " + rr + " ", o, c);
    CountAppend(rl + " " + rr, " ", c);
    CountAppend(rl + " ", rr, c);
    CountAppend(rl, " ", c);
  }

  lemma CountPrefixUnary(o: string, p: string, c: char)
    requires Count(" ", c) == 0
    ensures Count("(" + o + " " + p + ")", c) == Count("(", c) + Count(o, c) + Count(p, c) + Count(")", c)
  {
    CountAppend("(" + o + " " + p, ")", c);
    CountAppend("(" + o + " ", p, c);
    CountAppend("(" + o, " ", c);
    CountAppend("(", o, c);
  }

  /** The opening text of a grouping holds one opening parenthesis and no closing one. */
  lemma OpenGroup()
    ensures Count("(group ", '(') == 1 && Count("(group ", ')') == 0
  {
    var g := "(group ";
    assert g == "(" + "group ";
    CountAppend("(", "group ", '(');
    CountAppend("(", "group ", ')');
    CountNone("group ", '(');
    CountNone("group ", ')');
  }

  lemma {:induction false} CountNone(s: string, c: char)
    requires forall i :: 0 <= i < |s| ==> s[i] != c
    ensures Count(s, c) == 0
    decreases |s|
  {
    if s != [] {
      CountNone(s[..|s| - 1], c);
    }
  }

  /** The number of Binary, Unary and Grouping nodes. */
  function Nodes(e: Expr): nat {
    match e
    case Binary(l, _, r) => 1 + Nodes(l) + Nodes(r)
    case Ternary(c, t, f) => Nodes(c) + Nodes(t) + Nodes(f)
    case Grouping(inner) => 1 + Nodes(inner)
    case Unary(_, r) => 1 + Nodes(r)
    case Literal(_) => 0
  }
}
