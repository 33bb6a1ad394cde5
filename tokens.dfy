/**
 * The token model (src/token.rs): the closed vocabulary of lexical
 * categories and the token carrier.
 *
 * `TokenKind` follows src/token.rs, extended by the two kinds the scanner
 * tests and the ternary validators use (`Question`, `Colon`); `String`
 * carries the literal's content and `Number` its lexeme text (the float
 * conversion is not modelled).
 */
module Tokens {
  import opened Wrappers

  datatype TokenKind =
    // single-character tokens
    | Comma | Dot | LeftBrace | LeftParen | Minus | Plus
    | RightBrace | RightParen | SemiColon | Slash | Star
    // one or two character tokens
    | Bang | BangEqual | Equal | EqualEqual
    | Greater | GreaterEqual | Less | LessEqual
    // ternary punctuation
    | Question | Colon
    // literals
    | Identifier | String(content: string) | Number(text: string)
    // keywords
    | And | Class | Else | False | Fun | For | If | Nil
    | Or | Print | Return | Super | This | True | Var | While

  /** A token: its kind, the source text it was read from (if any) and its 1-based line. */
  datatype Token = Token(kind: TokenKind, lexeme: Option<string>, line: nat)

  /** `Token::new`: stores its three arguments unchanged. */
  function NewToken(kind: TokenKind, lexeme: Option<string>, line: nat): (t: Token)
    ensures t.kind == kind && t.lexeme == lexeme && t.line == line
  {
    Token(kind, lexeme, line)
  }

  /** The sixteen keyword kinds, `And` through `While`. */
  predicate IsKeyword(k: TokenKind) {
    k.And? || k.Class? || k.Else? || k.False? || k.Fun? || k.For? || k.If? || k.Nil? ||
    k.Or? || k.Print? || k.Return? || k.Super? || k.This? || k.True? || k.Var? || k.While?
  }

  const KeywordKinds: seq<TokenKind> :=
    [And, Class, Else, False, Fun, For, If, Nil, Or, Print, Return, Super, This, True, Var, While]

  /** The reserved spelling of a keyword kind. */
  function KeywordSpelling(k: TokenKind): (w: string)
    requires IsKeyword(k)
    ensures |w| >= 2
  {
    match k
    case And => "and"
    case Class => "class"
    case Else => "else"
    case False => "false"
    case Fun => "fun"
    case For => "for"
    case If => "if"
    case Nil => "nil"
    case Or => "or"
    case Print => "print"
    case Return => "return"
    case Super => "super"
    case This => "this"
    case True => "true"
    case Var => "var"
    case While => "while"
  }

  /** The keyword table of the identifier sub-lexer: the kind a word is reserved for, if any. */
  function KeywordKind(w: string): (r: Option<TokenKind>)
    ensures r.Some? ==> IsKeyword(r.value) && KeywordSpelling(r.value) == w
  {
    match w
    case "and" => Some(And)
    case "class" => Some(Class)
    case "else" => Some(Else)
    case "false" => Some(False)
    case "for" => Some(For)
    case "fun" => Some(Fun)
    case "if" => Some(If)
    case "nil" => Some(Nil)
    case "or" => Some(Or)
    case "print" => Some(Print)
    case "return" => Some(Return)
    case "super" => Some(Super)
    case "this" => Some(This)
    case "true" => Some(True)
    case "var" => Some(Var)
    case "while" => Some(While)
    case _ => None
  }

  /** Every keyword kind is reached from exactly its own spelling. */
  lemma KeywordRoundTrip(k: TokenKind)
    requires IsKeyword(k)
    ensures KeywordKind(KeywordSpelling(k)) == Some(k)
  {
  }

  /** There are exactly sixteen keyword kinds, all distinct, and they are the ones `IsKeyword` names. */
  lemma SixteenKeywords()
    ensures |KeywordKinds| == 16
    ensures forall i, j :: 0 <= i < j < |KeywordKinds| ==> KeywordKinds[i] != KeywordKinds[j]
    ensures forall k :: IsKeyword(k) <==> k in KeywordKinds
  {
  }

  /**
   * The kinds that have a two-character form: the first component is the
   * kind of `c` followed by `=`, the second the kind of `c` alone.
   */
  function TwoCharKinds(c: char): (r: Option<(TokenKind, TokenKind)>)
    ensures r.Some? ==> r.value.0 != r.value.1
  {
    match c
    case '!' => Some((BangEqual, Bang))
    case '=' => Some((EqualEqual, Equal))
    case '<' => Some((LessEqual, Less))
    case '>' => Some((GreaterEqual, Greater))
    case _ => None
  }

  /** Distinct leading characters give distinct two-character kinds and distinct prefix kinds. */
  lemma TwoCharKindsDistinct(c: char, d: char)
    requires TwoCharKinds(c).Some? && TwoCharKinds(d).Some? && c != d
    ensures TwoCharKinds(c).value.0 != TwoCharKinds(d).value.0
    ensures TwoCharKinds(c).value.1 != TwoCharKinds(d).value.1
  {
  }
}
