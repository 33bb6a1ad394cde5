/**
 * The scanner (src/scanner/mod.rs and its sub-lexers): a state machine over
 * `rest`, the unconsumed suffix of `source`, and the current line.
 * Characters are Dafny `char`s; `rest` advances by characters, not bytes.
 */
module Scanner {
  import opened Wrappers
  import opened Tokens
  import opened ScannerSpec

  class Scanner {
    /** The original input. */
    const source: string
    /** The input still to scan, starting with the current character. */
    var rest: string
    /** The line reached so far. */
    var line: nat

    ghost predicate Valid()
      reads this
    {
      IsSuffix(rest, source) && line >= 1
    }

    /** `Scanner::new`: nothing consumed yet, on line 1. */
    constructor (source: string)
      ensures Valid()
      ensures this.source == source && rest == source && line == 1
    {
      this.source := source;
      rest := source;
      line := 1;
    }

    /** `just`: a token of the given kind with no lexeme, on the current line. */
    function Just(kind: TokenKind): (t: Token)
      reads this
      ensures t.kind == kind && t.lexeme.None? && t.line == line
    {
      NewToken(kind, None, line)
    }

    /** `with_lexeme`: a token of the given kind carrying `lexeme`, on the current line. */
    function WithLexeme(kind: TokenKind, lexeme: string): (t: Token)
      reads this
      ensures t.kind == kind && t.lexeme == Some(lexeme) && t.line == line
    {
      NewToken(kind, Some(lexeme), line)
    }

    /** `advance_line`: skip through the next newline (counting it), or to the end of input. */
    method AdvanceLine()
      requires Valid()
      modifies this
      ensures Valid() && (rest, line) == SkipLine(old(rest), old(line))
    {
      SkipThroughNewline();
    }

    /** `line_comment`: the same skip, entered on a double slash. */
    method LineComment()
      requires Valid()
      modifies this
      ensures Valid() && (rest, line) == SkipLine(old(rest), old(line))
    {
      SkipThroughNewline();
    }

    method SkipThroughNewline()
      requires Valid()
      modifies this
      ensures Valid() && (rest, line) == SkipLine(old(rest), old(line))
    {
      var i := 0;
      while i < |rest| && rest[i] != '\n'
        invariant 0 <= i <= |rest|
        invariant forall j :: 0 <= j < i ==> rest[j] != '\n'
      {
        i := i + 1;
      }
      if i < |rest| {
        SuffixDrop(rest, source, i + 1);
        line := line + 1;
        rest := rest[i + 1..];
      } else {
        SuffixDrop(rest, source, |rest|);
        rest := [];
      }
    }

    /** `single`: consume one character and make a token of `kind` without lexeme. */
    method Single(kind: TokenKind) returns (t: Token)
      requires Valid() && |rest| >= 1
      modifies this
      ensures Valid() && rest == old(rest)[1..] && line == old(line)
      ensures t == NewToken(kind, None, line)
    {
      SuffixDrop(rest, source, 1);
      rest := rest[1..];
      t := Just(kind);
    }

    /** The two-way choice of `next` for `!`, `=`, `<`, `>`: `yes` if `expected` follows, else `no`. */
    method IfNextElse(expected: char, yes: TokenKind, no: TokenKind) returns (t: Token)
      requires Valid() && |rest| >= 1
      modifies this
      ensures Valid() && line == old(line)
      ensures StartsWith(old(rest)[1..], expected) ==> rest == old(rest)[2..] && t == NewToken(yes, None, line)
      ensures !StartsWith(old(rest)[1..], expected) ==> rest == old(rest)[1..] && t == NewToken(no, None, line)
    {
      var kind := no;
      if StartsWith(rest[1..], expected) {
        SuffixDrop(rest, source, 1);
        rest := rest[1..];
        kind := yes;
      }
      t := Single(kind);
    }

    /** `whitespace`: consume the whitespace character `c`, counting it if it is a newline. */
    method Whitespace(c: char)
      requires Valid() && StartsWith(rest, c)
      modifies this
      ensures Valid() && rest == old(rest)[1..]
      ensures line == if c == '\n' then old(line) + 1 else old(line)
    {
      if c == '\n' {
        line := line + 1;
      }
      SuffixDrop(rest, source, 1);
      rest := rest[1..];
    }

    /** `block_comment`, entered on slash-star. */
    method BlockComment() returns (r: Result<(), LexError>)
      requires Valid() && |rest| >= 2 && rest[0] == '/' && rest[1] == '*'
      modifies this
      ensures Valid()
      ensures var s := BlockCommentStep(old(rest), old(line));
        rest == s.rest && line == s.line &&
        r == if s.Skip? then Success(()) else Failure(s.error)
    {
      var s := rest;
      var i := 2;
      while i < |s|
        invariant 2 <= i <= |s| && rest == s == old(rest)
        invariant line == old(line) + Newlines(s[2..i])
        invariant FindCommentEnd(s, 2) == FindCommentEnd(s, i)
        decreases |s| - i
      {
        NewlinesExtend(s, 2, i);
        if s[i] == '\n' {
          line := line + 1;
        }
        if s[i] == '*' && StartsWith(s[i + 1..], '/') {
          SuffixDrop(s, source, i + 2);
          rest := s[i + 2..];
          return Success(());
        }
        i := i + 1;
      }
      assert s[2..i] == s[2..];
      return Failure(MissingBlockCommentTerminator);
    }

    /** `string`, entered on a double quote. */
    method StringLiteral() returns (r: Result<Token, LexError>)
      requires Valid() && |rest| >= 1 && rest[0] == '"'
      modifies this
      ensures Valid()
      ensures var s := StringStep(old(rest), old(line));
        rest == s.rest && line == s.line &&
        r == if s.Emit? then Success(s.token) else Failure(s.error)
    {
      var s := rest;
      var i := 1;
      while i < |s|
        invariant 1 <= i <= |s| && rest == s == old(rest)
        invariant line == old(line) + Newlines(s[1..i])
        invariant FindQuote(s, 1) == FindQuote(s, i)
        decreases |s| - i
      {
        if s[i] == '"' {
          var lexeme := s[..i + 1];
          SuffixDrop(s, source, i + 1);
          rest := s[i + 1..];
          assert lexeme[1..|lexeme| - 1] == s[1..i];
          return Success(NewToken(String(lexeme[1..|lexeme| - 1]), Some(lexeme), line));
        }
        NewlinesExtend(s, 1, i);
        if s[i] == '\n' {
          line := line + 1;
        }
        i := i + 1;
      }
      assert s[1..i] == s[1..];
      rest := [];
      return Failure(UnterminatedString);
    }

    /** `char_indices().find(|(_, c)| !c.is_ascii_digit())`: where the leading digits of `s` stop. */
    static method DigitsEnd(s: string) returns (d: nat)
      ensures d == DigitRun(s)
    {
      d := 0;
      while d < |s| && IsDigit(s[d])
        invariant 0 <= d <= |s|
        invariant forall j :: 0 <= j < d ==> IsDigit(s[j])
      {
        d := d + 1;
      }
      assert d == DigitRun(s);
    }

    /** The lexeme `number` picks: the digits, then the dot and its digits only when a digit follows the dot. */
    static method NumberLexeme(s: string) returns (lexeme: string)
      ensures lexeme == s[..NumberLength(s)]
    {
      var d := DigitsEnd(s);
      if d == |s| {
        lexeme := s;
      } else if s[d] != '.' || |s[d + 1..]| == 0 {
        lexeme := s[..d];
      } else {
        var f := DigitsEnd(s[d + 1..]);
        if f == |s[d + 1..]| {
          lexeme := s;
        } else if f == 0 {
          lexeme := s[..d];
        } else {
          lexeme := s[..d + f + 1];
        }
      }
    }

    /** `number`, entered on a digit; the lexeme is kept as the token's payload. */
    method Number() returns (t: Token)
      requires Valid() && |rest| >= 1 && IsDigit(rest[0])
      modifies this
      ensures Valid()
      ensures var s := NumberStep(old(rest), old(line));
        rest == s.rest && line == s.line && t == s.token
    {
      var s := rest;
      var lexeme := NumberLexeme(s);
      SuffixDrop(s, source, |lexeme|);
      rest := s[|lexeme|..];
      t := WithLexeme(Tokens.Number(lexeme), lexeme);
    }

    /** `identifier`, entered on a letter or underscore: maximal munch, then the keyword table. */
    method Identifier() returns (t: Token)
      requires Valid() && |rest| >= 1 && (IsAsciiAlpha(rest[0]) || rest[0] == '_')
      modifies this
      ensures Valid()
      ensures var s := IdentifierStep(old(rest), old(line));
        rest == s.rest && line == s.line && t == s.token
    {
      var s := rest;
      var n := 0;
      while n < |s| && IsWordChar(s[n])
        invariant 0 <= n <= |s|
        invariant forall j :: 0 <= j < n ==> IsWordChar(s[j])
      {
        n := n + 1;
      }
      assert n == WordRun(s);
      var lexeme := s[..n];
      SuffixDrop(s, source, n);
      rest := s[n..];
      match KeywordKind(lexeme) {
        case Some(k) => t := Just(k);
        case None => t := WithLexeme(Tokens.Identifier, lexeme);
      }
    }

    /**
     * One pass of the loop in `Iterator::next`: the dispatch on the current
     * character. It performs exactly the step `StepOf` describes, and asks
     * for another pass (`done` false) exactly when that step only skips input.
     */
    method Pass() returns (done: bool, r: Option<Result<Token, LexError>>)
      requires Valid()
      modifies this
      ensures Valid()
      ensures var s := StepOf(old(rest), old(line));
        (s.Done? ==> done && r.None? && rest == old(rest) && line == old(line)) &&
        (s.Skip? ==> !done && rest == s.rest && line == s.line) &&
        (s.Emit? ==> done && r == Some(Success(s.token)) && rest == s.rest && line == s.line) &&
        (s.Fail? ==> done && r == Some(Failure(s.error)) && rest == s.rest && line == s.line)
    {
      if rest == [] {
        return true, None;
      }
      var c := rest[0];
      var cRest := rest[1..];
      var token: Token;
      match ArmOf(c) {
        case SingleArm(k) =>
          token := Single(k);
        case PairArm(yes, no) =>
          token := IfNextElse('=', yes, no);
        case QuoteArm =>
          var s := StringLiteral();
          if s.Failure? {
            return true, Some(Failure(s.error));
          }
          token := s.value;
        case SlashArm =>
          if StartsWith(cRest, '/') {
            LineComment();
            return false, None;
          } else if StartsWith(cRest, '*') {
            var b := BlockComment();
            if b.Success? {
              return false, None;
            }
            return true, Some(Failure(b.error));
          }
          token := Single(Slash);
        case DigitArm =>
          token := Number();
        case SpaceArm =>
          Whitespace(c);
          return false, None;
        case WordArm =>
          token := Identifier();
        case OtherArm =>
          return true, Some(Failure(InvalidCharacter(c, line)));
      }
      return true, Some(Success(token));
    }

    /** `Iterator::next`: skip whitespace and comments, then yield one token or one error; `None` at the end. */
    method Next() returns (r: Option<Result<Token, LexError>>)
      requires Valid()
      modifies this
      ensures Valid() && line >= old(line)
      ensures Scan(r, rest, line) == NextSpec(old(rest), old(line))
    {
      while true
        invariant Valid() && line >= old(line)
        invariant NextSpec(rest, line) == NextSpec(old(rest), old(line))
        decreases |rest|
      {
        var done;
        done, r := Pass();
        if done {
          return;
        }
      }
    }
  }
}
