/** What the scanner promises, stated over the step functions of ScannerSpec. */
module ScannerProperties {
  import opened Wrappers
  import opened Tokens
  import opened ScannerSpec

  // ---------------------------------------------------------------------
  // The iterator as a whole

  /** Empty input yields `None` and leaves everything as it was. */
  lemma EmptyInputEnds(line: nat)
    ensures NextSpec([], line) == Scan(None, [], line)
  {
  }

  /** `next` returns `None` exactly when nothing is left once whitespace and comments are skipped. */
  lemma {:induction false} NoneIffSettledEmpty(rest: string, line: nat)
    ensures NextSpec(rest, line).item.None? <==> Settled(rest, line).0 == []
    decreases |rest|
  {
    match StepOf(rest, line)
    case Skip(r, l) => NoneIffSettledEmpty(r, l);
    case _ =>
  }

  /** An invalid character is reported without being consumed, so the next call reports it again. */
  lemma {:induction false} InvalidCharacterRepeats(rest: string, line: nat, c: char, at: nat)
    requires NextSpec(rest, line).item == Some(Failure(InvalidCharacter(c, at)))
    ensures var n := NextSpec(rest, line);
      at == n.line && StartsWith(n.rest, c) && NextSpec(n.rest, n.line) == n
    decreases |rest|
  {
    match StepOf(rest, line)
    case Skip(r, l) => InvalidCharacterRepeats(r, l, c, at);
    case Fail(e, r, l) =>
  }

  /** An unterminated string discards the rest of the input: the call after the error yields `None`. */
  lemma {:induction false} UnterminatedStringEndsInput(rest: string, line: nat)
    requires NextSpec(rest, line).item == Some(Failure(UnterminatedString))
    ensures var n := NextSpec(rest, line);
      n.rest == [] && NextSpec(n.rest, n.line).item.None?
    decreases |rest|
  {
    match StepOf(rest, line)
    case Skip(r, l) => UnterminatedStringEndsInput(r, l);
    case Fail(e, r, l) =>
  }

  /**
   * A block comment without terminator leaves `rest` where the comment
   * starts, so the call after the error reports the same error again.
   */
  lemma {:induction false} UnterminatedBlockCommentRepeats(rest: string, line: nat)
    requires NextSpec(rest, line).item == Some(Failure(MissingBlockCommentTerminator))
    ensures var n := NextSpec(rest, line);
      |n.rest| >= 2 && n.rest[..2] == "/*" && NextSpec(n.rest, n.line).item == n.item
    decreases |rest|
  {
    match StepOf(rest, line)
    case Skip(r, l) => UnterminatedBlockCommentRepeats(r, l);
    case Fail(e, r, l) =>
      var n := NextSpec(rest, line);
      assert n.rest == rest;
      assert StepOf(n.rest, n.line) == BlockCommentStep(rest, n.line);
  }

  // ---------------------------------------------------------------------
  // Single-step behaviour of the dispatch

  /** A step that only skips input leaves the outcome of `next` to the state it skips to. */
  lemma SkipStep(rest: string, line: nat, r: string, l: nat)
    requires StepOf(rest, line) == Skip(r, l)
    ensures NextSpec(rest, line) == NextSpec(r, l)
  {
  }

  /** A one-character token consumes exactly one character and carries no lexeme and the current line. */
  lemma SingleCharacterToken(rest: string, line: nat)
    requires |rest| >= 1 && SingleKind(rest[0]).Some?
    ensures NextSpec(rest, line) == Scan(Some(Success(Token(SingleKind(rest[0]).value, None, line))), rest[1..], line)
  {
  }

  /** `!`, `=`, `<`, `>` followed by `=` make the two-character kind and consume both characters. */
  lemma TwoCharacterToken(rest: string, line: nat)
    requires |rest| >= 2 && TwoCharKinds(rest[0]).Some? && rest[1] == '='
    ensures NextSpec(rest, line) == Scan(Some(Success(Token(TwoCharKinds(rest[0]).value.0, None, line))), rest[2..], line)
  {
  }

  /** Otherwise they make the one-character kind and consume one character. */
  lemma OneCharacterPrefixToken(rest: string, line: nat)
    requires |rest| >= 1 && TwoCharKinds(rest[0]).Some? && !StartsWith(rest[1..], '=')
    ensures NextSpec(rest, line) == Scan(Some(Success(Token(TwoCharKinds(rest[0]).value.1, None, line))), rest[1..], line)
  {
  }

  /** A slash not followed by a slash or a star is the Slash token. */
  lemma SlashToken(rest: string, line: nat)
    requires |rest| >= 1 && rest[0] == '/' && !StartsWith(rest[1..], '/') && !StartsWith(rest[1..], '*')
    ensures NextSpec(rest, line) == Scan(Some(Success(Token(Slash, None, line))), rest[1..], line)
  {
  }

  /** Whitespace is skipped; only a newline moves the line counter, by one. */
  lemma WhitespaceSkipped(rest: string, line: nat)
    requires |rest| >= 1 && IsWhitespace(rest[0])
    ensures NextSpec(rest, line) == NextSpec(rest[1..], if rest[0] == '\n' then line + 1 else line)
  {
  }

  /** A line comment is skipped through its newline, which is counted; it yields no token of its own. */
  lemma LineCommentSkipped(rest: string, line: nat, i: nat)
    requires |rest| >= 2 && rest[0] == '/' && rest[1] == '/'
    requires i < |rest| && rest[i] == '\n' && forall j :: 0 <= j < i ==> rest[j] != '\n'
    ensures NextSpec(rest, line) == NextSpec(rest[i + 1..], line + 1)
  {
    assert StartsWith(rest[1..], '/');
    assert FindNewline(rest) == Some(i);
    assert StepOf(rest, line) == Skip(rest[i + 1..], line + 1);
  }

  /** A line comment that runs to the end of input ends the scan, on the same line. */
  lemma LineCommentAtEnd(rest: string, line: nat)
    requires |rest| >= 2 && rest[0] == '/' && rest[1] == '/'
    requires forall j :: 0 <= j < |rest| ==> rest[j] != '\n'
    ensures NextSpec(rest, line) == Scan(None, [], line)
  {
    assert StartsWith(rest[1..], '/');
    assert FindNewline(rest).None?;
    assert StepOf(rest, line) == Skip([], line);
  }

  /**
   * A terminated block comment is skipped up to just after the first
   * star-slash that follows its opening two characters; scanning resumes on
   * line `after`, which counts only the newlines before that terminator.
   */
  lemma BlockCommentSkipped(rest: string, line: nat, i: nat, after: nat)
    requires |rest| >= 2 && rest[0] == '/' && rest[1] == '*'
    requires 2 <= i && ClosesAt(rest, i)
    requires forall j :: 2 <= j < i ==> !ClosesAt(rest, j)
    requires after == line + Newlines(rest[2..i])
    ensures NextSpec(rest, line) == NextSpec(rest[i + 2..], after)
  {
    assert StepOf(rest, line) == Skip(rest[i + 2..], after) by {
      assert StartsWith(rest[1..], '*') && !StartsWith(rest[1..], '/');
      assert FindCommentEnd(rest, 2) == Some(i);
    }
    SkipStep(rest, line, rest[i + 2..], after);
  }

  /** A block comment with no terminator is an error that consumes nothing; its newlines are counted anyway. */
  lemma UnterminatedBlockComment(rest: string, line: nat)
    requires |rest| >= 2 && rest[0] == '/' && rest[1] == '*'
    requires forall j :: 2 <= j ==> !ClosesAt(rest, j)
    ensures NextSpec(rest, line) == Scan(Some(Failure(MissingBlockCommentTerminator)), rest, line + Newlines(rest[2..]))
  {
    assert StartsWith(rest[1..], '*') && !StartsWith(rest[1..], '/');
    assert FindCommentEnd(rest, 2).None?;
    assert StepOf(rest, line) == BlockCommentStep(rest, line);
  }

  /** Newline counting adds up over concatenation. */
  lemma {:induction false} NewlinesAppend(a: string, b: string)
    ensures Newlines(a + b) == Newlines(a) + Newlines(b)
    decreases |b|
  {
    if b == [] {
      assert a + b == a;
    } else {
      assert (a + b)[..|a + b| - 1] == a + b[..|b| - 1];
      NewlinesAppend(a, b[..|b| - 1]);
    }
  }

  /** A string literal: its lexeme runs through the closing quote, its payload is the text between the quotes. */
  lemma StringLiteralToken(rest: string, line: nat, i: nat)
    requires |rest| >= 1 && rest[0] == '"'
    requires 1 <= i < |rest| && rest[i] == '"' && forall j :: 1 <= j < i ==> rest[j] != '"'
    ensures var l := line + Newlines(rest[1..i]);
      NextSpec(rest, line) == Scan(Some(Success(Token(String(rest[1..i]), Some(rest[..i + 1]), l))), rest[i + 1..], l)
  {
    assert FindQuote(rest, 1) == Some(i);
    assert StepOf(rest, line) == StringStep(rest, line);
  }

  /** A string literal with no closing quote fails and discards the whole remaining input. */
  lemma UnterminatedStringLiteral(rest: string, line: nat)
    requires |rest| >= 1 && rest[0] == '"'
    requires forall j :: 1 <= j < |rest| ==> rest[j] != '"'
    ensures NextSpec(rest, line) == Scan(Some(Failure(UnterminatedString)), [], line + Newlines(rest[1..]))
  {
    assert FindQuote(rest, 1).None?;
    assert StepOf(rest, line) == StringStep(rest, line);
  }

  /** A character that starts no token and is not whitespace is reported, with the current line, and not consumed. */
  lemma InvalidCharacterReported(rest: string, line: nat)
    requires |rest| >= 1
    requires var c := rest[0];
      SingleKind(c).None? && TwoCharKinds(c).None? && c != '"' && c != '/' &&
      !IsDigit(c) && !IsWhitespace(c) && !IsAsciiAlpha(c) && c != '_'
    ensures NextSpec(rest, line) == Scan(Some(Failure(InvalidCharacter(rest[0], line))), rest, line)
  {
  }

  // ---------------------------------------------------------------------
  // Numbers and identifiers: maximal munch

  predicate AllDigits(w: string) {
    forall i :: 0 <= i < |w| ==> IsDigit(w[i])
  }

  /** The shape of a number lexeme: digits, optionally followed by a dot and at least one digit. */
  predicate IsNumberLexeme(w: string) {
    (|w| > 0 && AllDigits(w)) ||
    exists k :: 0 < k < |w| - 1 && w[k] == '.' && AllDigits(w[..k]) && AllDigits(w[k + 1..])
  }

  /** The number sub-lexer takes the longest prefix that has the shape of a number. */
  lemma NumberIsLongestMatch(s: string)
    requires |s| >= 1 && IsDigit(s[0])
    ensures IsNumberLexeme(s[..NumberLength(s)])
    ensures forall m :: NumberLength(s) < m <= |s| ==> !IsNumberLexeme(s[..m])
  {
    var d := DigitRun(s);
    var n := NumberLength(s);
    if n == d {
      assert AllDigits(s[..n]);
    } else {
      var w := s[..n];
      assert w[d] == '.' && AllDigits(w[..d]) && AllDigits(w[d + 1..]);
    }
    forall m | n < m <= |s|
      ensures !IsNumberLexeme(s[..m])
    {
      assert s[..m][d] == s[d];
    }
  }

  /** The digit run is pinned down by where the digits stop. */
  lemma DigitRunIs(s: string, k: nat)
    requires k <= |s| && (forall i :: 0 <= i < k ==> IsDigit(s[i])) && (k < |s| ==> !IsDigit(s[k]))
    ensures DigitRun(s) == k
  {
  }

  /** The number token: kind and lexeme are the same text; the line is unchanged. */
  lemma NumberToken(rest: string, line: nat)
    requires |rest| >= 1 && IsDigit(rest[0])
    ensures var n := NumberLength(rest);
      n >= 1 &&
      NextSpec(rest, line) == Scan(Some(Success(Token(Number(rest[..n]), Some(rest[..n]), line))), rest[n..], line)
  {
  }

  /** An identifier-shaped word: a letter or underscore, then letters, digits and underscores. */
  predicate IsWord(w: string) {
    |w| > 0 && (IsAsciiAlpha(w[0]) || w[0] == '_') && forall i :: 0 <= i < |w| ==> IsWordChar(w[i])
  }

  /**
   * A word followed by anything that cannot continue it is read whole:
   * a reserved word becomes its keyword kind without lexeme, any other
   * word Identifier carrying the word.
   */
  lemma WordReadWhole(w: string, tail: string, line: nat)
    requires IsWord(w) && (tail == [] || !IsWordChar(tail[0]))
    ensures NextSpec(w + tail, line) == Scan(Some(Success(WordToken(w, line))), tail, line)
    ensures KeywordKind(w).Some? ==> WordToken(w, line) == Token(KeywordKind(w).value, None, line)
    ensures KeywordKind(w).None? ==> WordToken(w, line) == Token(Identifier, Some(w), line)
  {
    var s := w + tail;
    assert s[0] == w[0];
    var n := WordRun(s);
    assert forall i :: 0 <= i < |w| ==> s[i] == w[i];
    assert |w| < |s| ==> s[|w|] == tail[0];
    assert n == |w|;
    assert s[..n] == w && s[n..] == tail;
    WordStep(s, line);
  }

  lemma WordStep(s: string, line: nat)
    requires |s| >= 1 && (IsAsciiAlpha(s[0]) || s[0] == '_')
    ensures StepOf(s, line) == IdentifierStep(s, line)
  {
    assert !IsDigit(s[0]) && !IsWhitespace(s[0]) && SingleKind(s[0]).None? && TwoCharKinds(s[0]).None?;
  }

  /** Every one of the sixteen reserved words lexes to its keyword kind. */
  lemma ReservedWordsAreKeywords(k: TokenKind, tail: string, line: nat)
    requires IsKeyword(k) && (tail == [] || !IsWordChar(tail[0]))
    ensures NextSpec(KeywordSpelling(k) + tail, line).item == Some(Success(Token(k, None, line)))
  {
    var w := KeywordSpelling(k);
    assert IsWord(w) by {
      assert forall i :: 0 <= i < |w| ==> 'a' <= w[i] <= 'z';
    }
    KeywordRoundTrip(k);
    WordReadWhole(w, tail, line);
  }
}
