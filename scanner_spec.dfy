/**
 * What one scanner step does, as functions of the unconsumed input `rest`
 * and the line counter (the files under src/scanner). The imperative scanner in
 * module Scanner is proved to compute exactly these functions.
 */
module ScannerSpec {
  import opened Wrappers
  import opened Tokens

  /** Lexical errors (src/scanner/error.rs). */
  datatype LexError =
    | InvalidCharacter(character: char, line: nat)
    | UnterminatedString
    | MissingBlockCommentTerminator

  /** `s` is a suffix of `whole`: what is left of `whole` after dropping a prefix. */
  predicate IsSuffix(s: string, whole: string) {
    |s| <= |whole| && whole[|whole| - |s|..] == s
  }

  lemma SuffixDrop(s: string, whole: string, k: nat)
    requires IsSuffix(s, whole) && k <= |s|
    ensures IsSuffix(s[k..], whole)
  {
    assert whole[|whole| - |s[k..]|..] == whole[|whole| - |s|..][k..];
  }

  lemma SuffixTrans(a: string, b: string, c: string)
    requires IsSuffix(a, b) && IsSuffix(b, c)
    ensures IsSuffix(a, c)
  {
    assert c[|c| - |a|..] == c[|c| - |b|..][|b| - |a|..];
  }

  predicate StartsWith(s: string, c: char) {
    |s| > 0 && s[0] == c
  }

  // ---------------------------------------------------------------------
  // Character classes

  predicate IsDigit(c: char) {
    '0' <= c <= '9'
  }

  predicate IsAsciiAlpha(c: char) {
    'a' <= c <= 'z' || 'A' <= c <= 'Z'
  }

  /** `is_ascii_alphanumeric() || c == '_'`: the characters an identifier continues with. */
  predicate IsWordChar(c: char) {
    IsAsciiAlpha(c) || IsDigit(c) || c == '_'
  }

  /**
   * The Unicode White_Space property, as Rust's `char::is_whitespace` decides
   * it. The newline is whitespace, and no character that starts a token or a
   * comment is, so the whitespace arm overlaps no other arm of the dispatch.
   */
  predicate IsWhitespace(c: char)
    ensures c == '\n' ==> IsWhitespace(c)
    ensures IsWhitespace(c) ==>
      (!IsDigit(c) && !IsWordChar(c) && c != '"' && c != '/' && SingleKind(c).None? && TwoCharKinds(c).None?)
  {
    ('\t' <= c <= '\r') || c == ' ' || c == '\U{0085}' || c == '\U{00A0}' || c == '\U{1680}' ||
    ('\U{2000}' <= c <= '\U{200A}') || c == '\U{2028}' || c == '\U{2029}' ||
    c == '\U{202F}' || c == '\U{205F}' || c == '\U{3000}'
  }

  /** The ten characters that always make a one-character token. */
  function SingleKind(c: char): Option<TokenKind> {
    match c
    case '(' => Some(LeftParen)
    case ')' => Some(RightParen)
    case '{' => Some(LeftBrace)
    case '}' => Some(RightBrace)
    case ',' => Some(Comma)
    case '.' => Some(Dot)
    case '-' => Some(Minus)
    case '+' => Some(Plus)
    case ';' => Some(SemiColon)
    case '*' => Some(Star)
    case _ => None
  }

  // ---------------------------------------------------------------------
  // Searches over the input

  /** Length of the longest prefix of ASCII digits. */
  function DigitRun(s: string): (n: nat)
    ensures n <= |s|
    ensures forall i :: 0 <= i < n ==> IsDigit(s[i])
    ensures n < |s| ==> !IsDigit(s[n])
  {
    if s == [] || !IsDigit(s[0]) then 0 else 1 + DigitRun(s[1..])
  }

  /** Length of the longest prefix of identifier characters. */
  function WordRun(s: string): (n: nat)
    ensures n <= |s|
    ensures forall i :: 0 <= i < n ==> IsWordChar(s[i])
    ensures n < |s| ==> !IsWordChar(s[n])
  {
    if s == [] || !IsWordChar(s[0]) then 0 else 1 + WordRun(s[1..])
  }

  /** Number of `'\n'` characters in `s`: at most one per character. */
  function Newlines(s: string): (n: nat)
    ensures n <= |s|
  {
    if s == [] then 0
    else
      assert s == s[..|s| - 1] + [s[|s| - 1]];
      Newlines(s[..|s| - 1]) + (if s[|s| - 1] == '\n' then 1 else 0)
  }

  /** The count is zero exactly when `s` holds no newline. */
  lemma {:induction false} NoNewlines(s: string)
    ensures Newlines(s) == 0 <==> '\n' !in s
  {
    if s != [] {
      NoNewlines(s[..|s| - 1]);
      assert s == s[..|s| - 1] + [s[|s| - 1]];
    }
  }

  /** Extending a range by one character counts that character's newline, if it is one. */
  lemma NewlinesExtend(s: string, j: nat, i: nat)
    requires j <= i < |s|
    ensures Newlines(s[j..i + 1]) == Newlines(s[j..i]) + (if s[i] == '\n' then 1 else 0)
  {
    assert s[j..i + 1][..i - j] == s[j..i];
  }

  /** Index of the first `'\n'` in `s`. */
  function FindNewline(s: string): (r: Option<nat>)
    ensures r.Some? ==> r.value < |s| && s[r.value] == '\n' && forall j :: 0 <= j < r.value ==> s[j] != '\n'
    ensures r.None? ==> forall j :: 0 <= j < |s| ==> s[j] != '\n'
  {
    if s == [] then None
    else if s[0] == '\n' then Some(0)
    else match FindNewline(s[1..])
      case Some(i) => Some(i + 1)
      case None => None
  }

  /** Index of the first `"` at or after `from`. */
  function FindQuote(s: string, from: nat): (r: Option<nat>)
    requires from <= |s|
    ensures r.Some? ==> from <= r.value < |s| && s[r.value] == '"'
    ensures r.Some? ==> forall j :: from <= j < r.value ==> s[j] != '"'
    ensures r.None? ==> forall j :: from <= j < |s| ==> s[j] != '"'
    decreases |s| - from
  {
    if from == |s| then None
    else if s[from] == '"' then Some(from)
    else FindQuote(s, from + 1)
  }

  /** A star-slash, the end of a block comment, starts at index `j` of `s`. */
  predicate ClosesAt(s: string, j: int) {
    0 <= j && j + 1 < |s| && s[j] == '*' && s[j + 1] == '/'
  }

  /** Index of the first `*` at or after `from` that is immediately followed by `/`. */
  function FindCommentEnd(s: string, from: nat): (r: Option<nat>)
    requires from <= |s|
    ensures r.Some? ==> from <= r.value && ClosesAt(s, r.value)
    ensures r.Some? ==> forall j :: from <= j < r.value ==> !ClosesAt(s, j)
    ensures r.None? ==> forall j :: from <= j ==> !ClosesAt(s, j)
    decreases |s| - from
  {
    if from + 1 >= |s| then None
    else if ClosesAt(s, from) then Some(from)
    else FindCommentEnd(s, from + 1)
  }

  // ---------------------------------------------------------------------
  // The sub-lexers, one step each

  /** One scanner step: nothing left, skipped input, a token, or an error, with the new `rest` and line. */
  datatype Step =
    | Done
    | Skip(rest: string, line: nat)
    | Emit(token: Token, rest: string, line: nat)
    | Fail(error: LexError, rest: string, line: nat)

  /** `line_comment` and `advance_line`: drop through the first newline, or everything. */
  function SkipLine(rest: string, line: nat): (r: (string, nat))
    ensures IsSuffix(r.0, rest) && r.1 >= line
  {
    match FindNewline(rest)
    case Some(i) => (rest[i + 1..], line + 1)
    case None => ([], line)
  }

  // `block_comment`, entered on slash-star: resume after the first later star-slash, counting the
  // newlines passed on the way.
  function BlockCommentStep(rest: string, line: nat): (s: Step)
    requires |rest| >= 2 && rest[0] == '/' && rest[1] == '*'
    ensures s.Skip? || s.Fail?
  {
    match FindCommentEnd(rest, 2)
    case Some(i) => Skip(rest[i + 2..], line + Newlines(rest[2..i]))
    case None => Fail(MissingBlockCommentTerminator, rest, line + Newlines(rest[2..]))
  }

  /** `string`, entered on `"`: the literal runs through the next `"`; no escapes. */
  function StringStep(rest: string, line: nat): (s: Step)
    requires |rest| >= 1 && rest[0] == '"'
    ensures s.Emit? || s.Fail?
  {
    match FindQuote(rest, 1)
    case Some(i) =>
      var l := line + Newlines(rest[1..i]);
      Emit(NewToken(String(rest[1..i]), Some(rest[..i + 1]), l), rest[i + 1..], l)
    case None => Fail(UnterminatedString, [], line + Newlines(rest[1..]))
  }

  /** Length of the number lexeme at the head of `s`: digits, then `.` and digits only if a digit follows the dot. */
  function NumberLength(s: string): (n: nat)
    ensures n <= |s|
  {
    var d := DigitRun(s);
    if d < |s| && s[d] == '.' && DigitRun(s[d + 1..]) > 0 then d + 1 + DigitRun(s[d + 1..]) else d
  }

  /** `number`, entered on a digit. */
  function NumberStep(rest: string, line: nat): (s: Step)
    requires |rest| >= 1 && IsDigit(rest[0])
    ensures s.Emit?
  {
    var n := NumberLength(rest);
    Emit(NewToken(Number(rest[..n]), Some(rest[..n]), line), rest[n..], line)
  }

  /** The token a finished identifier-shaped word becomes: a keyword without lexeme, else Identifier with it. */
  function WordToken(w: string, line: nat): (t: Token)
    ensures t.line == line
  {
    match KeywordKind(w)
    case Some(k) => NewToken(k, None, line)
    case None => NewToken(Identifier, Some(w), line)
  }

  /** `identifier`, entered on a letter or `_`. */
  function IdentifierStep(rest: string, line: nat): (s: Step)
    requires |rest| >= 1 && (IsAsciiAlpha(rest[0]) || rest[0] == '_')
    ensures s.Emit?
  {
    var n := WordRun(rest);
    Emit(WordToken(rest[..n], line), rest[n..], line)
  }

  /**
   * The arm of the dispatch `match` in `Scanner::next` (src/scanner/mod.rs:80-129)
   * that a character selects. The character classes the arms test are
   * disjoint, so the first matching arm is the only one.
   */
  datatype Arm =
    | SingleArm(kind: TokenKind)
    | PairArm(yes: TokenKind, no: TokenKind)
    | QuoteArm | SlashArm | DigitArm | SpaceArm | WordArm | OtherArm

  function ArmOf(c: char): (a: Arm)
    ensures SingleKind(c).Some? <==> a.SingleArm?
    ensures SingleKind(c).Some? ==> a == SingleArm(SingleKind(c).value)
    ensures TwoCharKinds(c).Some? <==> a.PairArm?
    ensures TwoCharKinds(c).Some? ==> a == PairArm(TwoCharKinds(c).value.0, TwoCharKinds(c).value.1)
    ensures c == '"' <==> a.QuoteArm?
    ensures c == '/' <==> a.SlashArm?
    ensures IsDigit(c) <==> a.DigitArm?
    ensures IsWhitespace(c) <==> a.SpaceArm?
    ensures IsAsciiAlpha(c) || c == '_' <==> a.WordArm?
  {
    if SingleKind(c).Some? then SingleArm(SingleKind(c).value)
    else if TwoCharKinds(c).Some? then PairArm(TwoCharKinds(c).value.0, TwoCharKinds(c).value.1)
    else if c == '"' then QuoteArm
    else if c == '/' then SlashArm
    else if IsDigit(c) then DigitArm
    else if IsWhitespace(c) then SpaceArm
    else if IsAsciiAlpha(c) || c == '_' then WordArm
    else OtherArm
  }

  /** One pass of the dispatch loop in `Scanner::next` (src/scanner/mod.rs:64-133). */
  function StepOf(rest: string, line: nat): (s: Step)
    ensures s.Done? <==> rest == []
    ensures !s.Done? ==> IsSuffix(s.rest, rest) && s.line >= line
    ensures s.Skip? || s.Emit? ==> |s.rest| < |rest|
  {
    if rest == [] then Done
    else
      match ArmOf(rest[0])
      case SingleArm(k) => Emit(NewToken(k, None, line), rest[1..], line)
      case PairArm(yes, no) =>
        if StartsWith(rest[1..], '=') then Emit(NewToken(yes, None, line), rest[2..], line)
        else Emit(NewToken(no, None, line), rest[1..], line)
      case QuoteArm => StringStep(rest, line)
      case SlashArm =>
        if StartsWith(rest[1..], '/') then
          var (r, l) := SkipLine(rest, line);
          Skip(r, l)
        else if StartsWith(rest[1..], '*') then BlockCommentStep(rest, line)
        else Emit(NewToken(Slash, None, line), rest[1..], line)
      case DigitArm => NumberStep(rest, line)
      case SpaceArm => Skip(rest[1..], if rest[0] == '\n' then line + 1 else line)
      case WordArm => IdentifierStep(rest, line)
      case OtherArm => Fail(InvalidCharacter(rest[0], line), rest, line)
  }

  /** What one call of `Scanner::next` returns, and the state it leaves. */
  datatype Scan = Scan(item: Option<Result<Token, LexError>>, rest: string, line: nat)

  /** `Scanner::next`: repeat steps while they only skip input. */
  function NextSpec(rest: string, line: nat): (n: Scan)
    ensures IsSuffix(n.rest, rest) && n.line >= line
    ensures n.item.Some? && n.item.value.Success? ==> |n.rest| < |rest|
    decreases |rest|
  {
    match StepOf(rest, line)
    case Done => Scan(None, rest, line)
    case Skip(r, l) =>
      var n := NextSpec(r, l);
      SuffixTrans(n.rest, r, rest);
      n
    case Emit(t, r, l) => Scan(Some(Success(t)), r, l)
    case Fail(e, r, l) => Scan(Some(Failure(e)), r, l)
  }

  /** The state from which `next` takes its deciding step: `rest` after all leading whitespace and comments. */
  function Settled(rest: string, line: nat): (r: (string, nat))
    decreases |rest|
  {
    match StepOf(rest, line)
    case Skip(r, l) => Settled(r, l)
    case _ => (rest, line)
  }
}
