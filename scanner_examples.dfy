/**
 * Concrete inputs and what one call of `next` makes of them. Each lemma
 * takes its input as a parameter fixed by its precondition and is proved
 * from the general lemmas of ScannerProperties; the `rest` it leaves is the
 * input of the next example in a chain.
 */
module ScannerExamples {
  import opened Wrappers
  import opened Tokens
  import opened ScannerSpec
  import opened ScannerProperties

  /** `!!=` starts with Bang, not BangEqual; `!=` is left. */
  lemma BangThenBangEqual(s: string)
    requires s == "!!="
    ensures NextSpec(s, 1) == Scan(Some(Success(Token(Bang, None, 1))), s[1..], 1)
    ensures NextSpec(s[1..], 1) == Scan(Some(Success(Token(BangEqual, None, 1))), [], 1)
  {
    OneCharacterPrefixToken(s, 1);
    TwoCharacterToken(s[1..], 1);
  }

  /** `12.34.56.78`: a number takes one dot followed by a digit; the next dot is a Dot token. */
  lemma DottedNumbers(s: string)
    requires s == "12.34.56.78"
    ensures NextSpec(s, 1) == Scan(Some(Success(Token(Number("12.34"), Some("12.34"), 1))), ".56.78", 1)
  {
    DigitRunIs(s, 2);
    DigitRunIs(s[3..], 2);
    assert NumberLength(s) == 5 && s[..5] == "12.34" && s[5..] == ".56.78";
    NumberToken(s, 1);
  }

  /** After the Dot, `56.78` is the second number. */
  lemma DottedNumbersRest(s: string)
    requires s == ".56.78"
    ensures NextSpec(s, 1) == Scan(Some(Success(Token(Dot, None, 1))), s[1..], 1) && s[1..] == "56.78"
  {
    SingleCharacterToken(s, 1);
  }

  lemma SecondNumber(s: string)
    requires s == "56.78"
    ensures NextSpec(s, 1) == Scan(Some(Success(Token(Number("56.78"), Some("56.78"), 1))), [], 1)
  {
    DigitRunIs(s, 2);
    DigitRunIs(s[3..], 2);
    assert NumberLength(s) == 5 && s[..5] == s && s[5..] == [];
    NumberToken(s, 1);
  }

  /** `123e45`: there are no exponents, so a number and then an identifier. */
  lemma NoExponent(s: string)
    requires s == "123e45"
    ensures NextSpec(s, 1) == Scan(Some(Success(Token(Number("123"), Some("123"), 1))), s[3..], 1) && s[3..] == "e45"
  {
    DigitRunIs(s, 3);
    assert NumberLength(s) == 3 && s[..3] == "123";
    NumberToken(s, 1);
  }

  lemma ExponentAsIdentifier(s: string)
    requires s == "e45"
    ensures NextSpec(s, 1) == Scan(Some(Success(Token(Identifier, Some("e45"), 1))), [], 1)
  {
    assert s == s + [];
    WordReadWhole(s, [], 1);
  }

  /** `12.3.4`: the second dot ends the number, then a Dot and a one-digit number follow. */
  lemma SecondDotEndsNumber(s: string)
    requires s == "12.3.4"
    ensures NextSpec(s, 1) == Scan(Some(Success(Token(Number("12.3"), Some("12.3"), 1))), s[4..], 1)
    ensures s[4..] == ".4"
  {
    DigitRunIs(s, 2);
    DigitRunIs(s[3..], 1);
    assert NumberLength(s) == 4 && s[..4] == "12.3";
    NumberToken(s, 1);
  }

  lemma SecondDotRest(s: string)
    requires s == ".4"
    ensures NextSpec(s, 1) == Scan(Some(Success(Token(Dot, None, 1))), "4", 1)
  {
    SingleCharacterToken(s, 1);
    assert s[1..] == "4";
  }

  lemma LastDigit(s: string)
    requires s == "4"
    ensures NextSpec(s, 1) == Scan(Some(Success(Token(Number("4"), Some("4"), 1))), [], 1)
  {
    DigitRunIs(s, 1);
    assert NumberLength(s) == 1 && s[..1] == "4" && s[1..] == [];
    NumberToken(s, 1);
  }

  /** `12_34`: digit separators do not exist, so a number and then the identifier `_34`. */
  lemma NoDigitSeparator(s: string)
    requires s == "12_34"
    ensures NextSpec(s, 1) == Scan(Some(Success(Token(Number("12"), Some("12"), 1))), "_34", 1)
  {
    DigitRunIs(s, 2);
    assert NumberLength(s) == 2 && s[..2] == "12" && s[2..] == "_34";
    NumberToken(s, 1);
  }

  lemma UnderscoreIdentifier(s: string)
    requires s == "_34"
    ensures NextSpec(s, 1) == Scan(Some(Success(Token(Identifier, Some("_34"), 1))), [], 1)
  {
    assert s == s + [];
    WordReadWhole(s, [], 1);
  }

  /** `12.`: a dot with no digit after it is not part of the number. */
  lemma TrailingDot(s: string)
    requires s == "12."
    ensures NextSpec(s, 1) == Scan(Some(Success(Token(Number("12"), Some("12"), 1))), ".", 1)
  {
    DigitRunIs(s, 2);
    assert NumberLength(s) == 2 && s[..2] == "12" && s[2..] == ".";
    NumberToken(s, 1);
  }

  /** A reserved word is only a keyword when it is the whole word. */
  lemma WholeKeyword(s: string)
    requires s == "class"
    ensures NextSpec(s, 1) == Scan(Some(Success(Token(Class, None, 1))), [], 1)
  {
    assert s == s + [];
    WordReadWhole(s, [], 1);
  }

  lemma KeywordPrefix(s: string)
    requires s == "classes"
    ensures NextSpec(s, 1) == Scan(Some(Success(Token(Identifier, Some("classes"), 1))), [], 1)
  {
    assert s == s + [] && KeywordKind(s).None?;
    WordReadWhole(s, [], 1);
  }

  /** A comment alone yields nothing. */
  lemma CommentOnly(s: string)
    requires s == "// This is a comment"
    ensures NextSpec(s, 1) == Scan(None, [], 1)
  {
    LineCommentAtEnd(s, 1);
  }

  // A slash, a star and a slash do not make a closed comment: the star of the opener cannot also close it.
  lemma SlashStarSlash(s: string)
    requires s == "/*/"
    ensures NextSpec(s, 1) == Scan(Some(Failure(MissingBlockCommentTerminator)), s, 1)
  {
    UnterminatedBlockComment(s, 1);
    assert s[2..] == "/";
    assert Newlines("/") == 0;
  }

  /** A string spanning lines is reported on the line of its closing quote. */
  lemma MultiLineString(s: string)
    requires s == "\"a\nb\nc\""
    ensures NextSpec(s, 1) == Scan(Some(Success(Token(String("a\nb\nc"), Some(s), 3))), [], 3)
  {
    var t := s[1..6];
    assert t == "a\nb\nc" && s[..7] == s && s[7..] == [];
    assert Newlines(t[..1]) == 0;
    assert Newlines(t[..2]) == 1 by { assert t[..2][..1] == t[..1]; }
    assert Newlines(t[..3]) == 1 by { assert t[..3][..2] == t[..2]; }
    assert Newlines(t[..4]) == 2 by { assert t[..4][..3] == t[..3]; }
    assert Newlines(t) == 2 by { assert t[..4] == t[..|t| - 1]; }
    StringLiteralToken(s, 1, 6);
  }

  /** A character outside the language is an error carrying the character and its line. */
  lemma AtSign(s: string)
    requires s == "\n@"
    ensures NextSpec(s, 1) == NextSpec(s[1..], 2) && s[1..] == "@"
  {
    WhitespaceSkipped(s, 1);
  }

  lemma AtSignReported(s: string)
    requires s == "@"
    ensures NextSpec(s, 2) == Scan(Some(Failure(InvalidCharacter('@', 2))), s, 2)
  {
    InvalidCharacterReported(s, 2);
  }

  /**
   * The scanner has no arm for `?` or `:`: each is an invalid character, and
   * since it is not consumed, every later call reports it again.
   */
  lemma TernaryPunctuationReported(s: string)
    requires s == "?" || s == ":"
    ensures NextSpec(s, 1) == Scan(Some(Failure(InvalidCharacter(s[0], 1))), s, 1)
  {
    InvalidCharacterReported(s, 1);
  }
}
