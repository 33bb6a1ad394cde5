# lox-rs front end in Dafny

This project models the front end of lox-rs, an interpreter for the Lox
language written in Rust:

- the **scanner** turns source text into tokens. It handles single- and
  two-character operators, string and number literals, identifiers and the
  sixteen keywords, whitespace, line comments and block comments, and three
  lexical errors;
- the **terminal validators** decide which token kinds an expression may use
  as a unary operator, as a binary operator of each precedence level, or as a
  literal. The two older generations of validators that still sit in the
  tree are modelled beside them;
- the **expression tree** has a prefix printer and a Reverse Polish printer;
- the **recursive-descent parser** has seven precedence levels (comma,
  ternary, comparison, term, factor, unary, primary). Every call returns no
  expression, an expression, or an error carrying the partial parse.

Each part takes the form the Rust code has:

- The scanner is a class. Its fields are `source`, `rest` (the unconsumed
  suffix) and `line`, and its sub-lexers are methods. Every method is proved
  to compute one step function of `ScannerSpec`. `Scanner.Scanner.Next` is
  the `loop`/`continue` dispatch of `Iterator::next`, proved equal to
  `ScannerSpec.NextSpec`. The lemmas of `ScannerProperties` state over those
  functions what the scanner promises: maximal munch, line counting, and
  what each error leaves behind.
- The validators, the tree and the printers are datatypes and functions.
- The parser is a class holding `tokens` and a cursor `pos`. Each rule is a
  method, proved to return what the matching pure function of `ParserSpec`
  returns from the position where the method started. That includes where it
  leaves the cursor.
- `ParserProperties` proves, by the rules' own mutual recursion, two facts
  about every successful parse:
  - the tree spells exactly the tokens consumed, with parentheses, `?` and
    `:` restored;
  - it respects precedence, left associativity of the binary operators, and
    right associativity of `?:`.

Concrete examples follow the repository's tests. They use the scanner inputs
of src/scanner, the printer cases of src/expr/formatter.rs, and the parser
inputs of src/parser, including the mixed-precedence test of
src/parser/mod.rs.

The code is in mid-refactor, and the model settles it as follows:

- src/expr/mod.rs builds its tree from the older validators. The parser
  hands it the terminal ones (src/parser/comma.rs:20). With the older binary
  operator, which rejects Comma, every comma expression would fail that
  `unwrap`. The tree here uses the terminal validators (`Ast.Expr`).
- The parser builds a `Ternary` node (src/parser/ternary.rs:49) that
  src/expr/mod.rs does not declare. `Ast.Expr` has that variant.
- The ternary validators use `Question` and `Colon` token kinds
  (src/expr/terminal/ternary_then_operator.rs:15,
  src/expr/terminal/ternary_else_operator.rs:15) that src/token.rs does not
  list. `Tokens.TokenKind` has them. The scanner still has no arm that
  produces them, as in the source (`ScannerExamples.TernaryPunctuationReported`).
- The scanner's tests compare against a `Number(f64)` kind
  (src/scanner/number.rs:90-112) that src/token.rs does not list either.
  `Tokens.TokenKind` has `Number` carrying the lexeme text.

## Model

| member | source | states |
|---|---|---|
| Tokens.NewToken | src/token.rs:9-11 | the token has exactly the kind, lexeme and line it was given |
| Tokens.KeywordSpelling | src/token.rs:45-61 | every keyword kind has a reserved spelling of at least two letters |
| Tokens.KeywordKind | src/scanner/identifier.rs:17-34 | a word maps to a keyword kind only if it is that keyword's spelling |
| Tokens.KeywordRoundTrip | src/scanner/identifier.rs:17-33 | each of the sixteen keyword kinds is recovered from its own spelling |
| Tokens.SixteenKeywords | src/token.rs:45-61 | there are exactly sixteen keyword kinds, pairwise distinct, and they are exactly the kinds `IsKeyword` names |
| Tokens.TwoCharKinds | src/scanner/mod.rs:95-98 | each of `!`, `=`, `<`, `>` has a two-character kind distinct from its one-character kind |
| Tokens.TwoCharKindsDistinct | src/token.rs:31-38 | different leading characters give different two-character kinds and different one-character kinds |
| ScannerSpec.SuffixDrop | src/scanner/mod.rs:14-21 | helper, for the proofs only: dropping a prefix of a suffix of `source` leaves a suffix of `source` |
| ScannerSpec.SuffixTrans | src/scanner/mod.rs:14-21 | helper, for the proofs only: a suffix of a suffix is a suffix |
| ScannerSpec.IsWhitespace | src/scanner/mod.rs:121 | `char::is_whitespace`: the newline is whitespace, and no digit, word character, quote, slash, one-character token or `=`-pair operator is, so the whitespace arm overlaps no other arm |
| ScannerSpec.Newlines | src/scanner/string.rs:23-27 | the number of newlines the sub-lexers add to `line` for a stretch of input: at most one per character |
| ScannerSpec.NoNewlines | src/scanner/block_comment.rs:17-21 | the line stays put over a stretch exactly when it holds no newline |
| ScannerSpec.NewlinesExtend | src/scanner/string.rs:23-27 | helper, for the proofs only: one more character adds one to the count exactly when it is a newline |
| ScannerSpec.DigitRun | src/scanner/number.rs:9-12 | the run is all digits, and the character after it, if any, is not a digit |
| ScannerSpec.WordRun | src/scanner/identifier.rs:10-13 | the run is all ASCII letters, digits or `_`, and the character after it is not |
| ScannerSpec.FindNewline | src/scanner/line_comment.rs:7 | the index of the first newline, or none when there is no newline |
| ScannerSpec.FindQuote | src/scanner/string.rs:13-29 | the index of the first `"` at or after the start, or none when there is none |
| ScannerSpec.FindCommentEnd | src/scanner/block_comment.rs:11-25 | the first star-slash pair at or after the start, or none when there is none |
| ScannerSpec.SkipLine | src/scanner/line_comment.rs:6-13 | what is left is a suffix of the input, and the line never goes down |
| ScannerSpec.BlockCommentStep | src/scanner/block_comment.rs:10-33 | a block comment is either skipped or reported as unterminated; it never makes a token |
| ScannerSpec.StringStep | src/scanner/string.rs:7-34 | a string literal either makes a token or is reported as unterminated |
| ScannerSpec.NumberLength | src/scanner/number.rs:7-57 | the number lexeme never extends past the input |
| ScannerSpec.NumberStep | src/scanner/number.rs:7-57 | a digit always starts a Number token |
| ScannerSpec.WordToken | src/scanner/identifier.rs:17-34 | the word's token is on the current line |
| ScannerSpec.IdentifierStep | src/scanner/identifier.rs:9-36 | a letter or `_` always starts a token |
| ScannerSpec.StepOf | src/scanner/mod.rs:64-133 | one pass of the dispatch ends exactly when the input is empty. Otherwise it leaves a suffix of the input and a line no lower, and a skip or a token consumes at least one character |
| ScannerSpec.ArmOf | src/scanner/mod.rs:81-128 | the arm of the dispatch a character selects: a one-character kind, a kind pair for `!`, `=`, `<`, `>`, the quote, slash, digit, whitespace and word arms each exactly for their characters |
| ScannerSpec.NextSpec | src/scanner/mod.rs:64-133 | `next` leaves a suffix of the input and a line no lower, and a token always consumes input |
| Scanner.Scanner.constructor | src/scanner/mod.rs:24-26 | a new scanner has all of `source` still to scan and is on line 1 |
| Scanner.Scanner.Just | src/scanner/mod.rs:39-41 | a token of the kind, with no lexeme, on the current line |
| Scanner.Scanner.WithLexeme | src/scanner/mod.rs:42-44 | a token of the kind, with the lexeme, on the current line |
| Scanner.Scanner.AdvanceLine | src/scanner/mod.rs:30-37 | the state becomes `SkipLine` of the old state: after the first newline with the line one higher, or at the end on the same line |
| Scanner.Scanner.LineComment | src/scanner/line_comment.rs:6-13 | the same skip as `advance_line`, entered on a double slash |
| Scanner.Scanner.SkipThroughNewline | src/scanner/line_comment.rs:7-12 | the loop that finds the newline computes `SkipLine` of the old state |
| Scanner.Scanner.Single | src/scanner/mod.rs:48-51 | consumes exactly one character and returns a token of the kind, with no lexeme, on the unchanged line |
| Scanner.Scanner.IfNextElse | src/scanner/mod.rs:70-79 | with the expected character next, consumes two characters and returns the `yes` kind. Otherwise consumes one and returns the `no` kind |
| Scanner.Scanner.Whitespace | src/scanner/mod.rs:53-58 | consumes one character; the line goes up by one exactly when that character is a newline |
| Scanner.Scanner.BlockComment | src/scanner/block_comment.rs:10-33 | the new state and the outcome are those of `BlockCommentStep` on the old state |
| Scanner.Scanner.StringLiteral | src/scanner/string.rs:7-34 | the new state and the outcome are those of `StringStep` on the old state |
| Scanner.Scanner.DigitsEnd | src/scanner/number.rs:9 | the loop stops at the first non-digit, or at the end, which is `DigitRun` |
| Scanner.Scanner.NumberLexeme | src/scanner/number.rs:9-46 | the lexeme chosen by the two digit searches and the dot test is the prefix of length `NumberLength` |
| Scanner.Scanner.Number | src/scanner/number.rs:7-57 | the new state and the token are those of `NumberStep` on the old state |
| Scanner.Scanner.Identifier | src/scanner/identifier.rs:9-36 | the new state and the token are those of `IdentifierStep` on the old state |
| Scanner.Scanner.Pass | src/scanner/mod.rs:66-131 | one pass of the loop performs the step `StepOf` gives for the old state, and asks for another pass exactly when that step only skips input |
| Scanner.Scanner.Next | src/scanner/mod.rs:64-133 | the result and the new state are `NextSpec` of the old state; `rest` stays a suffix of `source` and the line never goes down |
| ScannerProperties.EmptyInputEnds | src/scanner/mod.rs:141-147 | empty input yields `None` and leaves the state unchanged |
| ScannerProperties.NoneIffSettledEmpty | src/scanner/mod.rs:64-68 | `next` returns `None` exactly when nothing is left after skipping whitespace and comments |
| ScannerProperties.SkipStep | src/scanner/mod.rs:108-124 | after a `continue`, `next` returns what it returns from the state the skip reached |
| ScannerProperties.InvalidCharacterRepeats | src/scanner/mod.rs:128 | an invalid character is not consumed, so the next call reports the same error again |
| ScannerProperties.UnterminatedStringEndsInput | src/scanner/string.rs:30-33 | after an unterminated string, the next call returns `None` |
| ScannerProperties.UnterminatedBlockCommentRepeats | src/scanner/block_comment.rs:27-32 | an unterminated block comment consumes nothing, so the next call reports it again |
| ScannerProperties.SingleCharacterToken | src/scanner/mod.rs:83-92 | each of the ten one-character tokens consumes one character and carries no lexeme and the current line |
| ScannerProperties.TwoCharacterToken | src/scanner/mod.rs:95-98 | `!`, `=`, `<`, `>` followed by `=` give the two-character kind and consume two characters |
| ScannerProperties.OneCharacterPrefixToken | src/scanner/mod.rs:95-98 | without a following `=`, they give the one-character kind and consume one character |
| ScannerProperties.SlashToken | src/scanner/mod.rs:106-117 | a slash followed by neither slash nor star is the Slash token |
| ScannerProperties.WhitespaceSkipped | src/scanner/mod.rs:121-124 | whitespace is skipped, and only a newline moves the line, by one |
| ScannerProperties.LineCommentSkipped | src/scanner/line_comment.rs:7-9 | scanning resumes after the comment's newline, one line further on |
| ScannerProperties.LineCommentAtEnd | src/scanner/line_comment.rs:10-11 | a comment with no newline ends the scan on the same line |
| ScannerProperties.BlockCommentSkipped | src/scanner/block_comment.rs:11-28 | scanning resumes after the first later star-slash, with the comment's newlines counted |
| ScannerProperties.UnterminatedBlockComment | src/scanner/block_comment.rs:27-32 | without a terminator, the error leaves `rest` unchanged and counts the newlines anyway |
| ScannerProperties.NewlinesAppend | src/scanner/block_comment.rs:17-21 | helper, for the proofs only: newline counts add up over concatenation |
| ScannerProperties.StringLiteralToken | src/scanner/string.rs:11-26 | the lexeme runs through the closing quote, the payload is the text between the quotes, and the token is on the closing quote's line |
| ScannerProperties.UnterminatedStringLiteral | src/scanner/string.rs:30-33 | without a closing quote, the error empties `rest` and counts the newlines passed |
| ScannerProperties.InvalidCharacterReported | src/scanner/mod.rs:128 | a character that starts nothing is reported with the current line and is not consumed |
| ScannerProperties.NumberIsLongestMatch | src/scanner/number.rs:9-48 | the number lexeme has the shape digits, optionally `.` and digits, and no longer prefix has that shape |
| ScannerProperties.DigitRunIs | src/scanner/number.rs:9-12 | the digit run is exactly where the digits stop |
| ScannerProperties.NumberToken | src/scanner/number.rs:17-57 | the token's kind and lexeme hold the same text, `rest` loses exactly that text, and the line is unchanged |
| ScannerProperties.WordReadWhole | src/scanner/identifier.rs:10-34 | a whole word is one token: its keyword kind without a lexeme, or Identifier with the word |
| ScannerProperties.WordStep | src/scanner/mod.rs:126 | a letter or `_` dispatches to the identifier sub-lexer |
| ScannerProperties.ReservedWordsAreKeywords | src/scanner/identifier.rs:17-33 | each reserved word, ending where a word ends, lexes to its keyword kind |
| ScannerExamples.BangThenBangEqual | src/scanner/mod.rs:174-195 | `!!=` gives Bang, then BangEqual |
| ScannerExamples.DottedNumbers | src/scanner/number.rs:106-108 | `12.34.56.78` starts with Number `12.34` and leaves `.56.78` |
| ScannerExamples.DottedNumbersRest | src/scanner/number.rs:106-108 | then a Dot |
| ScannerExamples.SecondNumber | src/scanner/number.rs:106-108 | then Number `56.78` |
| ScannerExamples.NoExponent | src/scanner/number.rs:102-103 | `123e45` starts with Number `123` |
| ScannerExamples.ExponentAsIdentifier | src/scanner/number.rs:102-103 | and `e45` is an identifier |
| ScannerExamples.SecondDotEndsNumber | src/scanner/number.rs:139-144 | `12.3.4` starts with Number `12.3` and leaves `.4` |
| ScannerExamples.SecondDotRest | src/scanner/number.rs:139-144 | `.4` is a Dot, then Number `4` |
| ScannerExamples.LastDigit | src/scanner/number.rs:143 | `4` at the end of the input is Number `4` and ends the input |
| ScannerExamples.NoDigitSeparator | src/scanner/number.rs:104-105 | `12_34` is Number `12`, then Identifier `_34` |
| ScannerExamples.UnderscoreIdentifier | src/scanner/number.rs:105 | `_34` is one Identifier token with that lexeme |
| ScannerExamples.TrailingDot | src/scanner/number.rs:94-95 | `12.` is Number `12`, leaving the dot |
| ScannerExamples.WholeKeyword | src/scanner/identifier.rs:17-19 | the whole word `class` is the Class keyword, with no lexeme |
| ScannerExamples.KeywordPrefix | src/scanner/identifier.rs:10-17 | `class` is the keyword, `classes` an identifier |
| ScannerExamples.CommentOnly | src/scanner/line_comment.rs:23-29 | a line comment alone scans to `None` |
| ScannerExamples.SlashStarSlash | src/scanner/block_comment.rs:15-23 | slash, star, slash is an unterminated comment |
| ScannerExamples.MultiLineString | src/scanner/string.rs:58-82 | a three-line string literal is reported on line 3 |
| ScannerExamples.AtSign | src/scanner/mod.rs:121-124 | the newline before `@` is skipped and counted |
| ScannerExamples.AtSignReported | src/scanner/mod.rs:128 | `@` is an invalid character reported on its line and not consumed |
| ScannerExamples.TernaryPunctuationReported | src/scanner/mod.rs:81-128 | `?` and `:` fall to the invalid-character arm: the error carries the character and the line, and nothing is consumed |
| Terminals.Matches | src/expr/terminal/mod.rs:33 | `matches` of each category, on the kind alone; its properties are stated by MatchesOnlyByKind, BinaryIsUnionOfOperatorCategories, NotBinary, UnaryTermOverlap, OperatorCategoriesDisjoint, IdentifierIsNotLiteral and the ensures of TryFrom |
| Terminals.IntoToken | src/expr/terminal/mod.rs:34-36 | `into_token` hands back a token that validates again, in the same category, to the same value |
| Terminals.ErrorOf | src/expr/error.rs:8-27 | every validator error carries the rejected token unchanged |
| Terminals.ErrorVariantPerCategory | src/expr/error.rs:8-27 | each category has its own error variant, and an error identifies both its category and its token |
| Terminals.TryFrom | src/expr/terminal/mod.rs:25-37 | succeeds exactly when `matches` holds and keeps the token. Otherwise fails with that category's error carrying the token |
| Terminals.TryFromIntoToken | src/expr/terminal/mod.rs:34-36 | converting back after a successful `try_from` gives the original token |
| Terminals.MatchesOnlyByKind | src/expr/terminal/mod.rs:33 | acceptance depends on the token's kind alone |
| Terminals.BinaryIsUnionOfOperatorCategories | src/expr/terminal/binary_operator.rs:14-21 | Binary is exactly the union of Comma, Comparison, Term and Factor, which is eleven kinds |
| Terminals.NotBinary | src/expr/terminal/binary_operator.rs:14-21 | Bang, Dot and the literal kinds are not binary operators |
| Terminals.UnaryTermOverlap | src/expr/terminal/term_operator.rs:14-17 | Minus, and no other kind, is both a unary and a term operator |
| Terminals.OperatorCategoriesDisjoint | src/expr/terminal/comparision_operator.rs:14-25 | Comparison, Term, Factor and Comma are pairwise disjoint |
| Terminals.IdentifierIsNotLiteral | src/expr/terminal/literal.rs:11-22 | Identifier, `?` and `:` are neither literals nor binary operators |
| Terminals.IntoBinary | src/expr/terminal/binary_operator.rs:55-71 | a Comparison, Term or Factor operator becomes a binary operator wrapping the same token, with no check. For Comma it stands in for the checked conversion of src/parser/comma.rs:20, which always succeeds because Comma is a binary kind |
| LegacyOperators.BinaryTryFrom | src/expr/binary_operator.rs:28-45 | accepts exactly the terminal binary kinds except Comma and keeps the token. Otherwise fails with the BinaryOperator error carrying the token |
| LegacyOperators.LiteralTryFrom | src/expr/literal.rs:28-41 | accepts exactly the terminal literal kinds and keeps the token. Otherwise fails with the Literal error carrying the token |
| LegacyOperators.UnaryTryFrom | src/expr/unary_operator.rs:31-40 | accepts exactly the terminal unary kinds and keeps the token. Otherwise fails with the UnaryOperator error carrying the token |
| LegacyOperators.CommaOnlyInTerminalBinary | src/expr/binary_operator.rs:43 | a Comma token is a terminal binary operator but the older validator rejects it |
| LegacyOperators.RejectedKinds | src/expr/literal.rs:38 | Identifier is not a literal; `!` is unary, not binary |
| OrphanOperators.BinaryTryFrom | src/expr/operators/binary_operator.rs:27-45 | accepts what the older binary validator accepts and keeps the token. Otherwise fails with the payload-less `InvalidBinaryOperator` |
| OrphanOperators.UnaryTryFrom | src/expr/operators/unary_operator.rs:27-36 | accepts what the older unary validator accepts and keeps the token. Otherwise fails with the payload-less `InvalidUnaryOperator` |
| OrphanOperators.RejectionForgetsToken | src/expr/operators/binary_operator.rs:42 | all rejections give the same error, whereas the older validator's errors tell different tokens apart |
| Ast.Size | src/expr/mod.rs:15-20 | every child of a node is strictly smaller than the node |
| Ast.Spelled | src/expr/mod.rs:15-20 | every tree is spelled with at least one token |
| Formatter.TokenText | src/expr/terminal/binary_operator.rs:73-77 | an operator or literal prints as its token: the lexeme when there is one; otherwise a fixed spelling that the scanner reads back as the same kind, for keywords, one-character kinds and `=`-pair operators |
| Formatter.Prefix | src/expr/formatter.rs:5-18 | `AstFormatter`: every node but a literal is printed inside one pair of parentheses; ParenthesesCount shows that the pairs balance, and the FormatterExamples give the test outputs |
| Formatter.Rpn | src/expr/formatter.rs:20-33 | `RpnFormatter`: a binary operator is printed after both operands and a unary one before its operand; RpnIgnoresGrouping shows that groupings leave no trace |
| Formatter.StripGroupings | src/expr/formatter.rs:28 | removing groupings leaves no grouping, keeps ternaries, and changes nothing in a tree without groupings |
| Formatter.RpnIgnoresGrouping | src/expr/formatter.rs:20-33 | the Reverse Polish form is the same with every grouping removed |
| Formatter.Count | src/expr/formatter.rs:5-18 | helper, for the proofs only: a character count never exceeds the length |
| Formatter.CountAppend | src/expr/formatter.rs:5-18 | helper, for the proofs only: counts add up over concatenation |
| Formatter.ParenthesesCount | src/expr/formatter.rs:5-33 | with tokens that print no parentheses, the prefix form has one `(` and one `)` per binary, unary and grouping node, and the Reverse Polish form has none |
| Formatter.BinaryBalanced | src/expr/formatter.rs:8-27 | a binary node adds one `(` and one `)` to its operands' prefix forms and none to their Reverse Polish forms |
| Formatter.GroupingBalanced | src/expr/formatter.rs:11-28 | a grouping adds one `(` and one `)` to the prefix form and nothing to the Reverse Polish form |
| Formatter.UnaryBalanced | src/expr/formatter.rs:12-29 | a unary node adds one `(` and one `)` to the prefix form and none to the Reverse Polish form |
| FormatterExamples.PrintBinary | src/expr/formatter.rs:41-58 | `1 + 2` prints as `(+ 1 2)` and `1 2 +` |
| FormatterExamples.PrintUnary | src/expr/formatter.rs:60-77 | `-2` prints as `(- 2)` and `-2` |
| FormatterExamples.PrintGrouping | src/expr/formatter.rs:79-95 | `(45.67)` prints as `(group 45.67)` and `45.67` |
| FormatterExamples.PrintLiteral | src/expr/formatter.rs:97-111 | a literal prints as its lexeme in both forms |
| FormatterExamples.PrintMixed | src/expr/formatter.rs:113-136 | `-123 * (45.67)` prints as `(* (- 123) (group 45.67))` |
| FormatterExamples.MixedPrefixParts | src/expr/formatter.rs:8-15 | the prefix form of that tree is `(`, `*`, the two operands' forms and `)`, joined by spaces |
| FormatterExamples.PrintMixedRpn | src/expr/formatter.rs:113-136 | the same tree prints as `-123 45.67 *` in Reverse Polish form |
| ParserSpec.ParseResult.IsFailure | src/parser/macros.rs:2-9 | `expr_or_return!` returns on `None` and on an error, and only then |
| ParserSpec.ParseResult.PropagateFailure | src/parser/macros.rs:2-9 | what it returns is the outcome unchanged: `None` stays `None`, an error keeps its error |
| ParserSpec.ParseResult.Extract | src/parser/macros.rs:2-9 | the expression it continues with, which wrapped again is the outcome |
| ParserSpec.At | src/parser/factor.rs:16-19 | `next_if` with a category's `matches`; a token it lets through always converts into that category, so the `try_into` with `unwrap` or `expect` after it never fails |
| ParserSpec.AtKind | src/parser/primary.rs:16 | `next_if` on a kind; a `(` is never a literal, so the literal test and the `(` test of `primary` never both succeed |
| ParserSpec.KindsBetween | src/parser/mod.rs:21 | helper, for the proofs only: the kinds of the tokens in a range, one per token |
| ParserSpec.KindsSplit | src/parser/mod.rs:21 | helper, for the proofs only: the kinds of adjacent ranges concatenate |
| ParserSpec.Fold | src/parser/term.rs:23 | a fold step builds a binary node of the accumulator, the operator token and the operand |
| ParserSpec.Expression | src/parser/expression.rs:9-11 | the cursor never moves back or past the end, and a parsed expression consumes at least one token |
| ParserSpec.Comma | src/parser/comma.rs:16-27 | the same cursor bounds for `comma` |
| ParserSpec.CommaLoop | src/parser/comma.rs:19-24 | the loop never moves the cursor back or past the end |
| ParserSpec.Ternary | src/parser/ternary.rs:15-53 | the same cursor bounds for `ternary` |
| ParserSpec.TernaryBranches | src/parser/ternary.rs:18-49 | the same cursor bounds once `?` has been consumed |
| ParserSpec.Comparison | src/parser/comparison.rs:13-24 | the same cursor bounds for `comparison` |
| ParserSpec.ComparisonLoop | src/parser/comparison.rs:16-21 | the loop never moves the cursor back or past the end |
| ParserSpec.Term | src/parser/term.rs:13-26 | the same cursor bounds for `term` |
| ParserSpec.TermLoop | src/parser/term.rs:16-23 | the loop never moves the cursor back or past the end |
| ParserSpec.Factor | src/parser/factor.rs:13-26 | the same cursor bounds for `factor` |
| ParserSpec.FactorLoop | src/parser/factor.rs:16-23 | the loop never moves the cursor back or past the end |
| ParserSpec.Unary | src/parser/unary.rs:13-24 | the same cursor bounds for `unary` |
| ParserSpec.Primary | src/parser/primary.rs:9-30 | returns `None` exactly when the cursor holds neither a literal nor `(`, and then consumes nothing |
| Parser.Parser.constructor | src/parser/mod.rs:28-30 | the cursor is at the first token |
| Parser.Parser.Next | src/parser/mod.rs:39-41 | one call is `expression` from where the previous call left the cursor |
| Parser.Parser.Expression | src/parser/expression.rs:9-11 | outcome and new cursor are `ParserSpec.Expression` from the old cursor |
| Parser.Parser.Comma | src/parser/comma.rs:16-27 | outcome and new cursor are `ParserSpec.Comma` from the old cursor |
| Parser.Parser.Ternary | src/parser/ternary.rs:15-53 | outcome and new cursor are `ParserSpec.Ternary` from the old cursor |
| Parser.Parser.Comparison | src/parser/comparison.rs:13-24 | outcome and new cursor are `ParserSpec.Comparison` from the old cursor |
| Parser.Parser.Term | src/parser/term.rs:13-26 | outcome and new cursor are `ParserSpec.Term` from the old cursor |
| Parser.Parser.Factor | src/parser/factor.rs:13-26 | outcome and new cursor are `ParserSpec.Factor` from the old cursor |
| Parser.Parser.Unary | src/parser/unary.rs:13-24 | outcome and new cursor are `ParserSpec.Unary` from the old cursor |
| Parser.Parser.Primary | src/parser/primary.rs:9-30 | outcome and new cursor are `ParserSpec.Primary` from the old cursor |
| ParserProperties.LeftFoldStep | src/parser/term.rs:16-23 | a left fold over a one-step fold is a left fold over the step's accumulator |
| ParserProperties.FoldSpelled | src/parser/term.rs:16-23 | one turn of a fold loop spells the accumulator, the operator and the operand in order |
| ParserProperties.FoldTurnSound | src/parser/term.rs:16-23 | one turn of a Comparison, Term, Factor or Comma loop keeps the loop sound: if the rest of the loop left-folds soundly from the new accumulator, the loop does from the old one |
| ParserProperties.ExpressionSound | src/parser/expression.rs:9-11 | a parsed expression spells exactly the tokens consumed and is well nested |
| ParserProperties.CommaSound | src/parser/comma.rs:16-27 | the same for `comma` |
| ParserProperties.CommaLoopSound | src/parser/comma.rs:19-24 | the loop left-folds Comma operators onto the accumulator and spells the tokens it consumes |
| ParserProperties.TernarySound | src/parser/ternary.rs:15-53 | a parsed ternary spells its tokens; its condition sits below ternary level and its else branch at most at it |
| ParserProperties.TernaryBranchesSound | src/parser/ternary.rs:18-49 | the same once `?` has been consumed |
| ParserProperties.NoElse | src/parser/ternary.rs:21-36 | with no then branch, or no `:` after it, the ternary does not parse |
| ParserProperties.BothBranchesSound | src/parser/ternary.rs:37-49 | with both branches parsed soundly, the ternary is sound |
| ParserProperties.BranchesOutcome | src/parser/ternary.rs:37-49 | after a then branch and `:`, the ternary parses exactly when its else branch does, and then is the node of condition, then branch and else branch, ending where the else branch ends |
| ParserProperties.BranchesSoundFrom | src/parser/ternary.rs:37-49 | a ternary node built from a sound condition below ternary level, a sound then branch and a sound else branch spells its tokens and sits at ternary level |
| ParserProperties.TernaryNested | src/parser/ternary.rs:49 | a ternary node whose condition is below ternary level and whose else branch is at most at it is well nested and at ternary level |
| ParserProperties.TernarySpelled | src/parser/ternary.rs:49 | a ternary node spells condition, `?`, then branch, `:`, else branch |
| ParserProperties.ComparisonSound | src/parser/comparison.rs:13-24 | a parsed comparison spells its tokens and is well nested |
| ParserProperties.ComparisonLoopSound | src/parser/comparison.rs:16-21 | the loop left-folds comparison operators onto the accumulator |
| ParserProperties.TermSound | src/parser/term.rs:13-26 | a parsed term spells its tokens and is well nested |
| ParserProperties.TermLoopSound | src/parser/term.rs:16-23 | the loop left-folds `+` and `-` onto the accumulator |
| ParserProperties.FactorSound | src/parser/factor.rs:13-26 | a parsed factor spells its tokens and is well nested |
| ParserProperties.FactorLoopSound | src/parser/factor.rs:16-23 | the loop left-folds `*` and `/` onto the accumulator |
| ParserProperties.UnarySound | src/parser/unary.rs:13-24 | a parsed unary spells its tokens, and its operand is a primary |
| ParserProperties.PrimarySound | src/parser/primary.rs:9-30 | a parsed primary spells its tokens, parentheses included |
| ParserProperties.GroupingSound | src/parser/primary.rs:16-27 | the parenthesised case of `primary` is sound given a sound inner expression |
| ParserProperties.GroupingOutcome | src/parser/primary.rs:16-27 | a `(` parses only when the inner expression parses and is followed by `)`, and then gives the grouping ending after the `)` |
| ParserProperties.GroupingSoundFrom | src/parser/primary.rs:16-27 | any outcome of that form from a sound inner expression is sound at primary level |
| ParserProperties.GroupedSound | src/parser/primary.rs:24 | a grouping that spells the tokens up to its `)` around a well-nested expression is sound at primary level |
| ParserProperties.GroupingSpelled | src/parser/primary.rs:24 | a grouping spells `(`, its content, `)` |
| ParserProperties.NothingToParse | src/parser/primary.rs:29 | with neither a literal, `(`, `!` nor `-` at the cursor, every rule returns `None` and consumes nothing |
| ParserProperties.ProgressOrNothing | src/parser/macros.rs:2-9 | a call leaves the cursor in place exactly when there is nothing to parse |
| ParserProperties.EmptyInput | src/parser/primary.rs:29 | an empty token sequence parses to `None` |
| ParserProperties.DoubleUnary | src/parser/unary.rs:20 | two unary operators in a row give `None` after consuming the first |
| ParserProperties.TernaryGroupsRight | src/parser/ternary.rs:37 | a ternary's condition is never a bare ternary, so `?:` groups to the right |
| ParserExamples.LiteralFactor | src/parser/factor.rs:13-26 | a literal followed by no `*` or `/` is a complete factor |
| ParserExamples.LiteralTerm | src/parser/term.rs:13-26 | a literal followed by no operator of term level or tighter is a complete term |
| ParserExamples.LiteralTernary | src/parser/ternary.rs:15-53 | a literal followed by no operator of ternary level or tighter is a complete ternary |
| ParserExamples.PrimaryLiteral | src/parser/primary.rs:10-14 | a literal at the cursor is a literal node, and the cursor moves past it |
| ParserExamples.UnaryIsPrimary | src/parser/unary.rs:14-18 | with no unary operator at the cursor, `unary` returns what `primary` returns |
| ParserExamples.UnaryApplied | src/parser/unary.rs:14-23 | a unary operator followed by a parsed primary is a unary node over that primary |
| ParserExamples.FactorFrom | src/parser/factor.rs:13-26 | `factor` runs its loop from the parsed unary |
| ParserExamples.FactorEnds | src/parser/factor.rs:16-25 | with no `*` or `/` at the cursor, the loop returns its accumulator in place |
| ParserExamples.FactorFolds | src/parser/factor.rs:16-23 | a `*` or `/` followed by a parsed unary folds into the accumulator and the loop goes on from there |
| ParserExamples.FactorFails | src/parser/factor.rs:14 | when the first unary does not parse, `factor` returns its outcome unchanged |
| ParserExamples.TermFrom | src/parser/term.rs:13-26 | `term` runs its loop from the parsed factor |
| ParserExamples.TermEnds | src/parser/term.rs:16-25 | with no `+` or `-` at the cursor, the loop returns its accumulator in place |
| ParserExamples.TermFolds | src/parser/term.rs:16-23 | a `+` or `-` followed by a parsed factor folds into the accumulator and the loop goes on from there |
| ParserExamples.TermLoopFails | src/parser/term.rs:21 | when the factor after a `+` or `-` does not parse, the loop returns that outcome |
| ParserExamples.TermFails | src/parser/term.rs:14 | when the first factor does not parse, `term` returns its outcome unchanged |
| ParserExamples.ComparisonFrom | src/parser/comparison.rs:13-24 | `comparison` runs its loop from the parsed term |
| ParserExamples.ComparisonEnds | src/parser/comparison.rs:16-23 | with no comparison operator at the cursor, the loop returns its accumulator in place |
| ParserExamples.ComparisonFolds | src/parser/comparison.rs:16-21 | a comparison operator followed by a parsed term folds into the accumulator and the loop goes on from there |
| ParserExamples.ComparisonFails | src/parser/comparison.rs:14 | when the first term does not parse, `comparison` returns its outcome unchanged |
| ParserExamples.TernaryFails | src/parser/ternary.rs:16 | when the condition does not parse, `ternary` returns its outcome unchanged |
| ParserExamples.BranchesNoColon | src/parser/ternary.rs:30-36 | a then branch not followed by `:` is the missing-else error holding condition, `?` and then branch, with the cursor after the then branch |
| ParserExamples.ExpressionFrom | src/parser/comma.rs:16-27 | `expression` runs the comma loop from the parsed ternary |
| ParserExamples.CommaEnds | src/parser/comma.rs:19-26 | with no `,` at the cursor, the loop returns its accumulator in place |
| ParserExamples.CommaFolds | src/parser/comma.rs:19-24 | a `,` followed by a parsed ternary folds into the accumulator and the loop goes on from there |
| ParserExamples.ExpressionFails | src/parser/comma.rs:17 | when the first ternary does not parse, `expression` returns its outcome unchanged |
| ParserExamples.GroupingUnclosed | src/parser/primary.rs:23-25 | an inner expression not followed by `)` is the not-closed error holding `(` and that expression |
| ParserExamples.GroupingEmpty | src/parser/primary.rs:19 | `(` followed by no expression is the missing-expression error holding `(` |
| ParserExamples.FactorOfUnary | src/parser/factor.rs:25 | a unary followed by no `*` or `/` is the factor's result |
| ParserExamples.TermOfFactor | src/parser/term.rs:25 | a factor followed by no `+` or `-` is the term's result |
| ParserExamples.TermIsWhole | src/parser/expression.rs:9-11 | a term followed by no comparison operator, `?` or `,` is the whole expression from there |
| ParserExamples.TermFailureIsWhole | src/parser/macros.rs:4-6 | a term that does not parse makes the whole expression return the same outcome |
| ParserExamples.PrimaryFailureIsWhole | src/parser/macros.rs:4-6 | a primary that does not parse, with no unary operator before it, makes the whole expression return the same outcome |
| ParserExamples.LiteralSum | src/parser/term.rs:16-23 | `a + b` over literals followed by no tighter operator is one term node |
| ParserExamples.MinusFoldsLeft | src/parser/term.rs:16-23 | `1 - 2 - 3` parses to `(1 - 2) - 3` |
| ParserExamples.CommaList | src/parser/comma.rs:62-81 | `43, 52, 123` parses to `(43, 52), 123` |
| ParserExamples.LiteralCondition | src/parser/ternary.rs:15-18 | a literal followed by `?` is a ternary's condition |
| ParserExamples.BranchesParsed | src/parser/ternary.rs:18-49 | with both branches parsed, the ternary node is built and the cursor ends after the else branch |
| ParserExamples.LiteralThenBranch | src/parser/ternary.rs:18-49 | a literal then branch, `:`, then a complete else branch |
| ParserExamples.TernaryNestsRight | src/parser/ternary.rs:37 | `true ? 1 : false ? 2 : 3` nests to the right |
| ParserExamples.TwoTernaries | src/parser/ternary.rs:37 | any `a ? b : c ? d : e` over literals nests to the right |
| ParserExamples.UnclosedGrouping | src/parser/primary.rs:25 | `(1 + 2` is a grouping that is not closed, holding `(` and the sum |
| ParserExamples.WholeInputFrom | src/parser/comma.rs:16-27 | a ternary followed by no comma is the whole expression from there |
| ParserExamples.EmptyGrouping | src/parser/primary.rs:19 | `()` is a grouping missing its expression, holding `(` |
| ParserExamples.DanglingOperator | src/parser/macros.rs:4 | `1 -` consumes both tokens and gives `None` |
| ParserExamples.MissingElseOperator | src/parser/ternary.rs:30-36 | `1 ? 2` is missing its `:`; the error holds the condition, `?` and the then branch |
| ParserExamples.ComparisonIsTernary | src/parser/ternary.rs:52 | a comparison followed by no `?` is the ternary's result |
| ParserExamples.TermIsComparison | src/parser/comparison.rs:23 | a term followed by no comparison operator is the comparison's result |
| ParserExamples.GroupingParsed | src/parser/primary.rs:16-24 | `(`, an expression and `)` make a grouping |
| ParserExamples.PrimaryIsWhole | src/parser/expression.rs:9-11 | a primary that ends the input is the whole expression |
| ParserExamples.LessThan | src/parser/comparison.rs:38-56 | `43 < 52` is one comparison node |
| ParserExamples.LiteralComparison | src/parser/comparison.rs:16-21 | `a < b` over literals is one comparison node |
| ParserExamples.ComparisonsInTernary | src/parser/ternary.rs:67-86 | `1 > 2 ? 2 > 3 : 5 < 6` is a ternary of three comparisons |
| ParserExamples.ComparisonTernary | src/parser/ternary.rs:67-86 | the same for any literals and comparison operators |
| ParserExamples.ComparisonBranches | src/parser/ternary.rs:67-86 | the then branch `2 > 3` and the else branch `5 < 6` are each one comparison node |
| ParserExamples.ClosedGrouping | src/parser/primary.rs:16-24 | `(1 + 2)` is a grouping around the sum |
| ParserExamples.ConditionParsed | src/parser/ternary.rs:16-18 | a condition followed by `?` continues with the branches |
| ParserExamples.TernaryFromParts | src/parser/ternary.rs:15-53 | a condition, `?`, a then branch, `:` and an else branch make one ternary node |
| ParserExamples.FactorChain | src/parser/factor.rs:16-23 | `a * b / c` over literals folds to the left |
| ParserExamples.MixedLeftOperand | src/parser/mod.rs:54-75 | `4 + 5 * 3 / 7` parses to `4 + ((5 * 3) / 7)` |
| ParserExamples.MixedInnerGroup | src/parser/mod.rs:54-75 | `(-1)` parses to a grouping around a unary minus |
| ParserExamples.MixedNegatedOne | src/parser/mod.rs:54-75 | `-1` inside the inner parentheses is a unary minus over `1` |
| ParserExamples.MixedNegatedTwo | src/parser/mod.rs:54-75 | `- 2` is a unary minus over `2` and a complete factor |
| ParserExamples.MixedRightOperand | src/parser/mod.rs:54-75 | `- 2 + (-1) + "anass"` folds to the left |
| ParserExamples.MixedRightTail | src/parser/mod.rs:54-75 | from any accumulator, `+ (-1) + "anass"` folds both sums onto it to the left |
| ParserExamples.MixedRightLast | src/parser/mod.rs:54-75 | from any accumulator, `+ "anass"` before `?` is the last fold of the term loop |
| ParserExamples.MixedCondition | src/parser/mod.rs:54-75 | the `<=` joins the two sums |
| ParserExamples.MixedInnerTernary | src/parser/mod.rs:54-75 | `5 + 5 ? 7 : 8` is a ternary with a sum as condition |
| ParserExamples.MixedThenBranch | src/parser/mod.rs:54-75 | the then branch `1, 2, 5 + 5 ? 7 : 8` is a comma list ending in that ternary |
| ParserExamples.MixedElseBranch | src/parser/mod.rs:54-75 | the else branch `9` is a literal ending before the closing parenthesis |
| ParserExamples.MixedBranches | src/parser/mod.rs:54-75 | after the `?`, the then list, `:` and the else branch make one ternary node |
| ParserExamples.MixedTernary | src/parser/mod.rs:54-75 | the whole ternary inside the parentheses |
| ParserExamples.MixedInside | src/parser/mod.rs:54-75 | the ternary is the whole expression inside the parentheses |
| ParserExamples.GroupedWhole | src/parser/primary.rs:16-24 | when the input is `(`, an expression and a final `)`, the whole expression is a grouping around it |
| ParserExamples.MixedWhole | src/parser/mod.rs:54-75 | any tokens of the test's shape parse to a grouping around that ternary |
| ParserExamples.MixedTestShape | src/parser/mod.rs:54-75 | the test's token sequence has the shape `MixedWhole` asks for |
| ParserExamples.MixedPrecedence | src/parser/mod.rs:54-75 | the test's tokens have that shape and parse, as a whole, to that grouping |

## Left out

- Number values: the `Number` kind carries its lexeme text. The conversion to
  a float, and the panic if it fails, are not modelled
  (src/scanner/number.rs:14-16, 28-30, 51-53).
- Text encoding: `rest` is a sequence of characters and advances by
  characters. UTF-8 byte offsets and `len_utf8` do not arise.
- Line width: `line` is an unbounded natural number, not a `usize`.
- Display and Debug: `Formatter.TokenText` prints a token as its lexeme when
  it has one, and otherwise as the fixed spelling of its kind. This matches
  the printer tests; the trait implementations themselves are not modelled.
- Formatter.Prefix and Formatter.Rpn: both require a tree without `Ternary`,
  because the printers have no arm for that node.
- The error reporter src/error.rs and the printing in src/reporting.rs are
  not part of this model. Neither are the drivers and command line of
  src/lib.rs and src/main.rs, nor the re-exports of
  src/expr/operators/mod.rs and src/expr/operators/error.rs.
- Iterator plumbing: `Peekable` becomes a position in a sequence of tokens.
  Lifetimes, `Deref` and `AsRef` are not modelled.
- The timing code in the parser test is not modelled
  (src/parser/mod.rs:59, 71).
- Terminals.TryFrom: the sub-category wrappers (Unary, Factor, Term,
  Comparison, Comma, TernaryThen, TernaryElse, Literal) keep the whole token.
  In the source they keep only its kind. This is needed to convert them
  into a binary operator, which wraps a token.
- ParserSpec.Expression, ParserSpec.Comma, ParserSpec.Ternary,
  ParserSpec.Comparison, ParserSpec.Term, ParserSpec.Factor and
  ParserSpec.Unary: each function's own contract states only where it
  leaves the cursor. What a parse means is stated by the matching `Sound`
  lemma of ParserProperties.
- ParserExamples.MixedPrecedence and the other parser examples start from
  hand-built token sequences, all on line 1, and not from the tests' source
  text. The scanner cannot produce those sequences: the test's source spans
  three lines (src/parser/mod.rs:55-57), and the scanner has no arm for `?`
  or `:` (src/scanner/mod.rs:81-128). On such input it reports an invalid
  character without consuming it (`ScannerExamples.TernaryPunctuationReported`,
  `ScannerProperties.InvalidCharacterRepeats`). So the test at
  src/parser/mod.rs:60-68 stops its token list there and fails its
  `had_error` assertion. The ternary tests collect every item
  (src/parser/ternary.rs:71-77, 92-98), and that collection never ends.
- ParserExamples.TernaryNestsRight: it uses `true ? 1 : false ? 2 : 3` in
  place of the source test's input, whose then branch is itself a ternary.
  That case is covered by ParserExamples.MixedThenBranch.
