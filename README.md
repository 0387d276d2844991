# A verified model of a Lox expression front end

This project models the expression pipeline of a small Rust interpreter for
the Lox language (codecrafters-interpreter-rust). The pipeline has four
stages:

- **Scanner** (`src/scanner.rs`). A cursor walks the source text and pushes
  tokens. This revision knows only single-character punctuation, the
  one-or-two-character operators `= == ! != < <= > >=`, `/` and `//` line
  comments, and line breaks. Every other character is reported as
  unexpected, and scanning carries on.
- **Parser** (`src/parser.rs`). A recursive-descent parser with a mutable
  cursor. It climbs the precedence ladder equality, comparison, term,
  factor, unary, primary. Each binary level folds to the left in a `while`
  loop. Failure is `None`, passed upwards with `?`.
- **Evaluator** (`src/interpreter.rs`). A stateless tree walker in which
  every value is a string. It covers truthiness, string equality,
  concatenation, the numeric operand checks and the division-by-zero guard.
  A failure is `RuntimeError { message, line }`.
- **Printer** (`src/expr.rs`). `Display` for the six-variant expression
  tree, in parenthesised prefix form.

The files come from different revisions of the program:

- Parser and evaluator build and consume a four-variant tree whose literal
  is an optional string. Module `Syntax` holds that tree.
- The printer works on the six-variant tree of `src/expr.rs`. Module `Ast`
  holds that one.
- `TokenKind` is the union of the kinds the scanner and the parser use.
- `Token` carries the `line` that the evaluator reads. The scanner stamps
  each token with its current line.

Module layout:

| module | file | what it holds |
|---|---|---|
| `Wrappers` | wrappers.dfy | `Option` and `Result` |
| `Tokens` | tokens.dfy | `TokenKind`, `Token`, the fixed spelling of each kind |
| `Lexing` | lexing.dfy | the scanner as functions: one step (`Lex`), the whole scan (`ScanFrom`, `Scan`), and their properties |
| `Scanner` | scanner.dfy | `class Scanner` with the fields and methods of the Rust struct, each proved against `Lexing` |
| `Syntax` | syntax.dfy | the four-variant `Expr`, operator precedence, and the shape of trees the parser can build |
| `Parsing` | parsing.dfy | the parser as functions: `ExpressionAt`, one function per rung, soundness and completeness |
| `ParsingExamples` | parsing_examples.dfy | precedence, associativity, an unclosed parenthesis, trailing tokens |
| `Parser` | parser.dfy | `class Parser` with the cursor methods, each proved to match `Parsing` |
| `Interpreter` | interpreter.dfy | `Evaluate` and the `Visit*` functions, plus their properties |
| `Ast` | ast.dfy | the six-variant tree, the printer, balanced parentheses, whole-number printing |

The stateful code (scanner and parser) follows the same pattern. Each
method states its result and new state as a pure function of its inputs
and old state. The properties the program promises are then proved about
those functions.

The host's 64-bit float behaviour is not modelled. That covers
`str::parse::<f64>`, `fract`, `to_string`, `{:.1}` and the arithmetic. The
evaluator takes these as a parameter `fl: Floats<F>` and the printer as a
parameter `fmt: NumberFormat<F>`. Every property holds for every choice of
them, except the two that "## Left out" names: `FalseTextIsFalsy` assumes
that "false" does not parse as a number, and `WholeNumberPrinting` and
`ThreePrintsWithOneDecimal` hold for the integer-only format `IntegerFormat`.

Where the code and the language's usual description differ, the model
follows the code:

- A space, a tab, a quote, a digit or a letter is an unexpected character.
  It sets the error flag and produces no token. Strings, numbers,
  identifiers and keywords are never scanned.
- A NUL character is skipped silently (`src/scanner.rs:85`).
- One scanner step moves the cursor by one or two characters, except for a
  `//` comment, which jumps to the next line break.
- Values are strings. The string `"false"` is falsy, like the keyword
  `false`. A number token and a string token with the same text compare
  equal under `==`.
- `parse` returns after one expression. It does not require the end marker
  to follow, so the trailing tokens of `1 2` are ignored.
- A parse error carries no line. The parser only returns `None`.

## Model

| member | source | states |
|---|---|---|
| Lexing.LineEnd | src/scanner.rs:126-138 | The comment skip stops at the first line break at or after the cursor, or at the end of the input. Every character it passes over is not a line break. |
| Lexing.Lex | src/scanner.rs:33-89 | One step always consumes at least one character. An emitted token consumes at most two characters and its lexeme is the kind's fixed spelling. A step goes past one character only for `//` or a two-character operator. A line break is the only thing that counts a line, and a step never passes over one. A step reports an error exactly for a character outside the recognised set, and then it consumes just that character. |
| Lexing.ScanFrom | src/scanner.rs:25-31 | The scan loop from any position never lowers the line counter. Every token it pushes has a fixed-spelling kind other than EOF. The tokens' lines never decrease. |
| Lexing.Scan | src/scanner.rs:14-31 | A fresh scanner run to the end finishes on a line of at least 1. |
| Lexing.MaximalMunch | src/scanner.rs:46-75 | After `=`, `!`, `<` or `>`, the two-character kind is emitted and two characters are consumed exactly when `=` follows. Otherwise the one-character kind is emitted and one character is consumed. |
| Lexing.Comment | src/scanner.rs:76-83 | `//` emits nothing and stops at the next line break, without consuming it, or at the end of the input. A lone `/` emits SLASH. |
| Lexing.Punctuation | src/scanner.rs:36-45 | Each of the ten one-character marks emits its own kind and consumes one character. |
| Lexing.ScanEndsWithEof | src/scanner.rs:25-31 | The token list ends with an EOF token, and no earlier token is EOF. |
| Lexing.ScanLexemes | src/scanner.rs:101-105 | Every token before the end marker has the fixed spelling of its kind as its lexeme. The lines are at least 1 and never decrease along the list, end marker included. |
| Lexing.ScanFromLine | src/scanner.rs:84 | The scan loop ends on the starting line plus the number of line breaks in the rest of the source. |
| Lexing.ScanLineCount | src/scanner.rs:84 | The final line, and the end marker's line, is one more than the number of line breaks in the source. |
| Lexing.ScanWithoutStrangers | src/scanner.rs:85-87 | A source made only of recognised characters scans without setting the error flag. |
| Lexing.ScanFromErrorIff | src/scanner.rs:141-144 | When no `/` in the rest of the source is directly followed by `/`, the error flag rises exactly when some remaining character is unrecognised. A lone `/` is SLASH and hides nothing. |
| Lexing.ScanErrorIff | src/scanner.rs:85-87 | A source without `//` sets the error flag if and only if it holds an unrecognised character, such as a space. Sources with a SLASH operator, such as `!/=`, are included. |
| Lexing.ScanEmpty | src/scanner.rs:25-31 | An empty source gives only the end marker, on line 1, without error. |
| Lexing.ScanExample | src/scanner.rs:33-89 | `!= //c` followed by a line break and `>` gives BANG_EQUAL on line 1, then GREATER and the end marker on line 2. The space sets the error flag. |
| Scanner.Scanner.constructor | src/scanner.rs:14-23 | A new scanner has no tokens, its cursor at 0, line 1 and no error. |
| Scanner.Scanner.IsAtEnd | src/scanner.rs:107-109 | In a valid state the scanner is at its end exactly when the cursor equals the source length, never beyond it. |
| Scanner.Scanner.Advance | src/scanner.rs:91-99 | Returns the character under the cursor and moves past it. At the end it returns NUL without moving. |
| Scanner.Scanner.MatchNext | src/scanner.rs:111-123 | Consumes the next character exactly when it is the expected one, and reports whether it did. |
| Scanner.Scanner.AddToken | src/scanner.rs:101-105 | Appends one token whose lexeme is the text from `start` to the cursor, on the current line. Nothing else changes. |
| Scanner.Scanner.SkipToEndOfLine | src/scanner.rs:126-138 | The loop leaves the cursor at `LineEnd` of where it started. |
| Scanner.Scanner.Error | src/scanner.rs:141-144 | Sets the error flag. No method clears it. |
| Scanner.Scanner.HasError | src/scanner.rs:146-148 | Reports the flag that `Error` sets and no method clears. After a full scan it is the flag of `Scan` (see `Scanner.Tokenize`). |
| Scanner.Scanner.ScanToken | src/scanner.rs:33-89 | The new cursor, line, error flag and tokens are those of one `Lex` step at the old cursor. At the end of the input nothing changes. |
| Scanner.Scanner.ScanTokens | src/scanner.rs:25-31 | The loop leaves the cursor at the end. The tokens are the old ones plus those of `ScanFrom` and one end marker. The flag and line are those of `ScanFrom`. |
| Scanner.Tokenize | src/scanner.rs:14-31 | A fresh scanner run with `scan_tokens` hands back exactly the tokens and error flag of `Scan`. |
| Syntax.Operators | src/parser.rs:24-94 | The operator list each binary level's loop matches holds exactly the kinds of that level's precedence. |
| Parsing.CheckAt | src/parser.rs:154-159 | `check` is never true for EOF. For any other kind it is true exactly when the current token has that kind. |
| Parsing.MatchesSomeKind | src/parser.rs:144-152 | `match_token` tries the kinds in order and stops at the first that checks. It succeeds exactly when some kind in the list checks at the cursor. |
| Parsing.ExpressionAt | src/parser.rs:19-21 | `expression` never moves the cursor backwards or past the end marker. A success consumes at least one token. |
| Parsing.LevelAt | src/parser.rs:24-94 | The same cursor bounds hold for each rung of the ladder. |
| Parsing.BinaryAt | src/parser.rs:24-94 | The same cursor bounds hold for a binary level: one operand, then the loop. |
| Parsing.FoldAt | src/parser.rs:27-35 | The left-folding loop keeps the cursor in bounds. It returns a tree only if the operand it started with was one. |
| Parsing.UnaryAt | src/parser.rs:97-108 | `unary` keeps the cursor in bounds. A success consumes at least one token. |
| Parsing.PrimaryAt | src/parser.rs:111-140 | `primary` keeps the cursor in bounds. A success consumes at least one token. |
| Parsing.LevelSound | src/parser.rs:24-108 | Any tree a rung returns is well nested and binds at least as tightly as that rung. It is spelled exactly by the tokens it consumed, and the loops stop at a token that is no operator of the rung. |
| Parsing.BinarySound | src/parser.rs:24-94 | The same soundness holds for a binary level. |
| Parsing.FoldSound | src/parser.rs:27-35 | The loop keeps soundness: folding a sound left tree with sound right operands gives a sound, left-associated tree. |
| Parsing.UnarySound | src/parser.rs:97-108 | A tree `unary` returns is a prefix chain over a primary, spelled by the tokens consumed. |
| Parsing.PrimarySound | src/parser.rs:111-140 | `primary` turns NUMBER and STRING into their literal, TRUE and FALSE into the texts "true" and "false", NIL into the empty literal, and `( e )` into a grouping. Any other token fails without moving the cursor. |
| Parsing.LeadingFailureFails | src/parser.rs:24-94 | When the first operand fails, every rung above it fails too, because of `expr?` in the fold. |
| Parsing.UnclosedGroupFails | src/parser.rs:133-137 | A `(` whose expression is not followed by `)` makes the parse fail. |
| Parsing.LevelComplete | src/parser.rs:24-108 | Completeness: a well-nested tree spelled by the tokens up to a stopping token is exactly what the rung returns, with the cursor at that token. |
| Parsing.UnaryComplete | src/parser.rs:97-140 | Completeness of `unary`: prefix chains, literals and groupings spelled by the tokens are parsed back exactly. |
| Parsing.GroupingStep | src/parser.rs:133-137 | `(`, a parsed expression and `)` give the grouping, with the cursor after the `)`. |
| Parsing.BinaryComplete | src/parser.rs:24-94 | A binary level parses its spelled left part back, then carries on with the loop. |
| Parsing.ChainComplete | src/parser.rs:24-94 | The same holds when the tree's root operator belongs to this level. The left chain is rebuilt turn by turn. |
| Parsing.FoldStep | src/parser.rs:27-35 | A loop turn that matches the level's operator and parses the right operand continues with the folded tree. |
| Parsing.ExpressionMeaning | src/parser.rs:19-140 | `expression` returns tree `e` with the cursor at `q` if and only if `e` is well nested and spelled by the tokens up to `q`, and the token at `q` is no binary operator. |
| ParsingExamples.TighterOperatorNestsRight | src/parser.rs:19-108 | `1 + 2 * 3` parses as `1 + (2 * 3)`. |
| ParsingExamples.SameLevelFoldsLeft | src/parser.rs:63-77 | `1 - 2 - 3` parses as `(1 - 2) - 3`. |
| ParsingExamples.UnclosedParenthesisFails | src/parser.rs:133-137 | `(1` fails, with the cursor left on the end marker. |
| ParsingExamples.TrailingTokensIgnored | src/parser.rs:14-16 | `1 2` parses as `1`, with the cursor on the `2`. |
| Parser.Parser.constructor | src/parser.rs:10-12 | A new parser starts at the first token. |
| Parser.Parser.Peek | src/parser.rs:172-174 | The current token is one of the list's tokens, so the index is in bounds. |
| Parser.Parser.Previous | src/parser.rs:176-178 | The previous token is in bounds once the cursor has moved. |
| Parser.Parser.IsAtEnd | src/parser.rs:168-170 | On the last token of a list that ends in EOF, the parser is at its end. |
| Parser.Parser.Check | src/parser.rs:154-159 | True exactly when the cursor is not on the end marker and the current token has the asked kind. So it is never true for EOF. |
| Parser.Parser.Advance | src/parser.rs:161-166 | Steps over the current token unless it is EOF, so the cursor never passes EOF. Returns the token just behind the cursor. |
| Parser.Parser.MatchToken | src/parser.rs:144-152 | Moves the cursor by exactly one when the current token's kind is in the list. Otherwise the cursor is unchanged. It never consumes EOF. |
| Parser.Parser.Consume | src/parser.rs:180-187 | Returns the token and advances exactly when its kind matches. On a mismatch it returns `None` and leaves the cursor unchanged. |
| Parser.Parser.Parse | src/parser.rs:14-16 | Returns the tree and leaves the cursor as `ExpressionAt` says. |
| Parser.Parser.Expression | src/parser.rs:19-21 | Returns the tree and leaves the cursor as `ExpressionAt` says. |
| Parser.Parser.Equality | src/parser.rs:24-38 | The loop over `!=` and `==` computes rung 1 of `LevelAt`. |
| Parser.Parser.Comparison | src/parser.rs:41-60 | The loop over `> >= < <=` computes rung 2. |
| Parser.Parser.Term | src/parser.rs:63-77 | The loop over `+ -` computes rung 3. |
| Parser.Parser.Factor | src/parser.rs:80-94 | The loop over `* /` computes rung 4. |
| Parser.Parser.Unary | src/parser.rs:97-108 | Computes `UnaryAt`. |
| Parser.Parser.Primary | src/parser.rs:111-140 | Computes `PrimaryAt`. |
| Parser.ParseTokens | src/parser.rs:10-16 | `Parser::new(tokens).parse()` returns what `expression` yields from the first token. Any tree it returns is well nested and spelled by a prefix of the tokens. |
| Interpreter.CheckNumericOperands | src/interpreter.rs:155-163 | Succeeds exactly when both texts parse as numbers. Otherwise it fails with "Operands must be numbers." on the given line. |
| Interpreter.IsTruthy | src/interpreter.rs:166-168 | A value is falsy exactly when it is the text "false" or "nil". "0", "" and "true" are truthy. |
| Interpreter.Evaluate | src/interpreter.rs:29-36 | Every runtime error carries the line of an operator in the tree. For a tree the parser can build, the message is one of the operand messages. |
| Interpreter.VisitLiteral | src/interpreter.rs:38-57 | A literal never fails. Nil gives "nil", and a text that does not parse as a number gives itself unchanged. |
| Interpreter.VisitGrouping | src/interpreter.rs:59-61 | A grouping fails only as its inner tree does. |
| Interpreter.VisitUnary | src/interpreter.rs:63-81 | An error carries the operator's line or one from the operand. With `!` or `-` over a well-nested operand, as every tree the parser builds is, the message is an operand message. A failing operand's error is the result, unchanged. |
| Interpreter.VisitBinary | src/interpreter.rs:83-152 | An error carries a line from the operands or the operator's own. With an operator of the grammar and well-nested operands, as every tree the parser builds has, the message is an operand message. That an operand's own error is passed on unchanged is stated by `FirstFailureWins`. |
| Interpreter.GroupingIsTransparent | src/interpreter.rs:59-61 | Parentheses change neither the value nor the error. |
| Interpreter.FirstFailureWins | src/interpreter.rs:84-85 | The left operand is evaluated first and its error is returned as is. Otherwise an error of the right operand is returned. |
| Interpreter.PlusMeaning | src/interpreter.rs:88-104 | `+` adds two numbers and concatenates two non-numbers. A number with a non-number fails with "Operands must be two numbers or two strings." on the operator's line. |
| Interpreter.NumericOperatorsNeedNumbers | src/interpreter.rs:105-143 | `-`, `*`, `/` and the four comparisons fail with "Operands must be numbers." on the operator's line if and only if an operand is not a number. |
| Interpreter.DivisionByZeroFails | src/interpreter.rs:115-122 | With numeric operands, `/` fails exactly when the divisor is zero, and then with "Division by zero." on the operator's line. |
| Interpreter.EqualityComparesText | src/interpreter.rs:145-146 | `==` gives "true" exactly when the two texts are equal, and `!=` the opposite. Neither ever fails. |
| Interpreter.NumberEqualsStringOfSameText | src/interpreter.rs:145 | The tokens NUMBER `v`, `==`, STRING `"v"` parse to a comparison that evaluates to "true": a number and a string with the same text are equal. |
| Interpreter.BangMeaning | src/interpreter.rs:75 | `!` never fails on a value. It gives "true" exactly when the value is falsy. |
| Interpreter.DoubleNegation | src/interpreter.rs:75 | `!!e` gives the truthiness of the value of `e` as "true" or "false". |
| Interpreter.FalseTextIsFalsy | src/interpreter.rs:166-168 | `!"false"` gives "true": the text "false" is falsy whether it came from a keyword or a string. |
| Interpreter.NegationNeedsNumber | src/interpreter.rs:67-73 | Prefix `-` fails exactly when its operand is not a number, and then with "Operand must be a number." on the operator's line. |
| Interpreter.UnknownBinaryOperator | src/interpreter.rs:147-150 | An operator outside the binary table fails with "Unknown binary operator: " followed by its lexeme. |
| Interpreter.LogicalNeverFails | src/interpreter.rs:29-36 | A tree made of literals, groupings, `!`, `==` and `!=` always evaluates. |
| Interpreter.LogicalResultsAreBooleans | src/interpreter.rs:128-146 | `!`, the comparisons, `==` and `!=` give only "true" or "false" when they succeed. |
| Interpreter.ParsedTreesFailOnlyOnOperands | src/interpreter.rs:63-152 | A tree returned by the parser never fails with an unknown-operator message, only with an operand message. |
| Ast.Show | src/expr.rs:32-69 | A binary, grouping, unary or assignment node prints starting with `(` and ending with `)`. |
| Ast.ShowLiteral | src/expr.rs:41-55 | A string literal prints its raw text, without quotes. `true` prints as `true`, `false` as `false` and nil as `nil`, with no parenthesis. |
| Ast.ShowIsBalanced | src/expr.rs:32-69 | Over parenthesis-free leaves, the printed form is balanced. Every compound node prints as one enclosed parenthesised group. |
| Ast.NatText | src/expr.rs:45-48 | The integer digits are a non-empty run of decimal digits. |
| Ast.NatTextRoundTrip | src/expr.rs:45-48 | The digits of a natural number read back as that number. |
| Ast.IntTextRoundTrip | src/expr.rs:45-48 | The integer part printed for a whole number is an optional `-` and at least one digit, and it reads back as that number. |
| Ast.WholeNumberPrinting | src/expr.rs:43-48 | A whole number prints with exactly one decimal place. Before the `.0` stand only an optional `-` and at least one digit, and they read back as the number. |
| Ast.ThreePrintsWithOneDecimal | src/expr.rs:45-48 | `3` prints as `3.0`. |
| Ast.ShowExample | src/expr.rs:35-55 | `true == (nil)` prints as `(== true (group nil))`. |

## Left out

- `src/main.rs` is not part of this model: command-line handling, file reading and printing of results.
- `src/stmt.rs` is not part of this model. It declares statements and nothing operates on them here.
- `src/token.rs` is not part of this model. It is an older token type, and module `Tokens` replaces it.
- Environments, variables, assignment and statement execution do not appear in the modelled code.
- The 64-bit float behaviour is a parameter: parsing text as a float, the fractional-part test, number formatting (`to_string`, `{:.1}`, the cast to a 64-bit integer) and the arithmetic and comparison results. The evaluator's dispatch and error logic is proved for every such parameter. No numeric value is proved.
- Diagnostics written to standard error are not modelled. This covers the unexpected-character message of `error` and the message of `consume`, whose `message` argument is therefore unused. Only the error flag and the `None` result are modelled.
- The display format of `RuntimeError` (`src/interpreter.rs:13-17`) is output formatting and is left out.
- `Interpreter::new` and `get_tokens` hold no logic. `get_tokens` appears as the `tokens` field that `Scanner.Tokenize` reads back.
- Characters and bytes: `advance` counts characters (`src/scanner.rs:93`), but `is_at_end` compares the cursor with the byte length (`src/scanner.rs:108`) and `add_token` slices by bytes (`src/scanner.rs:102`). The model treats the source as a sequence of characters, which matches the source only for ASCII text. On other text the source misbehaves, and the model does not capture it. On `é` (two bytes, one character) the cursor stops at 1 < 2, `advance` returns NUL without moving, and `scan_tokens` loops forever. On `é(` the slice for `(` starts at byte 1, inside the `é`, and panics. The model's termination measure, the remaining character count, rules out both.
- Scanner.Scanner.SkipToEndOfLine: the source's second exit test, the cursor reaching the byte length, cannot fire on ASCII text and is not modelled separately.
- Parser.Parser.Advance: requires that it is not called with the cursor at 0 on an EOF token, for example on `[EOF]` or `[EOF, NUMBER, EOF]`. There the source would index one before the first token and panic. `match_token` and `consume` never make that call.
- Parser.Parser.constructor: the parser, and every function of module `Parsing`, takes only token lists whose last token is EOF (`Parsing.WellTerminated`). `Parser::new` accepts any list, and a list without EOF such as `[NUMBER, NUMBER]` still parses in the source. Such lists are not modelled. The scanner always produces a terminated list (`Lexing.ScanEndsWithEof`).
- Interpreter.VisitLiteral: states the value only for nil and for non-numeric text. A numeric text is re-formatted by the float parameter, whole numbers as a 64-bit integer and others at full precision, and no property of that text is claimed.
- Interpreter.FalseTextIsFalsy: assumes that "false" does not parse as a float. That holds for Rust's `f64` parser, but the float parameter is left free.
- Ast.ShowIsBalanced: assumes that lexemes, string literals and formatted numbers contain no parenthesis. The printer copies them unchanged, so a string literal holding `(` can unbalance the output.
- Ast.WholeNumberPrinting: proved only for integer-valued numbers with `IntegerFormat`. Fractional numbers and the float `{:.1}` rounding are left out.
