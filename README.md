# Lox scanner in Dafny

This project models the scanner of a Lox interpreter written in Rust (`src/scanner.rs`), together
with its token record and literal payload (`src/token.rs`). It proves properties of the model.

The scanner is a cursor machine. It holds the source characters, a token list, and three
counters: `start`, `current` and `line`. It recognizes one lexeme per call of `scan_token`, and
`scan_tokens` calls it until the input is used up, then pushes the end-of-input token.

The model has two layers:

- **`Scanning.Scanner`** (scanner.dfy) is a class with the same fields.
  - The methods of the Rust `impl` that change the scanner are methods that update those fields
    in place, with the same loops and branches; the `/` arm of `scan_token` is split out into
    `ScanSlash`, with its two loops in `LineComment` and `BlockComment`.
  - The read-only helpers `is_at_end`, `peek` and `peek_next` are functions of the class, and
    the `keywords` table, which reads no field, is the module function `Lexemes.Keywords`.
  - `reports`, a list of `Report(line, message)`, is the error channel: `scan_tokens` hands
    every error that `scan_token` returns to it.
- **Module `Lexemes`** (lexemes.dfy) describes what the class computes, as functions of the text.
  - `Step(src, s, line)` is one call of `scan_token` starting at index `s`.
  - `ScanFrom`/`Lex` is the whole scan.
  - Each recognizer method (`ScanToken`, `ScanSlash`, `LineComment`, `ScanString`,
    `ScanNumber`, `ScanIdentifier`) is proved to leave exactly the state these functions
    describe (`Reflects`); `BlockComment` ends at `BlockEnd`, `ScanTokens` is tied to `ScanFrom`,
    and the small helpers state their effect outright. `ScanSource` proves that `Scanner::new` followed by `scan_tokens` yields
    `Lex(source)`.

A call of `scan_token` can end in three ways:
- It returns, with or without an error.
- It never returns (`Spins`/`Hangs`): this happens to a line comment followed by a line break.
- It panics (`Aborts`/`Panics`): this happens to a number lexeme that `str::parse::<f64>` rejects.

`Float.ParsesAsF64` (float.dfy) is the set of texts that `f64::from_str` accepts, following the
grammar the Rust standard library documents for it. The number value itself is not modelled:
`Object.Num` carries its lexeme.

Module `Tokens` (tokens.dfy) holds the `Token` record, `Object` and their `Display` texts:
- `Token::new` is the datatype constructor `Token`.
- `Token::eof` is `EofToken`.
- The derived `Debug` text of a kind is `KindName`, the variant's name.

Module `Properties` (properties.dfy) proves what the scanner promises, first about one
recognizer call, then about whole scans. Module `Examples` (examples.dfy) works through concrete
sources.

## Model

| member | source | states |
|---|---|---|
| Scanning.Scanner.constructor | src/scanner.rs:27-37 | a new scanner holds the source, no tokens and no reports, with `start == current == 0` and `line == 1` |
| Scanning.Scanner.ScanTokens | src/scanner.rs:13-26 | the tokens pushed and the errors reported are those of `ScanFrom` from the current cursor and line, after the tokens and reports already present; a hang or a panic ends the scan with what was pushed so far; the cursor invariant `start <= current <= |source|` holds after it, and a completed scan leaves the cursor at the end and the line counter raised by every line break it passed over |
| Scanning.ScanSource | src/scanner.rs:13-37 | a fresh scanner's `scan_tokens` yields `Lex(source)` |
| Scanning.Scanner.ScanToken | src/scanner.rs:38-132 | the new cursor, line, tokens and outcome are those of `Step` at `start`: the dispatch on the first character, including the default arm that skips unknown characters |
| Scanning.Scanner.ScanSlash | src/scanner.rs:82-114 | the `/` arm moves the scanner exactly as `SlashStep` says: a line comment, a block comment or one `Slash` token, with the matching outcome |
| Scanning.Scanner.LineComment | src/scanner.rs:85-92 | after `//` the loop runs to the next line break; if there is none, it returns at the end of input with no token; otherwise it pushes `Slash` and stands at the break without advancing, so the call never returns (`Hang`) |
| Scanning.Scanner.BlockComment | src/scanner.rs:93-110 | the cursor ends just past the first closing pair, or at the end of input; the line counter goes up by the line breaks consumed |
| Scanning.Scanner.ScanIdentifier | src/scanner.rs:133-149 | consumes ASCII letters and digits after the first character and pushes the keyword kind of the text, or `Identifier` (`WordStep`) |
| Scanning.Scanner.IsAtEnd | src/scanner.rs:150-152 | at the end exactly when there is no character to peek |
| Scanning.Scanner.Advance | src/scanner.rs:153-157 | returns the character at the cursor and moves the cursor one place; the source unwraps it, so there must be one |
| Scanning.Scanner.AddToken | src/scanner.rs:179-181 | pushes one token with no literal, with lexeme `source[start..current]` at the current line |
| Scanning.Scanner.AddTokenObject | src/scanner.rs:182-186 | pushes one token with the given kind and literal, lexeme `source[start..current]`, at the current line |
| Scanning.Scanner.IsMatch | src/scanner.rs:187-195 | consumes the next character exactly when there is one and it is the expected one, and reports whether it did |
| Scanning.Scanner.Peek | src/scanner.rs:196-198 | the character at the cursor, or none at the end |
| Scanning.Scanner.PeekNext | src/scanner.rs:199-201 | the character after the cursor, or none when the cursor is at or next to the end |
| Scanning.Scanner.ScanString | src/scanner.rs:202-238 | the new state and outcome are those of `StringStep`: a closed string pushes a `String` token; an unterminated one returns the "Unterminated string" error at the last line |
| Scanning.Scanner.ScanNumber | src/scanner.rs:239-274 | the new state and outcome are those of `NumberStep`; a lexeme that `f64` parsing rejects is a `Panic` that carries the lexeme |
| Lexemes.Keywords | src/scanner.rs:158-178 | the keyword table, case-sensitive and exact; `Lexemes.KeywordsExact` proves it maps a word to a kind exactly when the word is that kind's spelling |
| Lexemes.KeywordsExact | src/scanner.rs:158-178 | a word maps to a keyword kind exactly when it is that kind's spelling, with both directions of the equivalence |
| Lexemes.Punctuation | src/scanner.rs:41-49 | the kind of each single-character punctuation mark; `Properties.PunctuationArm` proves its arm pushes exactly one token of that kind whose lexeme is that one character |
| Lexemes.OperatorStep | src/scanner.rs:50-81 | the `!`, `=`, `>` and `<` arms; `Properties.OperatorPairs` states their one- and two-character results |
| Lexemes.SlashStep | src/scanner.rs:82-114 | the `/` arm; `Properties.LineCommentHangsIffBreak`, `Properties.BlockCommentEndsAtFirstClose`, `Properties.LoneSlash` and `Properties.SlashFacts` state its three branches |
| Lexemes.BlockEnd | src/scanner.rs:93-110 | the block comment's end lies past the first closing pair after its start with no closing pair before it, or at the end of input with no closing pair at all |
| Lexemes.BlockEndAt | src/scanner.rs:94-110 | conversely, with no closing pair from `i` before `c` and a closing pair at `c` (or `c` at the end), the comment ends past `c`, or at `c` |
| Lexemes.StringStep | src/scanner.rs:202-238 | the string arm returns an error with no token exactly when no quote follows; a closed string's lexeme runs from quote to quote with no quote inside, its literal is the text between them, and its line is the line after the string's line breaks |
| Lexemes.StringStepEndsAt | src/scanner.rs:203-230 | once the run of non-quotes after the opening quote ends at `q`, the string arm ends past `q` with the token, or at the end with the error |
| Lexemes.NumberStep | src/scanner.rs:239-269 | the number arm consumes letters, digits and `.`, stops where no digit follows (its exact end is given by `NumberEnd` and `NumberStepEndsAt`), and succeeds exactly when the lexeme parses as an `f64`, pushing a `Number` token whose literal carries the lexeme |
| Lexemes.NumberEnd | src/scanner.rs:248-259 | a `.` followed by a digit is always taken, a fraction holds at least one digit, the fraction runs over digits to the first non-digit and nothing else is taken (so, as `Lexemes.NumberEndTakesFraction` states, the fraction is taken exactly when a `.` and a digit follow); `Lexemes.NumberEndAt` gives its exact value |
| Lexemes.NumberEndTakesFraction | src/scanner.rs:248-259 | the number's end lies past the alphanumeric run exactly when a `.` and a digit follow that run, in both directions |
| Lexemes.NumberStepEndsAt | src/scanner.rs:240-269 | given where the alphanumeric run and the fraction's digits end, the number arm pushes the token at that end, or aborts on that lexeme |
| Lexemes.NumberEndAt | src/scanner.rs:248-259 | conversely, a fraction of digits that stops at a non-digit ends `NumberEnd` |
| Lexemes.WordStep | src/scanner.rs:133-149 | the identifier arm's lexeme is the start character and the longest run of ASCII letters and digits after it, with kind `WordKind` of the lexeme |
| Lexemes.Step | src/scanner.rs:38-132 | each returning call moves the cursor forward and stays inside the source; a call that never returns stands on a character of the source |
| Lexemes.ScanFrom | src/scanner.rs:13-26 | the `scan_tokens` loop from a cursor and line counter: each returning step's tokens and error, then the rest of the scan; the end-of-input token at the end; a hang or a panic stops it. Its properties are stated by `Properties.TokenSpans`, `Properties.EofOnlyAtEnd`, `Properties.ReportsOnlyUnterminatedString`, `Properties.HangsAtLineBreak`, `Properties.LinesNonDecreasing` and `Properties.CompletedScanLine` |
| Lexemes.Lex | src/scanner.rs:27-37 | the scan of a new scanner: from index 0 at line 1; `Scanning.ScanSource` proves the class computes it |
| Properties.StepFacts | src/scanner.rs:38-132 | every call pushes at most one token, never `Eof`, whose lexeme is the text consumed and whose line is the counter after the call; the counter goes up by the line breaks consumed; the only error is an unterminated string at the end of input |
| Properties.SlashFacts | src/scanner.rs:82-114 | the `/` arm keeps `StepKeeps`: a hang stands on a line break with one `Slash` pushed for the comment |
| Properties.StringFacts | src/scanner.rs:202-238 | the string arm keeps `StepKeeps` |
| Properties.NumberFacts | src/scanner.rs:239-274 | the number arm keeps `StepKeeps`; an abort consumed no line break |
| Properties.WordFacts | src/scanner.rs:133-149 | the identifier arm keeps `StepKeeps` |
| Properties.OperatorFacts | src/scanner.rs:50-81 | the operator arms keep `StepKeeps` |
| Properties.OperatorPairs | src/scanner.rs:50-81 | `!`, `=`, `>`, `<` followed by `=` consume two characters and give `BangEqual`, `Equals`, `GreaterEqual`, `LessEqual`; otherwise they consume one and give `Bang`, `Assign`, `Greater`, `Less` |
| Properties.LineCommentHangsIffBreak | src/scanner.rs:85-92 | a line comment hangs if and only if a line break follows it; it then stands on the first such break with `Slash` (lexeme `//` and the comment text) pushed; otherwise it consumes the rest of the input with no token |
| Properties.BlockCommentEndsAtFirstClose | src/scanner.rs:93-110 | a block comment pushes no token, reports no error, ends past the first closing pair (no nesting) or absorbs the rest of the input, and counts its line breaks |
| Properties.LoneSlash | src/scanner.rs:111-113 | a `/` followed by neither `/` nor `*` is one `Slash` token |
| Properties.PunctuationArm | src/scanner.rs:41-49 | a punctuation mark advances one character and pushes exactly one token of its kind, with that character as lexeme, no literal and the current line, and no error |
| Properties.LineBreakArm | src/scanner.rs:115-117 | a line break advances one character, pushes nothing and raises the line counter by one |
| Properties.OtherCharSkipped | src/scanner.rs:118-129 | a character that no arm recognizes is skipped with no token and no error |
| Properties.WordsAndKeywords | src/scanner.rs:126-178 | an identifier runs over ASCII letters and digits up to the first other character; it is `Identifier` exactly when its text is not a keyword, and otherwise it is the kind whose spelling it is |
| Properties.DigitNumbersParse | src/scanner.rs:239-269 | a number lexeme panics only if it took in a letter: digits with or without a fraction always parse |
| Properties.DigitsAndFractionParse | src/scanner.rs:248-269 | digits, optionally followed by `.` and digits, parse as an `f64` |
| Float.DigitsParse | src/scanner.rs:260-269 | a non-empty run of digits, alone or followed by `.` and a non-empty run of digits, is accepted by the `f64` grammar |
| Properties.StringLiteralShowsAsLexeme | src/scanner.rs:225-230 | a string token's literal, displayed, is the token's lexeme: the text between the quotes, in quotes |
| Properties.TokenSpans | src/scanner.rs:13-26 | the tokens of every scan, however it ends, lie on spans of the source in order and without overlap; each lexeme is its span's text, non-empty except for `Eof`, and each token's line is the counter at the end of its span |
| Properties.EofOnlyAtEnd | src/scanner.rs:24 | a completed scan ends with `Eof` at the line after every line break of the source; no other token is `Eof`; a scan that hangs or panics has none |
| Properties.ReportsOnlyUnterminatedString | src/scanner.rs:17-22 | at most one error is reported: "Unterminated string", at the final line, and only by a scan that completes |
| Properties.HangsAtLineBreak | src/scanner.rs:85-92 | a scan hangs only at a line break in the source, with a `Slash` token pushed last |
| Properties.NoLineBreakNoHang | src/scanner.rs:85-92 | a source with no line break is never scanned into a hang |
| Properties.LinesNonDecreasing | src/scanner.rs:105-117 | token lines never decrease, and lie between the starting line and the line after every line break of the source |
| Properties.CompletedScanLine | src/scanner.rs:15-24 | a scan that completes ends with the line counter at the starting line plus every line break after the starting cursor |
| Properties.SingleStringSource | src/scanner.rs:202-238 | a source that is one closed string scans to its `String` token, at the line of the closing quote, then `Eof` |
| Properties.IntendedLineCommentReturns | src/scanner.rs:83-92 | the line comment as its comment describes it always returns, pushes nothing, and leaves the line break to the next call, which counts it |
| Properties.IntendedNumbersNeverAbort | src/scanner.rs:240-269 | with a digit-only integer part, the number arm never panics and its lexeme is digits and at most one `.` |
| Properties.IntendedWordRunsOverUnderscore | src/scanner.rs:126-140 | with `_` accepted after the first character too, an identifier never ends just before a `_`, and it is never shorter than the identifier as written |
| Properties.IntendedWordKeepsUnderscore | src/scanner.rs:126-140 | with the intended arm, `foo_bar` is one identifier |
| Tokens.EofToken | src/token.rs:19-26 | `Token::eof`: kind `Eof`, empty lexeme, no literal, the given line; `Properties.EofOnlyAtEnd` proves a completed scan ends with it at the final line and has no other |
| Tokens.ObjectToString | src/token.rs:45-65 | `Display for Object` as written; `Tokens.StrShowsQuoted` and `Tokens.FalseShowsAsTrue` state its texts, `Tokens.IntendedTextAgreesOnScannerLiterals` relates it to the corrected text |
| Tokens.LiteralText | src/token.rs:36-40 | the literal column of a token's text: the literal's text, or "None"; `Tokens.TokenTextRoundTrip` reads it back |
| Tokens.TokenToString | src/token.rs:29-43 | `Display for Token`: kind, lexeme and literal column joined by single spaces; `Tokens.TokenTextRoundTrip` proves it can be read back |
| Tokens.KindNameRoundTrip | src/token.rs:29-43 | the `Debug` name of every kind reads back as that kind |
| Tokens.KindNameIsOneWord | src/token.rs:31-35 | every kind name is non-empty and holds no space |
| Tokens.TokenTextRoundTrip | src/token.rs:29-43 | a token's text is kind, lexeme and literal column joined by single spaces: it always reads back to the token's kind, and, when the lexeme holds no space, to the lexeme and the literal column as well |
| Tokens.StrShowsQuoted | src/token.rs:54-56 | a string literal shows as its text between double quotes |
| Tokens.FalseShowsAsTrue | src/token.rs:57-62 | as written, `False` shows as "true", the same text as `True` |
| Tokens.IntendedTextIsInjective | src/token.rs:45-65 | with `False` showing as "false", distinct non-number literals always show differently |
| Tokens.IntendedTextAgreesOnScannerLiterals | src/token.rs:45-65 | the intended and the written text agree on the strings and numbers the scanner builds |
| Examples.AssignAndEquals | src/scanner.rs:58-65 | `=` scans to `Assign`, `==` to `Equals` |
| Examples.UnderscoreSplitsIdentifier | src/scanner.rs:126-140 | `foo_bar` scans to the identifiers `foo` and `_bar` |
| Examples.LettersInNumberPanic | src/scanner.rs:240-269 | `12ab` is one number lexeme, and the scan panics on it before pushing anything |
| Examples.LoneQuote | src/scanner.rs:219-224 | a lone `"` gives no string token and one "Unterminated string" error at line 1 |
| Examples.StringLineIsClosingLine | src/scanner.rs:202-230 | a string that spans a line break carries line 2, the line of its closing quote |
| Examples.LineCommentHangs | src/scanner.rs:85-92 | `//c`, a line break and `x` hang at the break with one `Slash` token |
| Examples.BlockCommentCountsLines | src/scanner.rs:93-110 | a block comment that spans a line break puts the word after it on line 2 |
| Examples.ExponentNumber | src/scanner.rs:239-274 | `1e5` is one `Number` lexeme that the `f64` grammar accepts |

## Left out

- `src/main.rs` (argument handling, file reading, the prompt loop, printing tokens, exit codes) is I/O glue and is not part of this model.
- The `println!` calls at src/scanner.rs:100 and src/scanner.rs:272 write to the console and change no scanner state; they are omitted.
- The `f64` value of a number and its `Display` text are floating point. `Object.Num` keeps the lexeme, and `ObjectToString` takes the number's text as a parameter `showNum`.
- `src/token_type.rs` and `src/error.rs` are not part of this model.
  - `TokenType` is the datatype of the variants the scanner names.
  - `LoxError::error` followed by `report` is modelled as appending a `Report(line, message)` to `reports`; what `report` prints is not modelled.
- The derived `Debug` text of `TokenType` is assumed to be the variant name (`KindName`).
- Non-termination is modelled as an outcome, not as a diverging loop:
  - `ScanTokens` returns `Hangs` at the first call of `scan_token` that would never return.
  - The tokens that call would go on pushing forever are represented by the one `Slash` token pushed last.
- The `.expect` panic of the number parse is modelled as the `Panic` outcome, and the scan stops there.
- The "Couldnt parse the value as a string" error of `string` (src/scanner.rs:231-235) cannot happen: the slice always lies between the two quotes. `ScanString` takes the slice without that branch.
- Four behaviours of the code are easy to miss. The model follows the code in each:
  - A string token's line is the line of its closing quote.
  - An identifier does not continue over `_`.
  - The integer part of a number takes in letters.
  - A `//` comment followed by a line break hangs.
- `Scanning.Scanner.BlockComment` leaves the loop with `return` where the source uses `break`. Nothing follows the loop in that arm, so the two are the same.

## Findings

| source | as written | input that shows it | evidently intended | confidence | as-written member | corrected member |
|---|---|---|---|---|---|---|
| src/token.rs:60-62 | `Object::False` is displayed as "true" | the literal `False` | display "false" | high, not executed | Tokens.FalseShowsAsTrue | Tokens.IntendedTextIsInjective |
| src/scanner.rs:85-92 | on a line break the line-comment loop pushes `Slash` without advancing, so it never ends | `//c`, a line break, `x` | skip to the line break and return, as the comment above the loop says | high, not executed | Properties.LineCommentHangsIffBreak | Properties.IntendedLineCommentReturns |
| src/scanner.rs:240-246 | the integer part of a number takes in ASCII letters, and the `f64` parse then panics | `12ab` | take digits only, as the fraction part does | medium, not executed | Examples.LettersInNumberPanic | Properties.IntendedNumbersNeverAbort |
| src/scanner.rs:135 | an identifier continues over letters and digits but not `_`, although `_` may start one | `foo_bar` | continue over `_` as well | medium, not executed | Examples.UnderscoreSplitsIdentifier | Properties.IntendedWordRunsOverUnderscore |

The corrected arms are `Lexemes.LineCommentIntended`, `Lexemes.NumberStepIntended`,
`Lexemes.WordStepIntended` and `Tokens.ObjectToStringIntended`. The scanner class and the
whole-scan lemmas keep the behaviour as written, because they model the program as it stands.
