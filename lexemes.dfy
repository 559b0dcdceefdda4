/**
 * What the scanner of src/scanner.rs computes, as functions of the source text: one call of the
 * single-lexeme recognizer (`Step`) and the whole left-to-right scan (`ScanFrom`, `Lex`).
 * The class in scanner.dfy is proved to compute exactly these; the lemmas here state what the
 * scanner promises about them.
 */
module Lexemes {
  import opened Wrappers
  import opened Chars
  import opened Float
  import opened Tokens

  /** A lexical error handed to the error channel: the line it is reported at and its message. */
  datatype Report = Report(line: nat, message: string)

  /** What one call of the recognizer does with the lexeme that starts at index `s`. */
  datatype StepResult =
      /** returns, with the cursor at `next`, the line counter at `line`, the tokens it pushed, and the error it returned, if any */
    | Lexed(next: nat, line: nat, emitted: seq<Token>, error: Option<Report>)
      /** never returns: the line-comment loop stands at the line break `at` and pushes `spin` on every turn */
    | Spins(at: nat, spin: Token)
      /** ends the program: the number lexeme `src[s..next]` does not parse as an `f64` */
    | Aborts(next: nat, lexeme: string)

  /** What a whole scan does: the tokens pushed and the errors reported until it returns, hangs or aborts. */
  datatype ScanResult =
      /** returns the token list, which ends with the end-of-input token */
    | Completed(tokens: seq<Token>, reports: seq<Report>)
      /** hangs in a line comment at the line break `at`; the last token is the one pushed again and again */
    | Hangs(tokens: seq<Token>, reports: seq<Report>, at: nat)
      /** aborts on the number lexeme `lexeme` */
    | Panics(tokens: seq<Token>, reports: seq<Report>, lexeme: string)

  /** `Scanner::keywords`: the reserved words, case-sensitive and exact. */
  function Keywords(check: string): Option<TokenType>
  {
    match check
    case "and" => Some(And)
    case "class" => Some(Class)
    case "else" => Some(Else)
    case "true" => Some(TokenType.True)
    case "false" => Some(TokenType.False)
    case "for" => Some(For)
    case "fun" => Some(Fun)
    case "if" => Some(If)
    case "nil" => Some(TokenType.Nil)
    case "or" => Some(Or)
    case "print" => Some(Print)
    case "return" => Some(Return)
    case "super" => Some(Super)
    case "this" => Some(This)
    case "var" => Some(Var)
    case "while" => Some(While)
    case _ => None
  }

  /** The spelling of each keyword kind: the inverse of `Keywords`. */
  function KeywordText(k: TokenType): Option<string>
  {
    match k
    case And => Some("and")
    case Class => Some("class")
    case Else => Some("else")
    case True => Some("true")
    case False => Some("false")
    case For => Some("for")
    case Fun => Some("fun")
    case If => Some("if")
    case Nil => Some("nil")
    case Or => Some("or")
    case Print => Some("print")
    case Return => Some("return")
    case Super => Some("super")
    case This => Some("this")
    case Var => Some("var")
    case While => Some("while")
    case _ => None
  }

  /** A word maps to a keyword kind exactly when it is that kind's spelling. */
  lemma KeywordsExact(w: string, k: TokenType)
    ensures Keywords(w) == Some(k) <==> KeywordText(k) == Some(w)
  {
    match k
    case And =>
    case Class =>
    case Else =>
    case True =>
    case False =>
    case For =>
    case Fun =>
    case If =>
    case Nil =>
    case Or =>
    case Print =>
    case Return =>
    case Super =>
    case This =>
    case Var =>
    case While =>
    case _ =>
  }

  /** The kind of a word: its keyword kind, or `Identifier`. */
  function WordKind(text: string): TokenType
  {
    match Keywords(text)
    case Some(k) => k
    case None => Identifier
  }

  /** The single-character punctuation and its kinds. */
  function Punctuation(c: char): Option<TokenType>
  {
    match c
    case '(' => Some(LeftParen)
    case ')' => Some(RightParen)
    case '{' => Some(LeftBrace)
    case '}' => Some(RightBrace)
    case ',' => Some(Comma)
    case '.' => Some(Dot)
    case '+' => Some(Plus)
    case ';' => Some(Semicolon)
    case '-' => Some(Minus)
    case _ => None
  }

  predicate IsOperatorStart(c: char)
  {
    c == '!' || c == '=' || c == '>' || c == '<'
  }

  /** The kinds of an operator character: alone, and followed by `=`. */
  function OperatorKinds(c: char): (TokenType, TokenType)
    requires IsOperatorStart(c)
  {
    match c
    case '!' => (Bang, BangEqual)
    case '=' => (Assign, Equals)
    case '>' => (Greater, GreaterEqual)
    case '<' => (Less, LessEqual)
  }

  /** A block comment's closing `*` `/` starts at index `k`. */
  predicate ClosesAt(src: seq<char>, k: nat)
  {
    k + 1 < |src| && src[k] == '*' && src[k + 1] == '/'
  }

  /** Where the block-comment loop started at `i` leaves the cursor: just past the first closing pair, or at the end. */
  function BlockEnd(src: seq<char>, i: nat): (e: nat)
    requires i <= |src|
    ensures i <= e <= |src|
    ensures || (e == |src| && forall k | i <= k < |src| :: !ClosesAt(src, k))
            || (i + 2 <= e && ClosesAt(src, e - 2) && forall k | i <= k < e - 2 :: !ClosesAt(src, k))
    decreases |src| - i
  {
    if i == |src| then i
    else if ClosesAt(src, i) then i + 2
    else BlockEnd(src, i + 1)
  }

  /** The converse of `BlockEnd`'s contract: with no closing pair from `i` before `c`, the comment ends past the pair at `c`, or at the end. */
  lemma {:induction false} BlockEndAt(src: seq<char>, i: nat, c: nat)
    requires i <= c <= |src|
    requires forall k | i <= k < c :: !ClosesAt(src, k)
    requires c == |src| || ClosesAt(src, c)
    ensures BlockEnd(src, i) == if c == |src| then c else c + 2
    decreases c - i
  {
    if i < c {
      BlockEndAt(src, i + 1, c);
    }
  }

  /** The `!`, `=`, `>` and `<` arms. */
  function OperatorStep(src: seq<char>, s: nat, line: nat): StepResult
    requires s < |src| && IsOperatorStart(src[s])
  {
    var two := s + 1 < |src| && src[s + 1] == '=';
    var next := if two then s + 2 else s + 1;
    var kind := if two then OperatorKinds(src[s]).1 else OperatorKinds(src[s]).0;
    Lexed(next, line, [Token(kind, src[s..next], None, line)], None)
  }

  /** The `/` arm: line comment, block comment or division. */
  function SlashStep(src: seq<char>, s: nat, line: nat): StepResult
    requires s < |src| && src[s] == '/'
  {
    if s + 1 < |src| && src[s + 1] == '/' then
      var k := RunEnd(src, s + 2, NotNewline);
      if k < |src| then Spins(k, Token(Slash, src[s..k], None, line))
      else Lexed(|src|, line, [], None)
    else if s + 1 < |src| && src[s + 1] == '*' then
      var e := BlockEnd(src, s + 2);
      Lexed(e, line + Newlines(src, s + 2, e), [], None)
    else
      Lexed(s + 1, line, [Token(Slash, src[s..s + 1], None, line)], None)
  }

  /** The `"` arm (`Scanner::string`). */
  function StringStep(src: seq<char>, s: nat, line: nat): (r: StepResult)
    requires s < |src| && src[s] == '"'
    ensures r.Lexed? && s < r.next <= |src| && r.line == line + Newlines(src, s, r.next)
    ensures r.emitted == [] <==> forall k | s < k < |src| :: src[k] != '"'
    ensures r.emitted == [] ==> r.next == |src| && r.error == Some(Report(r.line, "Unterminated string"))
    ensures r.emitted != [] ==>
      && r.error == None
      && s + 2 <= r.next && src[r.next - 1] == '"' && (forall k | s < k < r.next - 1 :: src[k] != '"')
      && r.emitted == [Token(String, src[s..r.next], Some(Str(src[s + 1..r.next - 1])), r.line)]
  {
    var q := RunEnd(src, s + 1, NotQuote);
    var l := line + Newlines(src, s + 1, q);
    NewlinesSplit(src, s, s + 1, q);
    if q == |src| then
      Lexed(q, l, [], Some(Report(l, "Unterminated string")))
    else
      NewlinesSplit(src, s, q, q + 1);
      Lexed(q + 1, l, [Token(String, src[s..q + 1], Some(Str(src[s + 1..q])), l)], None)
  }

  /** The string recognizer's outcome once the characters after the opening quote up to `q` are no quote and `q` is a quote or the end. */
  lemma StringStepEndsAt(src: seq<char>, s: nat, line: nat, q: nat)
    requires s < q <= |src| && src[s] == '"'
    requires forall k | s + 1 <= k < q :: src[k] != '"'
    requires q == |src| || src[q] == '"'
    ensures StringStep(src, s, line) ==
      if q == |src| then Lexed(q, line + Newlines(src, s + 1, q), [], Some(Report(line + Newlines(src, s + 1, q), "Unterminated string")))
      else Lexed(q + 1, line + Newlines(src, s + 1, q), [Token(String, src[s..q + 1], Some(Str(src[s + 1..q])), line + Newlines(src, s + 1, q))], None)
  {
    RunEndAt(src, s + 1, q, NotQuote);
  }

  /** The digit arm (`Scanner::number`); the lexeme is handed to the `f64` parser, which must accept it. */
  function NumberStep(src: seq<char>, s: nat, line: nat): (r: StepResult)
    requires s < |src| && IsAsciiDigit(src[s])
    ensures r.Lexed? || r.Aborts?
    ensures s < r.next <= |src|
    ensures forall k | s <= k < r.next :: IsAsciiAlphanumeric(src[k]) || src[k] == '.'
    ensures r.next == |src| || !IsAsciiDigit(src[r.next])
    ensures r.Lexed? <==> ParsesAsF64(src[s..r.next])
    ensures r.Lexed? ==> r == Lexed(r.next, line, [Token(Number, src[s..r.next], Some(Num(src[s..r.next])), line)], None)
    ensures r.Aborts? ==> r.lexeme == src[s..r.next]
  {
    var whole := RunEnd(src, s + 1, AsciiAlphanumeric);
    var e := NumberEnd(src, whole);
    var lexeme := src[s..e];
    if ParsesAsF64(lexeme) then Lexed(e, line, [Token(Number, lexeme, Some(Num(lexeme)), line)], None)
    else Aborts(e, lexeme)
  }

  /** Where the number recognizer stops once its alphanumeric run ends at `whole`: past a fraction of digits if a `.` and a digit follow. */
  function NumberEnd(src: seq<char>, whole: nat): (e: nat)
    requires whole <= |src|
    requires whole == |src| || !IsAsciiAlphanumeric(src[whole])
    ensures whole <= e <= |src|
    ensures forall k | whole <= k < e :: IsAsciiDigit(src[k]) || (k == whole && src[k] == '.')
    ensures e == |src| || !IsAsciiDigit(src[e])
    ensures e == whole || whole + 1 < e
    ensures whole + 1 < |src| && src[whole] == '.' && IsAsciiDigit(src[whole + 1]) ==> whole < e
  {
    if whole + 1 < |src| && src[whole] == '.' && IsAsciiDigit(src[whole + 1])
    then RunEnd(src, whole + 1, AsciiDigit) else whole
  }

  /**
   * The number recognizer's outcome, given where its alphanumeric run from `s` ends (`whole`)
   * and where the digits of its fraction end (`e`, which is `whole` when no fraction follows).
   */
  lemma NumberStepEndsAt(src: seq<char>, s: nat, line: nat, whole: nat, e: nat)
    requires s < whole <= |src| && IsAsciiDigit(src[s])
    requires forall k | s + 1 <= k < whole :: IsAsciiAlphanumeric(src[k])
    requires whole == |src| || !IsAsciiAlphanumeric(src[whole])
    requires if whole + 1 < |src| && src[whole] == '.' && IsAsciiDigit(src[whole + 1])
      then whole + 1 < e <= |src| && (forall k | whole + 1 <= k < e :: IsAsciiDigit(src[k])) && (e == |src| || !IsAsciiDigit(src[e]))
      else e == whole
    ensures NumberStep(src, s, line) ==
      if ParsesAsF64(src[s..e]) then Lexed(e, line, [Token(Number, src[s..e], Some(Num(src[s..e])), line)], None)
      else Aborts(e, src[s..e])
  {
    RunEndAt(src, s + 1, whole, AsciiAlphanumeric);
    NumberEndAt(src, whole, e);
  }

  /** The converse of `NumberEnd`'s contract. */
  lemma NumberEndAt(src: seq<char>, whole: nat, e: nat)
    requires whole <= |src| && (whole == |src| || !IsAsciiAlphanumeric(src[whole]))
    requires if whole + 1 < |src| && src[whole] == '.' && IsAsciiDigit(src[whole + 1])
      then whole + 1 < e <= |src| && (forall k | whole + 1 <= k < e :: IsAsciiDigit(src[k])) && (e == |src| || !IsAsciiDigit(src[e]))
      else e == whole
    ensures NumberEnd(src, whole) == e
  {
    if e != whole {
      RunEndAt(src, whole + 1, e, AsciiDigit);
    }
  }

  /** The number recognizer takes a fraction exactly when a `.` and a digit follow its alphanumeric run. */
  lemma NumberEndTakesFraction(src: seq<char>, whole: nat)
    requires whole <= |src| && (whole == |src| || !IsAsciiAlphanumeric(src[whole]))
    ensures NumberEnd(src, whole) > whole <==> whole + 1 < |src| && src[whole] == '.' && IsAsciiDigit(src[whole + 1])
  {
    var e := NumberEnd(src, whole);
    if e > whole {
      assert IsAsciiDigit(src[whole + 1]);
    }
  }

  /** The identifier arm (`Scanner::identifier`). */
  function WordStep(src: seq<char>, s: nat, line: nat): (r: StepResult)
    requires s < |src| && (IsAsciiAlpha(src[s]) || src[s] == '_')
    ensures r.Lexed? && s < r.next <= |src| && r.line == line && r.error == None
    ensures forall k | s < k < r.next :: IsAsciiAlphanumeric(src[k])
    ensures r.next == |src| || !IsAsciiAlphanumeric(src[r.next])
    ensures r.emitted == [Token(WordKind(src[s..r.next]), src[s..r.next], None, line)]
  {
    var e := RunEnd(src, s + 1, AsciiAlphanumeric);
    Lexed(e, line, [Token(WordKind(src[s..e]), src[s..e], None, line)], None)
  }

  /** `Scanner::scan_token` at index `s` with the line counter at `line`. */
  function Step(src: seq<char>, s: nat, line: nat): (r: StepResult)
    requires s < |src|
    ensures r.Lexed? ==> s < r.next <= |src|
    ensures r.Spins? ==> s < r.at < |src|
    ensures r.Aborts? ==> s < r.next <= |src|
  {
    match src[s]
    case '(' | ')' | '{' | '}' | ',' | '.' | '+' | ';' | '-' =>
      Lexed(s + 1, line, [Token(Punctuation(src[s]).value, src[s..s + 1], None, line)], None)
    case '!' | '=' | '>' | '<' => OperatorStep(src, s, line)
    case '/' => SlashStep(src, s, line)
    case '\n' => Lexed(s + 1, line + 1, [], None)
    case '\r' | '\t' | ' ' => Lexed(s + 1, line, [], None)
    case '"' => StringStep(src, s, line)
    case _ =>
      if IsAsciiDigit(src[s]) then NumberStep(src, s, line)
      else if IsAsciiAlpha(src[s]) || src[s] == '_' then WordStep(src, s, line)
      else Lexed(s + 1, line, [], None)
  }

  function Errors(error: Option<Report>): seq<Report>
  {
    match error
    case None => []
    case Some(e) => [e]
  }

  /** A scan's outcome with `tokens` and `reports` pushed before it. */
  function Prepend(tokens: seq<Token>, reports: seq<Report>, r: ScanResult): ScanResult
  {
    r.(tokens := tokens + r.tokens, reports := reports + r.reports)
  }

  /** `Scanner::scan_tokens` from cursor `cur` with the line counter at `line`: the tokens it pushes and the errors it reports. */
  function ScanFrom(src: seq<char>, cur: nat, line: nat): ScanResult
    requires cur <= |src|
    decreases |src| - cur
  {
    if cur == |src| then Completed([EofToken(line)], [])
    else
      match Step(src, cur, line)
      case Lexed(next, l, emitted, error) => Prepend(emitted, Errors(error), ScanFrom(src, next, l))
      case Spins(at, spin) => Hangs([spin], [], at)
      case Aborts(_, lexeme) => Panics([], [], lexeme)
  }

  /** A fresh scanner's scan of `src`. */
  function Lex(src: seq<char>): ScanResult
  {
    ScanFrom(src, 0, 1)
  }

  /** Pushing two batches one after the other is pushing their concatenation. */
  lemma PrependTwice(t1: seq<Token>, t2: seq<Token>, r1: seq<Report>, r2: seq<Report>, r: ScanResult)
    ensures Prepend(t1, r1, Prepend(t2, r2, r)) == Prepend(t1 + t2, r1 + r2, r)
  {
    assert t1 + (t2 + r.tokens) == (t1 + t2) + r.tokens;
    assert r1 + (r2 + r.reports) == (r1 + r2) + r.reports;
  }

  /** One turn of the scan loop: the scan from `cur` is the step's tokens and error followed by the scan from where the step left off. */
  lemma ScanFromAfterStep(src: seq<char>, cur: nat, line: nat)
    requires cur < |src|
    ensures var r := Step(src, cur, line);
      && (r.Lexed? ==> ScanFrom(src, cur, line) == Prepend(r.emitted, Errors(r.error), ScanFrom(src, r.next, r.line)))
      && (r.Spins? ==> ScanFrom(src, cur, line) == Hangs([r.spin], [], r.at))
      && (r.Aborts? ==> ScanFrom(src, cur, line) == Panics([], [], r.lexeme))
  {
  }

  // Evidently intended behaviour of three arms whose code does otherwise (see the README's findings).

  /** The `//` arm as its comment describes it: skip the rest of the line and return, leaving the line break to the next call. */
  function LineCommentIntended(src: seq<char>, s: nat, line: nat): StepResult
    requires s + 1 < |src| && src[s] == '/' && src[s + 1] == '/'
  {
    Lexed(RunEnd(src, s + 2, NotNewline), line, [], None)
  }

  /** The digit arm with an integer part of digits only, as the fraction part already is. */
  function NumberStepIntended(src: seq<char>, s: nat, line: nat): StepResult
    requires s < |src| && IsAsciiDigit(src[s])
  {
    var whole := RunEnd(src, s + 1, AsciiDigit);
    var e := if whole + 1 < |src| && src[whole] == '.' && IsAsciiDigit(src[whole + 1]) then RunEnd(src, whole + 1, AsciiDigit) else whole;
    var lexeme := src[s..e];
    if ParsesAsF64(lexeme) then Lexed(e, line, [Token(Number, lexeme, Some(Num(lexeme)), line)], None)
    else Aborts(e, lexeme)
  }

  /** The identifier arm continuing over `_` as well, the character it already accepts as a start. */
  function WordStepIntended(src: seq<char>, s: nat, line: nat): StepResult
    requires s < |src| && (IsAsciiAlpha(src[s]) || src[s] == '_')
  {
    var e := RunEnd(src, s + 1, WordChar);
    Lexed(e, line, [Token(WordKind(src[s..e]), src[s..e], None, line)], None)
  }
}
