/**
 * The `Scanner` of src/scanner.rs: a cursor machine over the source characters that pushes
 * tokens in place. Every method is proved to leave the state that the functions of module
 * Lexemes describe, so what is proved there holds of this class.
 */
module Scanning {
  import opened Wrappers
  import opened Chars
  import opened Float
  import opened Tokens
  import opened Lexemes
  import opened Properties

  /** How a call of `scan_token` ends: it returns (with the error it returns, if any), it never returns, or it panics. */
  datatype Outcome = Returned(error: Option<Report>) | Hang | Panic(lexeme: string)

  function OutcomeOf(r: StepResult): Outcome
  {
    match r
    case Lexed(_, _, _, error) => Returned(error)
    case Spins(_, _) => Hang
    case Aborts(_, lexeme) => Panic(lexeme)
  }

  class Scanner {
    const source: seq<char>
    var tokens: seq<Token>
    var start: nat
    var current: nat
    var line: nat
    /** The error channel: every error `scan_tokens` reports, in order. */
    var reports: seq<Report>

    ghost predicate Valid()
      reads this
    {
      start <= current <= |source|
    }

    /** The scanner's state after a recognizer step `r` that began with `tokens0` pushed and the line counter at `line0`. */
    ghost predicate Reflects(r: StepResult, tokens0: seq<Token>, line0: nat)
      reads this
    {
      match r
      case Lexed(next, l, emitted, _) => current == next && line == l && tokens == tokens0 + emitted
      case Spins(at, spin) => current == at && line == line0 && tokens == tokens0 + [spin]
      case Aborts(next, _) => current == next && line == line0 && tokens == tokens0
    }

    /** `Scanner::new` */
    constructor(source: string)
      ensures Valid()
      ensures this.source == source && tokens == [] && reports == []
      ensures start == 0 && current == 0 && line == 1
    {
      this.source := source;
      tokens, reports := [], [];
      start, current, line := 0, 0, 1;
    }

    /** `Scanner::scan_tokens`: recognizes lexemes until the input is used up, reporting each error returned, then pushes the end-of-input token. */
    method ScanTokens() returns (result: ScanResult)
      requires Valid()
      modifies this
      ensures result == Prepend(old(tokens), old(reports), ScanFrom(source, old(current), old(line)))
      ensures tokens == result.tokens && reports == result.reports
      ensures Valid()
      ensures result.Completed? ==> current == |source| && line == old(line) + Newlines(source, old(current), |source|)
    {
      ghost var current0, line0 := current, line;
      ghost var goal := Prepend(tokens, reports, ScanFrom(source, current, line));
      while !IsAtEnd()
        invariant Valid()
        invariant Prepend(tokens, reports, ScanFrom(source, current, line)) == goal
        decreases |source| - current
      {
        start := current;
        ghost var tokens0, reports0 := tokens, reports;
        ghost var r := Step(source, current, line);
        ScanFromAfterStep(source, current, line);
        var outcome := ScanToken();
        if outcome.Hang? {
          return Hangs(tokens, reports, current);
        } else if outcome.Panic? {
          return Panics(tokens, reports, outcome.lexeme);
        }
        assert r.Lexed? && tokens == tokens0 + r.emitted && current == r.next && line == r.line;
        if outcome.error.Some? {
          // `e.report(..)`: the error goes to the error channel and the scan goes on.
          reports := reports + [outcome.error.value];
        }
        assert reports == reports0 + Errors(r.error);
        PrependTwice(tokens0, r.emitted, reports0, Errors(r.error), ScanFrom(source, current, line));
      }
      // The end-of-input token of the whole scan carries the line after every line break.
      CompletedScanLine(source, current0, line0, old(tokens), old(reports), tokens, reports, line);
      tokens := tokens + [EofToken(line)];
      result := Completed(tokens, reports);
    }

    /** `Scanner::scan_token`: recognizes the one lexeme that starts at `start`. */
    method ScanToken() returns (outcome: Outcome)
      requires Valid() && start == current < |source|
      modifies this`current, this`line, this`tokens
      ensures Valid() && start == old(start)
      ensures Reflects(Step(source, start, old(line)), old(tokens), old(line))
      ensures outcome == OutcomeOf(Step(source, start, old(line)))
    {
      outcome := Returned(None);
      var c := Advance();
      match c {
        case '(' => AddToken(LeftParen);
        case ')' => AddToken(RightParen);
        case '{' => AddToken(LeftBrace);
        case '}' => AddToken(RightBrace);
        case ',' => AddToken(Comma);
        case '.' => AddToken(Dot);
        case '+' => AddToken(Plus);
        case ';' => AddToken(Semicolon);
        case '-' => AddToken(Minus);
        case '!' =>
          var matched := IsMatch('=');
          AddToken(if matched then BangEqual else Bang);
        case '=' =>
          var matched := IsMatch('=');
          AddToken(if matched then Equals else Assign);
        case '>' =>
          var matched := IsMatch('=');
          AddToken(if matched then GreaterEqual else Greater);
        case '<' =>
          var matched := IsMatch('=');
          AddToken(if matched then LessEqual else Less);
        case '/' =>
          outcome := ScanSlash();
        case '\n' =>
          line := line + 1;
        case '\r' | '\t' | ' ' =>
        case '"' =>
          outcome := ScanString();
        case _ =>
          if IsAsciiDigit(c) {
            outcome := ScanNumber();
          } else if IsAsciiAlpha(c) || c == '_' {
            ScanIdentifier();
          }
      }
    }

    /** The `/` arm of `scan_token`, entered with the cursor just past the slash: a line comment, a block comment or `Slash`. */
    method ScanSlash() returns (outcome: Outcome)
      requires Valid() && start + 1 == current <= |source| && source[start] == '/'
      modifies this`current, this`line, this`tokens
      ensures Valid() && Reflects(SlashStep(source, start, old(line)), old(tokens), old(line))
      ensures outcome == OutcomeOf(SlashStep(source, start, old(line)))
    {
      outcome := Returned(None);
      var lineComment := IsMatch('/');
      if lineComment {
        outcome := LineComment();
      } else {
        var blockComment := IsMatch('*');
        if blockComment {
          BlockComment();
        } else {
          AddToken(Slash);
        }
      }
    }

    /** The line-comment loop of the `/` arm, entered after `//`. */
    method LineComment() returns (outcome: Outcome)
      requires Valid() && start + 2 == current <= |source| && source[start] == '/' && source[start + 1] == '/'
      modifies this`current, this`tokens
      ensures Valid() && Reflects(SlashStep(source, start, line), old(tokens), line)
      ensures outcome == OutcomeOf(SlashStep(source, start, line))
    {
      outcome := Returned(None);
      while Peek().Some?
        invariant Valid() && start + 2 <= current && tokens == old(tokens)
        invariant forall k | start + 2 <= k < current :: source[k] != '\n'
        decreases |source| - current
      {
        var ch := Peek().value;
        if ch != '\n' {
          var _ := Advance();
        } else {
          RunEndAt(source, start + 2, current, NotNewline);
          AddToken(Slash);
          // The cursor has not moved: `peek` sees the same line break, so the loop takes this branch forever.
          assert Peek() == Some('\n');
          return Hang;
        }
      }
      RunEndAt(source, start + 2, current, NotNewline);
    }

    /** The block-comment loop of the `/` arm, entered after a slash and a star. */
    method BlockComment()
      requires Valid() && start + 2 == current <= |source| && source[start] == '/' && source[start + 1] == '*'
      modifies this`current, this`line
      ensures Valid() && current == BlockEnd(source, start + 2)
      ensures line == old(line) + Newlines(source, start + 2, current)
    {
      ghost var line0 := line;
      while Peek().Some?
        invariant Valid() && start + 2 <= current
        invariant forall k | start + 2 <= k < current :: !ClosesAt(source, k)
        invariant line == line0 + Newlines(source, start + 2, current)
        decreases |source| - current
      {
        var ch := Peek().value;
        match ch {
          case '*' =>
            if PeekNext() == Some('/') {
              BlockEndAt(source, start + 2, current);
              var _ := Advance();
              var _ := Advance();
              return;
            }
          case '\n' =>
            line := line + 1;
          case _ =>
        }
        var _ := Advance();
      }
      BlockEndAt(source, start + 2, current);
    }

    /** `Scanner::identifier` */
    method ScanIdentifier()
      requires Valid() && start + 1 == current <= |source| && (IsAsciiAlpha(source[start]) || source[start] == '_')
      modifies this`current, this`tokens
      ensures Valid() && Reflects(WordStep(source, start, line), old(tokens), line)
    {
      while Peek().Some?
        invariant Valid() && start + 1 <= current && tokens == old(tokens)
        invariant forall k | start + 1 <= k < current :: IsAsciiAlphanumeric(source[k])
        decreases |source| - current
      {
        if IsAsciiAlphanumeric(Peek().value) {
          var _ := Advance();
        } else {
          break;
        }
      }
      RunEndAt(source, start + 1, current, AsciiAlphanumeric);
      var text := source[start..current];
      match Keywords(text) {
        case Some(ttype) => AddToken(ttype);
        case None => AddToken(Identifier);
      }
    }

    /** `Scanner::is_at_end` */
    predicate IsAtEnd()
      reads this
      ensures IsAtEnd() <==> Peek() == None
    {
      current >= |source|
    }

    /** `Scanner::advance`: consumes the character at the cursor (the source unwraps it, so there must be one). */
    method Advance() returns (c: char)
      requires current < |source|
      modifies this`current
      ensures current == old(current) + 1 && c == source[old(current)]
    {
      c := source[current];
      current := current + 1;
    }

    /** `Scanner::add_token` */
    method AddToken(ttype: TokenType)
      requires start <= current <= |source|
      modifies this`tokens
      ensures tokens == old(tokens) + [Token(ttype, source[start..current], None, line)]
    {
      AddTokenObject(ttype, None);
    }

    /** `Scanner::add_token_object`: pushes a token whose lexeme is the text from `start` to the cursor. */
    method AddTokenObject(ttype: TokenType, literal: Option<Object>)
      requires start <= current <= |source|
      modifies this`tokens
      ensures tokens == old(tokens) + [Token(ttype, source[start..current], literal, line)]
    {
      var lexeme := source[start..current];
      tokens := tokens + [Token(ttype, lexeme, literal, line)];
    }

    /** `Scanner::is_match`: consumes the next character exactly when it is `expected`. */
    method IsMatch(expected: char) returns (matched: bool)
      requires current <= |source|
      modifies this`current
      ensures matched <==> old(current) < |source| && source[old(current)] == expected
      ensures current == if matched then old(current) + 1 else old(current)
    {
      if current < |source| && source[current] == expected {
        current := current + 1;
        return true;
      }
      return false;
    }

    /** `Scanner::peek`: the character at the cursor, if any. */
    function Peek(): (c: Option<char>)
      reads this
      ensures c.Some? <==> current < |source|
      ensures c.Some? ==> c.value == source[current]
    {
      if current < |source| then Some(source[current]) else None
    }

    /** `Scanner::peek_next`: the character after the one at the cursor, if any. */
    function PeekNext(): (c: Option<char>)
      reads this
      ensures c.Some? <==> current + 1 < |source|
      ensures c.Some? ==> c.value == source[current + 1]
    {
      if current + 1 < |source| then Some(source[current + 1]) else None
    }

    /** `Scanner::string`, entered after the opening quote. */
    method ScanString() returns (outcome: Outcome)
      requires Valid() && start + 1 == current <= |source| && source[start] == '"'
      modifies this`current, this`line, this`tokens
      ensures Valid() && Reflects(StringStep(source, start, old(line)), old(tokens), old(line))
      ensures outcome == OutcomeOf(StringStep(source, start, old(line)))
    {
      while Peek().Some?
        invariant Valid() && start + 1 <= current && tokens == old(tokens)
        invariant forall k | start + 1 <= k < current :: source[k] != '"'
        invariant line == old(line) + Newlines(source, start + 1, current)
        decreases |source| - current
      {
        var ch := Peek().value;
        match ch {
          case '"' =>
            break;
          case '\n' =>
            line := line + 1;
          case _ =>
        }
        var _ := Advance();
      }
      StringStepEndsAt(source, start, old(line), current);
      if IsAtEnd() {
        return Returned(Some(Report(line, "Unterminated string")));
      }
      var _ := Advance();
      // `source.get(start + 1..current - 1)` always succeeds: the range lies between the two quotes,
      // so the "Couldnt parse" error of the source cannot be returned.
      var value := source[start + 1..current - 1];
      AddTokenObject(String, Some(Str(value)));
      outcome := Returned(None);
    }

    /** `Scanner::number`, entered after the first digit. */
    method ScanNumber() returns (outcome: Outcome)
      requires Valid() && start + 1 == current <= |source| && IsAsciiDigit(source[start])
      modifies this`current, this`tokens
      ensures Valid() && Reflects(NumberStep(source, start, line), old(tokens), line)
      ensures outcome == OutcomeOf(NumberStep(source, start, line))
    {
      while Peek().Some?
        invariant Valid() && start + 1 <= current && tokens == old(tokens)
        invariant forall k | start + 1 <= k < current :: IsAsciiAlphanumeric(source[k])
        decreases |source| - current
      {
        if IsAsciiAlphanumeric(Peek().value) {
          var _ := Advance();
        } else {
          break;
        }
      }
      ghost var whole := current;
      if Peek() == Some('.') && PeekNext().Some? && IsAsciiDigit(PeekNext().value) {
        var _ := Advance();
        while Peek().Some?
          invariant Valid() && whole + 1 <= current && tokens == old(tokens)
          invariant forall k | whole + 1 <= k < current :: IsAsciiDigit(source[k])
          decreases |source| - current
        {
          if IsAsciiDigit(Peek().value) {
            var _ := Advance();
          } else {
            break;
          }
        }
      }
      NumberStepEndsAt(source, start, line, whole, current);
      var lexeme := source[start..current];
      if !ParsesAsF64(lexeme) {
        // `.expect("Could not parse number")` panics.
        return Panic(lexeme);
      }
      AddTokenObject(Number, Some(Num(lexeme)));
      outcome := Returned(None);
    }
  }

  /** `Scanner::new(source)` followed by `scan_tokens()`: the scan of a whole source text. */
  method ScanSource(source: string) returns (result: ScanResult)
    ensures result == Lex(source)
  {
    var scanner := new Scanner(source);
    result := scanner.ScanTokens();
    assert Prepend([], [], Lex(source)) == Lex(source);
  }
}
