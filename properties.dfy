/**
 * What the scanner of src/scanner.rs promises, proved of the functions in module Lexemes:
 * first about one call of the recognizer, then about a whole scan.
 */
module Properties {
  import opened Wrappers
  import opened Chars
  import opened Float
  import opened Tokens
  import opened Lexemes

  /** A token the recognizer pushed for the lexeme `src[s..e]` with the line counter at `l`. */
  predicate PushedFor(t: Token, src: seq<char>, s: nat, e: nat, l: nat)
    requires s <= e <= |src|
  {
    t.ttype != Eof && t.lexeme == src[s..e] && t.line == l
  }

  // ---------------------------------------------------------------------------------------
  // One call of the recognizer
  // ---------------------------------------------------------------------------------------

  /**
   * What every call of the recognizer at index `s` does: a call that returns pushes at most one
   * token, whose lexeme is exactly the text consumed and whose line is the line counter after
   * the call; the counter goes up by the line breaks consumed; an error comes only from a string
   * left open, with no token, at the end of the input. A call that never returns stands at a
   * line break with one `Slash` pushed; a call that panics has consumed a number lexeme.
   */
  predicate StepKeeps(src: seq<char>, s: nat, line: nat, r: StepResult)
    requires s < |src|
  {
    match r
    case Lexed(next, l, emitted, error) =>
      && s < next <= |src|
      && l == line + Newlines(src, s, next)
      && |emitted| <= 1
      && (forall t | t in emitted :: PushedFor(t, src, s, next, l))
      && (error.Some? ==> src[s] == '"' && emitted == [] && next == |src| && error.value == Report(l, "Unterminated string"))
    case Spins(at, spin) =>
      && s < at < |src| && src[at] == '\n' && Newlines(src, s, at) == 0
      && spin == Token(Slash, src[s..at], None, line)
    case Aborts(next, lexeme) =>
      && s < next <= |src|
      && IsAsciiDigit(src[s]) && lexeme == src[s..next] && Newlines(src, s, next) == 0
  }

  lemma StepFacts(src: seq<char>, s: nat, line: nat)
    requires s < |src|
    ensures StepKeeps(src, s, line, Step(src, s, line))
  {
    match src[s]
    case '(' | ')' | '{' | '}' | ',' | '.' | '+' | ';' | '-' =>
    case '!' | '=' | '>' | '<' => OperatorFacts(src, s, line);
    case '/' => SlashFacts(src, s, line);
    case '\n' =>
    case '\r' | '\t' | ' ' =>
    case '"' => StringFacts(src, s, line);
    case _ =>
      if IsAsciiDigit(src[s]) {
        NumberFacts(src, s, line);
      } else if IsAsciiAlpha(src[s]) || src[s] == '_' {
        WordFacts(src, s, line);
      }
  }

  lemma SlashFacts(src: seq<char>, s: nat, line: nat)
    requires s < |src| && src[s] == '/'
    ensures StepKeeps(src, s, line, SlashStep(src, s, line))
  {
    if s + 1 < |src| && src[s + 1] == '/' {
      var k := RunEnd(src, s + 2, NotNewline);
      NoNewlines(src, s, k);
    } else if s + 1 < |src| && src[s + 1] == '*' {
      var e := BlockEnd(src, s + 2);
      NewlinesSplit(src, s, s + 2, e);
      NoNewlines(src, s, s + 2);
    }
  }

  lemma StringFacts(src: seq<char>, s: nat, line: nat)
    requires s < |src| && src[s] == '"'
    ensures StepKeeps(src, s, line, StringStep(src, s, line))
  {
  }

  lemma NumberFacts(src: seq<char>, s: nat, line: nat)
    requires s < |src| && IsAsciiDigit(src[s])
    ensures StepKeeps(src, s, line, NumberStep(src, s, line))
  {
    NoNewlines(src, s, NumberStep(src, s, line).next);
  }

  lemma WordFacts(src: seq<char>, s: nat, line: nat)
    requires s < |src| && (IsAsciiAlpha(src[s]) || src[s] == '_')
    ensures StepKeeps(src, s, line, WordStep(src, s, line))
  {
    NoNewlines(src, s, WordStep(src, s, line).next);
  }

  lemma OperatorFacts(src: seq<char>, s: nat, line: nat)
    requires s < |src| && IsOperatorStart(src[s])
    ensures StepKeeps(src, s, line, OperatorStep(src, s, line))
  {
    NoNewlines(src, s, OperatorStep(src, s, line).next);
  }

  /**
   * `!`, `=`, `>` and `<` take the `=` that follows them into a two-character operator, and
   * otherwise stand alone; `=` alone is the assignment `Assign`, `==` is `Equals`.
   */
  lemma OperatorPairs(src: seq<char>, s: nat, line: nat)
    requires s < |src| && IsOperatorStart(src[s])
    ensures var r := Step(src, s, line);
      var two := s + 1 < |src| && src[s + 1] == '=';
      && r.Lexed? && r.line == line && r.error == None && |r.emitted| == 1
      && r.next == (if two then s + 2 else s + 1)
      && r.emitted[0].lexeme == (if two then [src[s], '='] else [src[s]])
      && (src[s] == '!' ==> r.emitted[0].ttype == if two then BangEqual else Bang)
      && (src[s] == '=' ==> r.emitted[0].ttype == if two then Equals else Assign)
      && (src[s] == '>' ==> r.emitted[0].ttype == if two then GreaterEqual else Greater)
      && (src[s] == '<' ==> r.emitted[0].ttype == if two then LessEqual else Less)
  {
    var r := OperatorStep(src, s, line);
    assert r == Step(src, s, line);
    if s + 1 < |src| && src[s + 1] == '=' {
      assert src[s..s + 2] == [src[s], '='];
    } else {
      assert src[s..s + 1] == [src[s]];
    }
  }

  /**
   * `//` skips to the next line break; when there is one, the loop stands on it forever with a
   * `Slash` token pushed for the comment, and when there is none the comment runs to the end.
   */
  lemma LineCommentHangsIffBreak(src: seq<char>, s: nat, line: nat)
    requires s + 1 < |src| && src[s] == '/' && src[s + 1] == '/'
    ensures var r := Step(src, s, line);
      && (r.Spins? <==> exists k | s + 2 <= k < |src| :: src[k] == '\n')
      && (r.Spins? ==>
            && s + 2 <= r.at && src[r.at] == '\n' && (forall k | s + 2 <= k < r.at :: src[k] != '\n')
            && r.spin == Token(Slash, src[s..r.at], None, line))
      && (!r.Spins? ==> r == Lexed(|src|, line, [], None))
  {
    var r := SlashStep(src, s, line);
    assert r == Step(src, s, line);
    var k := RunEnd(src, s + 2, NotNewline);
    if k < |src| {
      assert src[k] == '\n';
    }
  }

  /**
   * A slash and a star start a block comment that pushes no token and ends just past the first closing pair
   * after it (comments do not nest), or at the end of the input when there is none; the line
   * counter counts the line breaks inside it.
   */
  lemma BlockCommentEndsAtFirstClose(src: seq<char>, s: nat, line: nat)
    requires s + 1 < |src| && src[s] == '/' && src[s + 1] == '*'
    ensures var r := Step(src, s, line);
      && r.Lexed? && r.emitted == [] && r.error == None && r.line == line + Newlines(src, s, r.next)
      && (|| (r.next == |src| && forall k | s + 2 <= k < |src| :: !ClosesAt(src, k))
          || (s + 4 <= r.next && ClosesAt(src, r.next - 2) && forall k | s + 2 <= k < r.next - 2 :: !ClosesAt(src, k)))
  {
    StepFacts(src, s, line);
  }

  /** A `/` followed by neither `/` nor `*` is the division operator. */
  lemma LoneSlash(src: seq<char>, s: nat, line: nat)
    requires s < |src| && src[s] == '/' && !(s + 1 < |src| && (src[s + 1] == '/' || src[s + 1] == '*'))
    ensures Step(src, s, line) == Lexed(s + 1, line, [Token(Slash, "/", None, line)], None)
  {
    assert src[s..s + 1] == "/";
  }

  /** A punctuation mark is one token of its kind whose lexeme is that one character. */
  lemma PunctuationArm(src: seq<char>, s: nat, line: nat)
    requires s < |src| && Punctuation(src[s]).Some?
    ensures Step(src, s, line) == Lexed(s + 1, line, [Token(Punctuation(src[s]).value, [src[s]], None, line)], None)
  {
    assert src[s..s + 1] == [src[s]];
  }

  /** A line break pushes nothing and raises the line counter by one. */
  lemma LineBreakArm(src: seq<char>, s: nat, line: nat)
    requires s < |src| && src[s] == '\n'
    ensures Step(src, s, line) == Lexed(s + 1, line + 1, [], None)
  {
  }

  /** Whitespace other than a line break, and every character no arm recognizes, are skipped without a token or an error. */
  lemma OtherCharSkipped(src: seq<char>, s: nat, line: nat)
    requires s < |src|
    requires Punctuation(src[s]).None? && !IsOperatorStart(src[s]) && src[s] !in "/\n\""
    requires !IsAsciiAlphanumeric(src[s]) && src[s] != '_'
    ensures Step(src, s, line) == Lexed(s + 1, line, [], None)
  {
  }

  /**
   * An identifier starts at an ASCII letter or `_` and runs over ASCII letters and digits only
   * (so a `_` starts a new word); it is a keyword exactly when it spells one.
   */
  lemma WordsAndKeywords(src: seq<char>, s: nat, line: nat)
    requires s < |src| && (IsAsciiAlpha(src[s]) || src[s] == '_')
    ensures var r := Step(src, s, line);
      && r.Lexed? && r.line == line && r.error == None && |r.emitted| == 1
      && (forall k | s < k < r.next :: IsAsciiAlphanumeric(src[k]))
      && (r.next == |src| || !IsAsciiAlphanumeric(src[r.next]))
      && var t := r.emitted[0];
      && t.lexeme == src[s..r.next]
      && (t.ttype == Identifier <==> Keywords(t.lexeme) == None)
      && (t.ttype != Identifier ==> KeywordText(t.ttype) == Some(t.lexeme))
  {
    var r := WordStep(src, s, line);
    assert r == Step(src, s, line);
    var text := src[s..r.next];
    match Keywords(text)
    case Some(k) =>
      KeywordsExact(text, k);
    case None =>
  }

  /** A number made only of digits, with or without a fraction, never makes the `f64` parse panic: only letters taken into the run can. */
  lemma DigitNumbersParse(src: seq<char>, s: nat, line: nat)
    requires s < |src| && IsAsciiDigit(src[s])
    ensures var r := Step(src, s, line);
      r.Aborts? ==> exists k | s < k < r.next :: IsAsciiAlpha(src[k])
  {
    var r := NumberStep(src, s, line);
    assert r == Step(src, s, line);
    if forall k | s < k < r.next :: !IsAsciiAlpha(src[k]) {
      var whole := RunEnd(src, s + 1, AsciiAlphanumeric);
      assert r.next == NumberEnd(src, whole);
      DigitsAndFractionParse(src, s, whole, r.next);
    }
  }

  /** Digits from `s` to `whole`, then nothing or a `.` and digits up to `e`, parse as an `f64`. */
  lemma DigitsAndFractionParse(src: seq<char>, s: nat, whole: nat, e: nat)
    requires s < whole <= e <= |src|
    requires forall k | s <= k < whole :: IsAsciiDigit(src[k])
    requires forall k | whole <= k < e :: IsAsciiDigit(src[k]) || (k == whole && src[k] == '.')
    requires e == whole || (whole + 1 < e && src[whole] == '.')
    ensures ParsesAsF64(src[s..e])
  {
    assert AllDigits(src[s..whole]);
    if e == whole {
      DigitsParse(src[s..whole], []);
    } else {
      SliceAround(src, s, whole, e);
      assert AllDigits(src[whole + 1..e]);
      DigitsParse(src[s..whole], src[whole + 1..e]);
    }
  }

  /** A terminated string's literal shows as its lexeme: the text between the quotes, in quotes. */
  lemma StringLiteralShowsAsLexeme(src: seq<char>, s: nat, line: nat, showNum: string -> string)
    requires s < |src| && src[s] == '"'
    ensures var r := Step(src, s, line);
      r.emitted != [] ==> r.emitted[0].literal.Some? && ObjectToString(r.emitted[0].literal.value, showNum) == r.emitted[0].lexeme
  {
    var r := StringStep(src, s, line);
    assert r == Step(src, s, line);
    if r.emitted != [] {
      assert src[s..r.next] == ['"'] + src[s + 1..r.next - 1] + ['"'];
    }
  }

  // ---------------------------------------------------------------------------------------
  // A whole scan
  // ---------------------------------------------------------------------------------------

  /**
   * `spans` places each of `toks` in the source scanned from `cur` with the line counter at
   * `line`: the spans lie in source order without overlapping, each token's lexeme is its span's
   * text (non-empty except for the end-of-input token), and each token's line is the line counter
   * at the end of its span.
   */
  ghost predicate Tiles(src: seq<char>, cur: nat, line: nat, toks: seq<Token>, spans: seq<(nat, nat)>)
    requires cur <= |src|
  {
    && |spans| == |toks|
    && (forall k | 0 <= k < |spans| ::
          && cur <= spans[k].0 <= spans[k].1 <= |src|
          && toks[k].lexeme == src[spans[k].0..spans[k].1]
          && toks[k].line == line + Newlines(src, cur, spans[k].1)
          && (toks[k].ttype != Eof ==> spans[k].0 < spans[k].1))
    && (forall i, j | 0 <= i < j < |spans| :: spans[i].1 <= spans[j].0)
  }

  /** Every scan's tokens, however it ends, tile the source in order and carry the line they end on. */
  lemma {:induction false} TokenSpans(src: seq<char>, cur: nat, line: nat) returns (spans: seq<(nat, nat)>)
    requires cur <= |src|
    ensures Tiles(src, cur, line, ScanFrom(src, cur, line).tokens, spans)
    decreases |src| - cur
  {
    if cur == |src| {
      spans := [(|src|, |src|)];
    } else {
      var r := Step(src, cur, line);
      StepFacts(src, cur, line);
      ScanFromAfterStep(src, cur, line);
      if r.Lexed? {
        var rest := TokenSpans(src, r.next, r.line);
        spans := TilesAfterStep(src, cur, line, r, ScanFrom(src, r.next, r.line).tokens, rest);
      } else if r.Spins? {
        spans := [(cur, r.at)];
      } else {
        spans := [];
      }
    }
  }

  /** The tokens of one returning recognizer call, put in front of the tokens placed after it. */
  lemma TilesAfterStep(src: seq<char>, cur: nat, line: nat, r: StepResult, toks: seq<Token>, rest: seq<(nat, nat)>)
      returns (spans: seq<(nat, nat)>)
    requires cur < |src| && r.Lexed? && StepKeeps(src, cur, line, r)
    requires Tiles(src, r.next, r.line, toks, rest)
    ensures Tiles(src, cur, line, r.emitted + toks, spans)
  {
    TilesWiden(src, cur, r.next, line, r.line, toks, rest);
    if r.emitted == [] {
      spans := rest;
      assert r.emitted + toks == toks;
    } else {
      assert r.emitted[0] in r.emitted;
      TilesCons(src, cur, r.next, line, r.emitted[0], toks, rest);
      spans := [(cur, r.next)] + rest;
      assert r.emitted + toks == [r.emitted[0]] + toks;
    }
  }

  /** Tokens placed in the scan from `next` are placed in the scan from an earlier `cur` that counted the line breaks between. */
  lemma TilesWiden(src: seq<char>, cur: nat, next: nat, line: nat, l: nat, toks: seq<Token>, spans: seq<(nat, nat)>)
    requires cur <= next <= |src| && l == line + Newlines(src, cur, next)
    requires Tiles(src, next, l, toks, spans)
    ensures Tiles(src, cur, line, toks, spans)
  {
    forall k | 0 <= k < |spans|
      ensures l + Newlines(src, next, spans[k].1) == line + Newlines(src, cur, spans[k].1)
    {
      NewlinesSplit(src, cur, next, spans[k].1);
    }
  }

  /** A token pushed for `src[cur..next]` goes in front of the tokens placed after `next`. */
  lemma TilesCons(src: seq<char>, cur: nat, next: nat, line: nat, t: Token, toks: seq<Token>, spans: seq<(nat, nat)>)
    requires cur < next <= |src|
    requires PushedFor(t, src, cur, next, line + Newlines(src, cur, next))
    requires Tiles(src, next, line + Newlines(src, cur, next), toks, spans)
    requires Tiles(src, cur, line, toks, spans)
    ensures Tiles(src, cur, line, [t] + toks, [(cur, next)] + spans)
  {
  }

  /** A completed scan ends with the end-of-input token at the line after every line break; no other token is an end-of-input token, and a scan that hangs or panics has none. */
  predicate EofOnlyLast(src: seq<char>, cur: nat, line: nat, r: ScanResult)
    requires cur <= |src|
  {
    && (r.Completed? ==> |r.tokens| > 0 && r.tokens[|r.tokens| - 1] == EofToken(line + Newlines(src, cur, |src|)))
    && (forall k | 0 <= k < |r.tokens| && r.tokens[k].ttype == Eof :: r.Completed? && k == |r.tokens| - 1)
  }

  lemma {:induction false} EofOnlyAtEnd(src: seq<char>, cur: nat, line: nat)
    requires cur <= |src|
    ensures EofOnlyLast(src, cur, line, ScanFrom(src, cur, line))
    decreases |src| - cur
  {
    if cur < |src| {
      var r := Step(src, cur, line);
      StepFacts(src, cur, line);
      ScanFromAfterStep(src, cur, line);
      if r.Lexed? {
        EofOnlyAtEnd(src, r.next, r.line);
        EofAfterStep(src, cur, line, r, ScanFrom(src, r.next, r.line));
      }
    }
  }

  lemma EofAfterStep(src: seq<char>, cur: nat, line: nat, r: StepResult, rest: ScanResult)
    requires cur < |src| && r.Lexed? && StepKeeps(src, cur, line, r)
    requires EofOnlyLast(src, r.next, r.line, rest)
    ensures EofOnlyLast(src, cur, line, Prepend(r.emitted, Errors(r.error), rest))
  {
    NewlinesSplit(src, cur, r.next, |src|);
    var toks := r.emitted + rest.tokens;
    assert forall i | 0 <= i < |r.emitted| :: r.emitted[i] in r.emitted;
    forall k | 0 <= k < |toks| && toks[k].ttype == Eof
      ensures rest.Completed? && k == |toks| - 1
    {
      if k >= |r.emitted| {
        assert toks[k] == rest.tokens[k - |r.emitted|];
      }
    }
  }

  /** A scan that completes from `cur` with the line counter at `line` ends with the counter at `line` plus the line breaks after `cur`. */
  lemma CompletedScanLine(src: seq<char>, cur: nat, line: nat, t0: seq<Token>, r0: seq<Report>, t1: seq<Token>, r1: seq<Report>, last: nat)
    requires cur <= |src|
    requires Prepend(t0, r0, ScanFrom(src, cur, line)) == Prepend(t1, r1, Completed([EofToken(last)], []))
    ensures last == line + Newlines(src, cur, |src|)
  {
    var r := ScanFrom(src, cur, line);
    EofOnlyAtEnd(src, cur, line);
    var all := t0 + r.tokens;
    assert all == t1 + [EofToken(last)];
    assert all[|all| - 1] == r.tokens[|r.tokens| - 1];
  }

  /** At most one error is reported, and only by a scan that completes: a string left open, at the last line. */
  predicate ReportsOnlyAtEnd(src: seq<char>, cur: nat, line: nat, r: ScanResult)
    requires cur <= |src|
  {
    r.reports == [] || (r.Completed? && r.reports == [Report(line + Newlines(src, cur, |src|), "Unterminated string")])
  }

  lemma {:induction false} ReportsOnlyUnterminatedString(src: seq<char>, cur: nat, line: nat)
    requires cur <= |src|
    ensures ReportsOnlyAtEnd(src, cur, line, ScanFrom(src, cur, line))
    decreases |src| - cur
  {
    if cur < |src| {
      var r := Step(src, cur, line);
      StepFacts(src, cur, line);
      ScanFromAfterStep(src, cur, line);
      if r.Lexed? {
        ReportsOnlyUnterminatedString(src, r.next, r.line);
        ReportsAfterStep(src, cur, line, r, ScanFrom(src, r.next, r.line));
      }
    }
  }

  lemma ReportsAfterStep(src: seq<char>, cur: nat, line: nat, r: StepResult, rest: ScanResult)
    requires cur < |src| && r.Lexed? && StepKeeps(src, cur, line, r)
    requires ReportsOnlyAtEnd(src, r.next, r.line, rest)
    requires r.next == |src| ==> rest == Completed([EofToken(r.line)], [])
    ensures ReportsOnlyAtEnd(src, cur, line, Prepend(r.emitted, Errors(r.error), rest))
  {
    NewlinesSplit(src, cur, r.next, |src|);
  }

  /** A scan hangs only on a line break, with a `Slash` token for the line comment before it pushed last. */
  predicate HangsOnBreak(src: seq<char>, cur: nat, r: ScanResult)
  {
    r.Hangs? ==> cur <= r.at < |src| && src[r.at] == '\n' && |r.tokens| > 0 && r.tokens[|r.tokens| - 1].ttype == Slash
  }

  lemma {:induction false} HangsAtLineBreak(src: seq<char>, cur: nat, line: nat)
    requires cur <= |src|
    ensures HangsOnBreak(src, cur, ScanFrom(src, cur, line))
    decreases |src| - cur
  {
    if cur < |src| {
      var r := Step(src, cur, line);
      StepFacts(src, cur, line);
      ScanFromAfterStep(src, cur, line);
      if r.Lexed? {
        HangsAtLineBreak(src, r.next, r.line);
        assert HangsOnBreak(src, cur, Prepend(r.emitted, Errors(r.error), ScanFrom(src, r.next, r.line)));
      }
    }
  }

  /** A source with no line break after `cur` is always scanned without hanging. */
  lemma NoLineBreakNoHang(src: seq<char>, cur: nat, line: nat)
    requires cur <= |src| && forall k | cur <= k < |src| :: src[k] != '\n'
    ensures !ScanFrom(src, cur, line).Hangs?
  {
    HangsAtLineBreak(src, cur, line);
  }

  /** Token lines never go down, and lie between the starting line and the line after every line break. */
  lemma LinesNonDecreasing(src: seq<char>, cur: nat, line: nat)
    requires cur <= |src|
    ensures var toks := ScanFrom(src, cur, line).tokens;
      && (forall k | 0 <= k < |toks| :: line <= toks[k].line <= line + Newlines(src, cur, |src|))
      && (forall i, j | 0 <= i < j < |toks| :: toks[i].line <= toks[j].line)
  {
    var toks := ScanFrom(src, cur, line).tokens;
    var spans := TokenSpans(src, cur, line);
    forall k | 0 <= k < |toks|
      ensures line <= toks[k].line <= line + Newlines(src, cur, |src|)
    {
      NewlinesSplit(src, cur, spans[k].1, |src|);
    }
    forall i, j | 0 <= i < j < |toks|
      ensures toks[i].line <= toks[j].line
    {
      NewlinesSplit(src, cur, spans[i].1, spans[j].1);
    }
  }

  /**
   * A source that is one terminated string scans to that string's token, whose literal is the
   * text between the quotes, at the line after the string's line breaks, then the end-of-input token.
   */
  lemma SingleStringSource(src: seq<char>, line: nat)
    requires |src| >= 2 && src[0] == '"' && src[|src| - 1] == '"'
    requires forall k | 0 < k < |src| - 1 :: src[k] != '"'
    ensures ScanFrom(src, 0, line) ==
      Completed([Token(String, src, Some(Str(src[1..|src| - 1])), line + Newlines(src, 0, |src|)), EofToken(line + Newlines(src, 0, |src|))], [])
  {
    var r := StringStep(src, 0, line);
    assert r == Step(src, 0, line);
    assert src[0..|src|] == src;
    assert ScanFrom(src, 0, line) == Prepend(r.emitted, [], ScanFrom(src, |src|, r.line));
  }

  // ---------------------------------------------------------------------------------------
  // The evidently intended arms
  // ---------------------------------------------------------------------------------------

  /** The intended line comment always returns, pushes nothing, and stops at the line break, which the next call then counts. */
  lemma IntendedLineCommentReturns(src: seq<char>, s: nat, line: nat)
    requires s + 1 < |src| && src[s] == '/' && src[s + 1] == '/'
    ensures var r := LineCommentIntended(src, s, line);
      && r.Lexed? && r.emitted == [] && r.error == None && r.line == line
      && s + 2 <= r.next <= |src| && Newlines(src, s, r.next) == 0
      && (r.next < |src| ==> Step(src, r.next, line) == Lexed(r.next + 1, line + 1, [], None))
  {
    var r := LineCommentIntended(src, s, line);
    NoNewlines(src, s, r.next);
  }

  /** The intended number arm never panics: its lexeme is digits, with or without a fraction, which always parses. */
  lemma IntendedNumbersNeverAbort(src: seq<char>, s: nat, line: nat)
    requires s < |src| && IsAsciiDigit(src[s])
    ensures var r := NumberStepIntended(src, s, line);
      && r.Lexed? && s < r.next <= |src| && r.line == line && r.error == None
      && r.emitted == [Token(Number, src[s..r.next], Some(Num(src[s..r.next])), line)]
      && (forall k | s <= k < r.next :: IsAsciiDigit(src[k]) || src[k] == '.')
      && (forall i, j | s <= i < j < r.next :: !(src[i] == '.' && src[j] == '.'))
  {
    var whole := RunEnd(src, s + 1, AsciiDigit);
    var r := NumberStepIntended(src, s, line);
    DigitsAndFractionParse(src, s, whole, r.next);
  }

  /**
   * The intended identifier arm takes the longest run of letters, digits and `_`, so a word
   * never ends just before a `_`; it otherwise classifies the word as the scanner does.
   */
  lemma IntendedWordRunsOverUnderscore(src: seq<char>, s: nat, line: nat)
    requires s < |src| && (IsAsciiAlpha(src[s]) || src[s] == '_')
    ensures var r := WordStepIntended(src, s, line);
      && r.Lexed? && s < r.next <= |src| && r.line == line && r.error == None
      && (forall k | s < k < r.next :: IsAsciiAlphanumeric(src[k]) || src[k] == '_')
      && (r.next < |src| ==> src[r.next] != '_' && !IsAsciiAlphanumeric(src[r.next]))
      && r.emitted == [Token(WordKind(src[s..r.next]), src[s..r.next], None, line)]
      && Step(src, s, line).next <= r.next
  {
    var w := WordStep(src, s, line);
    assert w == Step(src, s, line);
  }

  /** With the intended identifier arm, `foo_bar` is one identifier. */
  lemma IntendedWordKeepsUnderscore()
    ensures WordStepIntended("foo_bar", 0, 1) == Lexed(7, 1, [Token(Identifier, "foo_bar", None, 1)], None)
  {
    var src := "foo_bar";
    RunEndAt(src, 1, |src|, WordChar);
    assert src[0..7] == src;
    assert Keywords(src) == None;
  }
}
