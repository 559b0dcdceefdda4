/** The scanner on a few concrete sources, showing how the code as written treats them. */
module Examples {
  import opened Wrappers
  import opened Chars
  import opened Tokens
  import opened Lexemes
  import Properties

  /** `=` alone is the assignment operator, `==` the equality operator. */
  lemma AssignAndEquals()
    ensures Lex("=") == Completed([Token(Assign, "=", None, 1), EofToken(1)], [])
    ensures Lex("==") == Completed([Token(Equals, "==", None, 1), EofToken(1)], [])
  {
    assert "="[0..1] == "=" && "=="[0..2] == "==";
    assert Step("=", 0, 1) == OperatorStep("=", 0, 1) == Lexed(1, 1, [Token(Assign, "=", None, 1)], None);
    assert Step("==", 0, 1) == OperatorStep("==", 0, 1) == Lexed(2, 1, [Token(Equals, "==", None, 1)], None);
  }

  /** An underscore is not part of an identifier's tail, so it starts a second identifier. */
  lemma UnderscoreSplitsIdentifier()
    ensures Lex("foo_bar") == Completed([Token(Identifier, "foo", None, 1), Token(Identifier, "_bar", None, 1), EofToken(1)], [])
  {
    var src := "foo_bar";
    assert src[0..3] == "foo" && src[3..7] == "_bar";
    assert RunEnd(src, 1, AsciiAlphanumeric) == 3 by {
      RunEndAt(src, 1, 3, AsciiAlphanumeric);
    }
    assert RunEnd(src, 4, AsciiAlphanumeric) == 7 by {
      RunEndAt(src, 4, |src|, AsciiAlphanumeric);
    }
    assert Keywords("foo") == None && Keywords("_bar") == None;
    assert Step(src, 0, 1) == WordStep(src, 0, 1);
    assert Step(src, 3, 1) == WordStep(src, 3, 1);
    assert Step(src, 0, 1) == Lexed(3, 1, [Token(Identifier, "foo", None, 1)], None);
    assert Step(src, 3, 1) == Lexed(7, 1, [Token(Identifier, "_bar", None, 1)], None);
  }

  /** Letters right after digits join the number lexeme, which then fails the `f64` parse. */
  lemma LettersInNumberPanic()
    ensures Lex("12ab") == Panics([], [], "12ab")
  {
    assert Step("12ab", 0, 1) == Aborts(4, "12ab");
  }

  /** A lone quote is an unterminated string: no token, one error at the last line. */
  lemma LoneQuote()
    ensures Lex("\"") == Completed([EofToken(1)], [Report(1, "Unterminated string")])
  {
    var src := "\"";
    assert RunEnd(src, 1, NotQuote) == 1 && Newlines(src, 1, 1) == 0;
    assert Step(src, 0, 1) == StringStep(src, 0, 1) == Lexed(1, 1, [], Some(Report(1, "Unterminated string")));
  }

  /** A string token carries the line of its closing quote. */
  lemma StringLineIsClosingLine()
    ensures Lex("\"a\nb\"") == Completed([Token(String, "\"a\nb\"", Some(Str("a\nb")), 2), EofToken(2)], [])
  {
    var src := "\"a\nb\"";
    assert Newlines(src, 0, 1) == 0 && Newlines(src, 0, 2) == 0;
    assert Newlines(src, 0, 3) == 1 && Newlines(src, 0, 4) == 1 && Newlines(src, 0, 5) == 1;
    assert src[1..4] == "a\nb";
    Properties.SingleStringSource(src, 1);
  }

  /** A line comment followed by a line break never returns: the scan hangs at the break after one `Slash` token. */
  lemma LineCommentHangs()
    ensures Lex("//c\nx") == Hangs([Token(Slash, "//c", None, 1)], [], 3)
  {
    assert Step("//c\nx", 0, 1) == Spins(3, Token(Slash, "//c", None, 1));
  }

  /** A block comment pushes no token but counts its line breaks, so the word after it is on line 2. */
  lemma BlockCommentCountsLines()
    ensures Lex("/*\n*/x") == Completed([Token(Identifier, "x", None, 2), EofToken(2)], [])
  {
    var src := "/*\n*/x";
    assert !ClosesAt(src, 2) && ClosesAt(src, 3);
    assert BlockEnd(src, 2) == 5;
    assert Newlines(src, 2, 3) == 1 && Newlines(src, 2, 5) == 1;
    assert Step(src, 0, 1) == SlashStep(src, 0, 1) == Lexed(5, 2, [], None);
    assert src[5..6] == "x" && Keywords("x") == None;
    assert Step(src, 5, 2) == WordStep(src, 5, 2) == Lexed(6, 2, [Token(Identifier, "x", None, 2)], None);
  }

  /** A number with an exponent is one lexeme that the `f64` parser accepts. */
  lemma ExponentNumber()
    ensures Lex("1e5") == Completed([Token(Number, "1e5", Some(Num("1e5")), 1), EofToken(1)], [])
  {
    var src := "1e5";
    assert RunEnd(src, 1, AsciiAlphanumeric) == 3 by {
      RunEndAt(src, 1, |src|, AsciiAlphanumeric);
    }
    assert NumberEnd(src, 3) == 3 && src[0..3] == src;
    assert Float.ParsesAsF64(src);
    assert Step(src, 0, 1) == NumberStep(src, 0, 1) == Lexed(3, 1, [Token(Number, "1e5", Some(Num("1e5")), 1)], None);
  }
}
