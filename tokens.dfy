/** The token record, the literal payload and their text forms (src/token.rs). */
module Tokens {
  import opened Wrappers
  import opened Chars

  /** The kinds the scanner emits: every variant it names, in the names it uses for them. */
  datatype TokenType =
    | LeftParen | RightParen | LeftBrace | RightBrace | Comma | Dot | Minus | Plus | Semicolon | Slash
    | Bang | BangEqual | Assign | Equals | Greater | GreaterEqual | Less | LessEqual
    | Identifier | String | Number
    | And | Class | Else | False | For | Fun | If | Nil | Or | Print | Return | Super | This | True | Var | While
    | Eof

  /**
   * A decoded literal. `Num` carries the number's lexeme instead of the `f64` it parses to:
   * floating-point values are not modelled.
   */
  datatype Object = Num(text: string) | Str(value: string) | Nil | True | False

  /** `Token::new(ttype, lexeme, literal, line)` is this constructor: it stores its arguments unchanged. */
  datatype Token = Token(ttype: TokenType, lexeme: string, literal: Option<Object>, line: nat)

  /** `Token::eof`: the end-of-input marker at the given line. */
  function EofToken(line: nat): Token
  {
    Token(Eof, "", None, line)
  }

  /** The derived `Debug` text of a kind: the variant's name. */
  function KindName(k: TokenType): string
  {
    match k
    case LeftParen => "LeftParen"
    case RightParen => "RightParen"
    case LeftBrace => "LeftBrace"
    case RightBrace => "RightBrace"
    case Comma => "Comma"
    case Dot => "Dot"
    case Minus => "Minus"
    case Plus => "Plus"
    case Semicolon => "Semicolon"
    case Slash => "Slash"
    case Bang => "Bang"
    case BangEqual => "BangEqual"
    case Assign => "Assign"
    case Equals => "Equals"
    case Greater => "Greater"
    case GreaterEqual => "GreaterEqual"
    case Less => "Less"
    case LessEqual => "LessEqual"
    case Identifier => "Identifier"
    case String => "String"
    case Number => "Number"
    case And => "And"
    case Class => "Class"
    case Else => "Else"
    case False => "False"
    case For => "For"
    case Fun => "Fun"
    case If => "If"
    case Nil => "Nil"
    case Or => "Or"
    case Print => "Print"
    case Return => "Return"
    case Super => "Super"
    case This => "This"
    case True => "True"
    case Var => "Var"
    case While => "While"
    case Eof => "Eof"
  }

  /** Reads a kind back from its name: the inverse of `KindName`. */
  function KindOfName(name: string): Option<TokenType>
  {
    match name
    case "LeftParen" => Some(LeftParen)
    case "RightParen" => Some(RightParen)
    case "LeftBrace" => Some(LeftBrace)
    case "RightBrace" => Some(RightBrace)
    case "Comma" => Some(Comma)
    case "Dot" => Some(Dot)
    case "Minus" => Some(Minus)
    case "Plus" => Some(Plus)
    case "Semicolon" => Some(Semicolon)
    case "Slash" => Some(Slash)
    case "Bang" => Some(Bang)
    case "BangEqual" => Some(BangEqual)
    case "Assign" => Some(Assign)
    case "Equals" => Some(Equals)
    case "Greater" => Some(Greater)
    case "GreaterEqual" => Some(GreaterEqual)
    case "Less" => Some(Less)
    case "LessEqual" => Some(LessEqual)
    case "Identifier" => Some(Identifier)
    case "String" => Some(TokenType.String)
    case "Number" => Some(Number)
    case "And" => Some(And)
    case "Class" => Some(Class)
    case "Else" => Some(Else)
    case "False" => Some(TokenType.False)
    case "For" => Some(For)
    case "Fun" => Some(Fun)
    case "If" => Some(If)
    case "Nil" => Some(TokenType.Nil)
    case "Or" => Some(Or)
    case "Print" => Some(Print)
    case "Return" => Some(Return)
    case "Super" => Some(Super)
    case "This" => Some(This)
    case "True" => Some(TokenType.True)
    case "Var" => Some(Var)
    case "While" => Some(While)
    case "Eof" => Some(Eof)
    case _ => None
  }

  /** Every kind name is a single word that reads back as that kind, so the kind is recoverable from a token's text. */
  lemma KindNameRoundTrip(k: TokenType)
    ensures KindOfName(KindName(k)) == Some(k)
  {
    match k
    case LeftParen =>
    case RightParen =>
    case LeftBrace =>
    case RightBrace =>
    case Comma =>
    case Dot =>
    case Minus =>
    case Plus =>
    case Semicolon =>
    case Slash =>
    case Bang =>
    case BangEqual =>
    case Assign =>
    case Equals =>
    case Greater =>
    case GreaterEqual =>
    case Less =>
    case LessEqual =>
    case Identifier =>
    case String =>
    case Number =>
    case And =>
    case Class =>
    case Else =>
    case False =>
    case For =>
    case Fun =>
    case If =>
    case Nil =>
    case Or =>
    case Print =>
    case Return =>
    case Super =>
    case This =>
    case True =>
    case Var =>
    case While =>
    case Eof =>
  }

  /** Every kind name is a non-empty word of ASCII letters, so it never holds a space. */
  lemma KindNameIsOneWord(k: TokenType)
    ensures |KindName(k)| > 0 && ' ' !in KindName(k)
  {
    match k
    case LeftParen =>
    case RightParen =>
    case LeftBrace =>
    case RightBrace =>
    case Comma =>
    case Dot =>
    case Minus =>
    case Plus =>
    case Semicolon =>
    case Slash =>
    case Bang =>
    case BangEqual =>
    case Assign =>
    case Equals =>
    case Greater =>
    case GreaterEqual =>
    case Less =>
    case LessEqual =>
    case Identifier =>
    case String =>
    case Number =>
    case And =>
    case Class =>
    case Else =>
    case False =>
    case For =>
    case Fun =>
    case If =>
    case Nil =>
    case Or =>
    case Print =>
    case Return =>
    case Super =>
    case This =>
    case True =>
    case Var =>
    case While =>
    case Eof =>
  }


  /**
   * `Display for Object`. The text of a number is the `f64` formatting of its value, which is
   * not modelled: `showNum` stands for it. `False` shows as "true", as the source writes it.
   */
  function ObjectToString(o: Object, showNum: string -> string): string
  {
    match o
    case Num(text) => showNum(text)
    case Nil => "nil"
    case Str(s) => "\"" + s + "\""
    case True => "true"
    case False => "true"
  }

  /** What `Display for Object` evidently means to write: `False` shows as "false". */
  function ObjectToStringIntended(o: Object, showNum: string -> string): string
  {
    match o
    case False => "false"
    case _ => ObjectToString(o, showNum)
  }

  /** The literal column of a token's text: the literal's own text, or "None". */
  function LiteralText(literal: Option<Object>, showNum: string -> string): string
  {
    match literal
    case None => "None"
    case Some(o) => ObjectToString(o, showNum)
  }

  /** `Display for Token`: kind, lexeme and literal separated by single spaces. */
  function TokenToString(t: Token, showNum: string -> string): string
  {
    KindName(t.ttype) + " " + t.lexeme + " " + LiteralText(t.literal, showNum)
  }

  /** Splits a text at its first space; `None` when it has none. */
  function SplitAtSpace(s: string): Option<(string, string)>
  {
    var i := RunEnd(s, 0, NotSpace);
    if i == |s| then None else Some((s[..i], s[i + 1..]))
  }

  /** Reads a token's text back into its kind, its lexeme and its literal column. */
  function ParseTokenText(s: string): Option<(TokenType, string, string)>
  {
    match SplitAtSpace(s)
    case None => None
    case Some((name, rest)) =>
      match (KindOfName(name), SplitAtSpace(rest))
      case (Some(k), Some((lexeme, literal))) => Some((k, lexeme, literal))
      case _ => None
  }

  /** Splitting `a + " " + b` at its first space gives back `a` and `b` when `a` has no space. */
  lemma SplitAtSpaceJoin(a: string, b: string)
    requires ' ' !in a
    ensures SplitAtSpace(a + " " + b) == Some((a, b))
  {
    var s := a + " " + b;
    var i := RunEnd(s, 0, NotSpace);
    assert forall k | 0 <= k < |a| :: s[k] == a[k] && s[k] != ' ';
    assert s[|a|] == ' ';
    assert s[..i] == a;
    assert s[i + 1..] == b;
  }

  /** A text with a space in it splits. */
  lemma SplitAtSpaceFinds(s: string, k: nat)
    requires k < |s| && s[k] == ' '
    ensures SplitAtSpace(s).Some?
  {
    assert RunEnd(s, 0, NotSpace) <= k;
  }

  /**
   * A token's text always determines its kind; when the lexeme holds no space it also gives
   * back the lexeme, and the rest is the literal column.
   */
  lemma TokenTextRoundTrip(t: Token, showNum: string -> string)
    ensures ParseTokenText(TokenToString(t, showNum)).Some?
    ensures ParseTokenText(TokenToString(t, showNum)).value.0 == t.ttype
    ensures ' ' !in t.lexeme ==>
      ParseTokenText(TokenToString(t, showNum)) == Some((t.ttype, t.lexeme, LiteralText(t.literal, showNum)))
  {
    var name := KindName(t.ttype);
    var lit := LiteralText(t.literal, showNum);
    var rest := t.lexeme + " " + lit;
    KindNameRoundTrip(t.ttype);
    KindNameIsOneWord(t.ttype);
    assert TokenToString(t, showNum) == name + " " + rest;
    SplitAtSpaceJoin(name, rest);
    SplitAtSpaceFinds(rest, |t.lexeme|);
    if ' ' !in t.lexeme {
      SplitAtSpaceJoin(t.lexeme, lit);
    }
  }

  /** A string literal shows as its text in double quotes, and the text is what lies between them. */
  lemma StrShowsQuoted(s: string, showNum: string -> string)
    ensures var r := ObjectToString(Str(s), showNum);
      |r| == |s| + 2 && r[0] == '"' && r[|r| - 1] == '"' && r[1..|r| - 1] == s
  {
  }

  /** As written, `False` and `True` show alike: the text of a boolean literal does not tell which it is. */
  lemma FalseShowsAsTrue(showNum: string -> string)
    ensures ObjectToString(Object.False, showNum) == ObjectToString(Object.True, showNum) == "true"
  {
  }

  /** With the intended text, distinct literals other than numbers always show differently. */
  lemma IntendedTextIsInjective(a: Object, b: Object, showNum: string -> string)
    requires !a.Num? && !b.Num? && a != b
    ensures ObjectToStringIntended(a, showNum) != ObjectToStringIntended(b, showNum)
  {
    var ra, rb := ObjectToStringIntended(a, showNum), ObjectToStringIntended(b, showNum);
    if a.Str? && b.Str? {
      assert ra[1..|ra| - 1] == a.value && rb[1..|rb| - 1] == b.value;
    } else if a.Str? {
      assert ra[0] == '"' && rb[0] != '"';
    } else if b.Str? {
      assert rb[0] == '"' && ra[0] != '"';
    }
  }

  /** The two texts agree on every literal the scanner builds (strings and numbers), so the scanner's output shows the same either way. */
  lemma IntendedTextAgreesOnScannerLiterals(o: Object, showNum: string -> string)
    requires o.Num? || o.Str?
    ensures ObjectToStringIntended(o, showNum) == ObjectToString(o, showNum)
  {
  }
}
