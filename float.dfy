/**
 * Which texts Rust's `str::parse::<f64>` accepts. The number recognizer calls it with
 * `.expect(..)`, so a lexeme outside this grammar ends the program. The grammar is the one
 * the Rust standard library documents for `f64::from_str`, with letters matched in either case:
 *
 *   Float    ::= Sign? ( 'inf' | 'infinity' | 'nan' | Number )
 *   Number   ::= ( Digit+ | Digit+ '.' Digit* | Digit* '.' Digit+ ) Exp?
 *   Exp      ::= 'e' Sign? Digit+
 *
 * `Number` is recognized by the automaton below, read left to right. The value the text
 * denotes is not modelled: floating point is out of scope.
 */
module Float {
  import opened Chars

  predicate IsSign(c: char)
  {
    c == '+' || c == '-'
  }

  predicate IsExponentMarker(c: char)
  {
    c == 'e' || c == 'E'
  }

  predicate AllDigits(s: seq<char>)
  {
    forall k | 0 <= k < |s| :: IsAsciiDigit(s[k])
  }

  function DropSign(s: seq<char>): seq<char>
  {
    if |s| > 0 && IsSign(s[0]) then s[1..] else s
  }

  function LowerAscii(c: char): char
  {
    if 'A' <= c <= 'Z' then (c as int + 32) as char else c
  }

  /** `s` spells `word`, which is written in lower case, with letters in either case. */
  predicate SpellsIgnoringCase(s: seq<char>, word: seq<char>)
  {
    |s| == |word| && (|s| == 0 || (LowerAscii(s[0]) == word[0] && SpellsIgnoringCase(s[1..], word[1..])))
  }

  /**
   * How much of `Number` has been read: nothing yet, integer digits, a point with no digit
   * around it yet, a mantissa that is complete (digits and a point with digits on at least one
   * side), an exponent marker, its sign, exponent digits; `Rejected` once no continuation can match.
   */
  datatype Phase = Begin | IntDigits | BarePoint | Mantissa | Marker | MarkerSign | ExpDigits | Rejected

  function Next(p: Phase, c: char): Phase
  {
    match p
    case Begin => if IsAsciiDigit(c) then IntDigits else if c == '.' then BarePoint else Rejected
    case IntDigits => if IsAsciiDigit(c) then IntDigits else if c == '.' then Mantissa else if IsExponentMarker(c) then Marker else Rejected
    case BarePoint => if IsAsciiDigit(c) then Mantissa else Rejected
    case Mantissa => if IsAsciiDigit(c) then Mantissa else if IsExponentMarker(c) then Marker else Rejected
    case Marker => if IsAsciiDigit(c) then ExpDigits else if IsSign(c) then MarkerSign else Rejected
    case MarkerSign => if IsAsciiDigit(c) then ExpDigits else Rejected
    case ExpDigits => if IsAsciiDigit(c) then ExpDigits else Rejected
    case Rejected => Rejected
  }

  /** The phase reached by reading `t[i..]` from phase `p`. */
  function Read(p: Phase, t: seq<char>, i: nat): Phase
    requires i <= |t|
    decreases |t| - i
  {
    if i == |t| then p else Read(Next(p, t[i]), t, i + 1)
  }

  /** `Number`: the whole text read from the beginning ends in a phase where the text is complete. */
  predicate IsDecimal(t: seq<char>)
  {
    Read(Begin, t, 0) in {IntDigits, Mantissa, ExpDigits}
  }

  predicate ParsesAsF64(s: seq<char>)
  {
    var t := DropSign(s);
    SpellsIgnoringCase(t, "inf") || SpellsIgnoringCase(t, "infinity") || SpellsIgnoringCase(t, "nan") || IsDecimal(t)
  }

  /** Digits leave the integer, mantissa and exponent phases where they are. */
  lemma {:induction false} DigitsStay(p: Phase, t: seq<char>, i: nat, j: nat)
    requires p == IntDigits || p == Mantissa || p == ExpDigits
    requires i <= j <= |t| && forall k | i <= k < j :: IsAsciiDigit(t[k])
    ensures Read(p, t, i) == Read(p, t, j)
    decreases j - i
  {
    if i < j {
      DigitsStay(p, t, i + 1, j);
    }
  }

  /** A non-empty run of decimal digits, with or without a fractional part of digits, always parses. */
  lemma DigitsParse(whole: seq<char>, fraction: seq<char>)
    requires |whole| > 0 && AllDigits(whole) && AllDigits(fraction)
    ensures ParsesAsF64(whole)
    ensures |fraction| > 0 ==> ParsesAsF64(whole + ['.'] + fraction)
  {
    assert DropSign(whole) == whole;
    DigitsStay(IntDigits, whole, 1, |whole|);
    if |fraction| > 0 {
      var n := whole + ['.'] + fraction;
      assert DropSign(n) == n;
      DigitsStay(IntDigits, n, 1, |whole|);
      DigitsStay(Mantissa, n, |whole| + 1, |n|);
    }
  }
}
