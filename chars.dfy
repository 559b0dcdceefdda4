/** Character classes and the two counting helpers the scanner's cursor arithmetic is stated with. */
module Chars {

  /** `char::is_ascii_digit`. */
  predicate IsAsciiDigit(c: char)
  {
    '0' <= c <= '9'
  }

  /** `char::is_ascii_alphabetic`. */
  predicate IsAsciiAlpha(c: char)
  {
    'a' <= c <= 'z' || 'A' <= c <= 'Z'
  }

  /** `char::is_ascii_alphanumeric`. */
  predicate IsAsciiAlphanumeric(c: char)
  {
    IsAsciiDigit(c) || IsAsciiAlpha(c)
  }

  /** The classes of characters that the scanner's loops run over. */
  datatype CharClass = AsciiDigit | AsciiAlphanumeric | WordChar | NotQuote | NotNewline | NotSpace

  predicate InClass(cls: CharClass, c: char)
  {
    match cls
    case AsciiDigit => IsAsciiDigit(c)
    case AsciiAlphanumeric => IsAsciiAlphanumeric(c)
    case WordChar => IsAsciiAlphanumeric(c) || c == '_'
    case NotQuote => c != '"'
    case NotNewline => c != '\n'
    case NotSpace => c != ' '
  }

  /** The end of the longest run of characters of class `cls` that starts at index `i`. */
  function RunEnd(s: seq<char>, i: nat, cls: CharClass): (e: nat)
    requires i <= |s|
    ensures i <= e <= |s|
    ensures forall k | i <= k < e :: InClass(cls, s[k])
    ensures e == |s| || !InClass(cls, s[e])
    decreases |s| - i
  {
    if i < |s| && InClass(cls, s[i]) then RunEnd(s, i + 1, cls) else i
  }

  /** The converse of `RunEnd`'s contract: a run of the class from `i` that stops at `e` ends at `e`. */
  lemma {:induction false} RunEndAt(s: seq<char>, i: nat, e: nat, cls: CharClass)
    requires i <= e <= |s|
    requires forall k | i <= k < e :: InClass(cls, s[k])
    requires e == |s| || !InClass(cls, s[e])
    ensures RunEnd(s, i, cls) == e
    decreases e - i
  {
    if i < e {
      RunEndAt(s, i + 1, e, cls);
    }
  }

  /** A slice is the part before index `j`, the character at `j`, and the part after it. */
  lemma SliceAround(s: seq<char>, i: nat, j: nat, k: nat)
    requires i <= j < k <= |s|
    ensures s[i..k] == s[i..j] + [s[j]] + s[j + 1..k]
  {
  }

  /** The number of line breaks in `s[i..j]`. */
  function Newlines(s: seq<char>, i: nat, j: nat): nat
    requires i <= j <= |s|
    decreases j - i
  {
    if i == j then 0 else Newlines(s, i, j - 1) + (if s[j - 1] == '\n' then 1 else 0)
  }

  /** Counting line breaks distributes over adjacent slices. */
  lemma {:induction false} NewlinesSplit(s: seq<char>, i: nat, j: nat, k: nat)
    requires i <= j <= k <= |s|
    ensures Newlines(s, i, k) == Newlines(s, i, j) + Newlines(s, j, k)
    decreases k - j
  {
    if j < k {
      NewlinesSplit(s, i, j, k - 1);
    }
  }

  /** A stretch without a line break counts none. */
  lemma {:induction false} NoNewlines(s: seq<char>, i: nat, j: nat)
    requires i <= j <= |s|
    requires forall k | i <= k < j :: s[k] != '\n'
    ensures Newlines(s, i, j) == 0
    decreases j - i
  {
    if i < j {
      NoNewlines(s, i, j - 1);
    }
  }
}
