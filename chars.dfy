/**
 * The C `char` domain the parser works in. The model fixes `char` as a
 * signed 8-bit integer (the usual choice on x86), so that
 * `std::numeric_limits<char>::max()` is 127 and an `int` stored into a
 * `char` wraps modulo 256.
 */
module CChars {
  type CChar = x: int | -128 <= x < 128

  const CharMin: CChar := -128
  /** `std::numeric_limits<char>::max()` for a signed 8-bit `char`. */
  const CharMax: CChar := 127

  /** The terminator of a C string, also the failure sentinel of the cursor. */
  const Nul: CChar := 0

  const Bar: CChar := '|' as int
  const Star: CChar := '*' as int
  const Plus: CChar := '+' as int
  const Question: CChar := '?' as int
  const LParen: CChar := '(' as int
  const RParen: CChar := ')' as int
  const Period: CChar := '.' as int
  const Backslash: CChar := '\\' as int

  /** Conversion of an `int` into a `char` (modular, as C++20 defines it). */
  function ToCChar(x: int): (r: CChar)
    ensures (r - x) % 256 == 0
    ensures CharMin <= x <= CharMax ==> r == x
  {
    (x + 128) % 256 - 128
  }

  /** A C string never holds its own terminator. */
  predicate NoNul(s: seq<CChar>)
  {
    forall i :: 0 <= i < |s| ==> s[i] != Nul
  }
}
