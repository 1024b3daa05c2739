/**
 * Characters as the tokenizer sees them: Java `char` values, i.e. UTF-16 code
 * units, together with the two Unicode character classes the tokenizer asks
 * about (`Character.isWhitespace`, `Character.isDigit`) and the digit values
 * `Integer.parseInt(_, 16)` gives them.
 */
module Chars {

  /** A Java `char`: one UTF-16 code unit (surrogates included). */
  newtype CodeUnit = x: int | 0 <= x < 0x1_0000

  /** The code unit of a BMP character literal. */
  function U(c: char): (u: CodeUnit)
    requires c as int < 0x1_0000
    ensures u as int == c as int
  {
    c as int as CodeUnit
  }

  /** A Dafny string literal as a sequence of code units (BMP only). */
  function Units(s: string): (r: seq<CodeUnit>)
    requires forall i | 0 <= i < |s| :: s[i] as int < 0x1_0000
    ensures |r| == |s|
    ensures forall i | 0 <= i < |s| :: r[i] as int == s[i] as int
  {
    if s == [] then [] else [U(s[0])] + Units(s[1..])
  }

  /**
   * `(char) reader.read()` at the end of the stream: -1 cast to `char`.
   * A literal U+FFFF in the input is indistinguishable from it.
   */
  const EOF: CodeUnit := 0xFFFF
  const NUL: CodeUnit := 0

  const QUOTE: CodeUnit := U('"')
  const BACKSLASH: CodeUnit := U('\\')
  const SLASH: CodeUnit := U('/')
  const LBRACE: CodeUnit := U('{')
  const RBRACE: CodeUnit := U('}')
  const LBRACKET: CodeUnit := U('[')
  const RBRACKET: CodeUnit := U(']')
  const COLON: CodeUnit := U(':')
  const COMMA: CodeUnit := U(',')
  const MINUS: CodeUnit := U('-')
  const PLUS: CodeUnit := U('+')
  const DOT: CodeUnit := U('.')
  const ZERO: CodeUnit := U('0')
  const LOWER_E: CodeUnit := U('e')
  const UPPER_E: CodeUnit := U('E')

  /** The digits the tokenizer's `switch` dispatches to number parsing. */
  predicate IsAsciiDigit(c: CodeUnit) {
    U('0') <= c <= U('9')
  }

  /**
   * `Character.isWhitespace` on a `char`: the space, line and paragraph
   * separators other than the no-break spaces U+00A0, U+2007 and U+202F,
   * plus U+0009..U+000D and U+001C..U+001F.
   */
  predicate IsWhitespace(c: CodeUnit) {
    var x := c as int;
    || 0x09 <= x <= 0x0D
    || 0x1C <= x <= 0x20
    || x == 0x1680
    || 0x2000 <= x <= 0x2006
    || 0x2008 <= x <= 0x200A
    || x == 0x2028 || x == 0x2029
    || x == 0x205F || x == 0x3000
  }

  /**
   * The zeros of the blocks of ten decimal digits (general category Nd) of
   * the Basic Multilingual Plane, in increasing order. Every such block is ten
   * consecutive code units starting at its zero.
   */
  const DECIMAL_ZEROS: seq<int> := [
    0x0030, 0x0660, 0x06F0, 0x07C0, 0x0966, 0x09E6, 0x0A66, 0x0AE6, 0x0B66, 0x0BE6,
    0x0C66, 0x0CE6, 0x0D66, 0x0DE6, 0x0E50, 0x0ED0, 0x0F20, 0x1040, 0x1090, 0x17E0,
    0x1810, 0x1946, 0x19D0, 0x1A80, 0x1A90, 0x1B50, 0x1BB0, 0x1C40, 0x1C50, 0xA620,
    0xA8D0, 0xA900, 0xA9D0, 0xA9F0, 0xAA50, 0xABF0, 0xFF10]

  /** The zero of the block of `c` among the blocks from the `k`-th on, or -1. */
  function DecimalZeroFrom(c: CodeUnit, k: nat): (z: int)
    requires k <= |DECIMAL_ZEROS|
    ensures z >= 0 ==> z <= c as int < z + 10
    ensures 1 <= k && (c as int < 0x0660 || 0xFF1A <= c as int) ==> z == -1
    decreases |DECIMAL_ZEROS| - k
  {
    if k == |DECIMAL_ZEROS| then -1
    else
      assert k >= 1 ==> 0x0660 <= DECIMAL_ZEROS[k] <= 0xFF10;
      if DECIMAL_ZEROS[k] <= c as int < DECIMAL_ZEROS[k] + 10 then DECIMAL_ZEROS[k]
      else DecimalZeroFrom(c, k + 1)
  }

  /**
   * The zero of the block of decimal digits that holds `c`, or -1. Below the
   * second block only the ASCII digits are digits, and nothing above the
   * fullwidth digits is one (the sentinel `EOF` included).
   */
  function DecimalZero(c: CodeUnit): (z: int)
    ensures z >= 0 ==> z <= c as int < z + 10
    ensures IsAsciiDigit(c) ==> z == ZERO as int
    ensures !IsAsciiDigit(c) && (c as int < 0x0660 || 0xFF1A <= c as int) ==> z == -1
  {
    DecimalZeroFrom(c, 0)
  }

  /** `Character.isDigit` on a `char`: a decimal digit of any script. */
  predicate IsDigit(c: CodeUnit) {
    DecimalZero(c) >= 0
  }

  /**
   * `Character.digit(c, 16)`, as `Integer.parseInt(_, 16)` uses it: decimal
   * digits of any script, the Latin letters A-F and a-f, and their fullwidth
   * forms; -1 for anything else.
   */
  function HexDigitValue(c: CodeUnit): (d: int)
    ensures -1 <= d < 16
    ensures IsAsciiDigit(c) ==> d == c as int - U('0') as int
    ensures U('a') <= c <= U('f') ==> d == c as int - U('a') as int + 10
    ensures U('A') <= c <= U('F') ==> d == c as int - U('A') as int + 10
  {
    var x := c as int;
    if IsDigit(c) then x - DecimalZero(c)
    else if U('A') as int <= x <= U('F') as int then x - U('A') as int + 10
    else if U('a') as int <= x <= U('f') as int then x - U('a') as int + 10
    else if 0xFF21 <= x <= 0xFF26 then x - 0xFF21 + 10
    else if 0xFF41 <= x <= 0xFF46 then x - 0xFF41 + 10
    else -1
  }

  predicate IsHexDigit(c: CodeUnit) {
    HexDigitValue(c) >= 0
  }
}
