/**
 * What the tokenizer promises, proved about the functions that describe it
 * (and so, through the methods' postconditions, about `TokenReader`):
 * whitespace skipping, the structural tokens, end of input, illegal starts,
 * strings against an escaping encoder, `\u` escapes, numbers against the
 * number grammar, and the three keywords.
 */
module LexerProperties {
  import opened Chars
  import opened Wrappers
  import opened Lexer

  // ------------------------------------------------------------ whitespace

  predicate AllWhitespace(s: seq<CodeUnit>, p: nat, q: nat)
    requires p <= q <= |s|
  {
    forall i | p <= i < q :: IsWhitespace(s[i])
  }

  /** `SkipWhitespace` stops at the first unit that is not whitespace, and only there. */
  lemma {:induction false} SkipWhitespaceIsFirstNonWhitespace(s: seq<CodeUnit>, p: nat, q: nat)
    requires p <= q <= |s|
    ensures SkipWhitespace(s, p) == q <==>
            AllWhitespace(s, p, q) && (q == |s| || !IsWhitespace(s[q]))
    decreases q - p
  {
    if p < q && IsWhitespace(s[p]) {
      SkipWhitespaceIsFirstNonWhitespace(s, p + 1, q);
    }
  }

  /** Whitespace in front of a token changes nothing but where it starts. */
  lemma WhitespaceIsSkipped(s: seq<CodeUnit>, p: nat, q: nat)
    requires p <= q <= |s| && AllWhitespace(s, p, q)
    ensures NextToken(s, p) == NextToken(s, q)
  {
    var r := SkipWhitespace(s, q);
    SkipWhitespaceIsFirstNonWhitespace(s, q, r);
    SkipWhitespaceIsFirstNonWhitespace(s, p, r);
  }

  // ------------------------------------------------------ structural tokens

  /** The token each of the six structural characters stands for. */
  function Structural(c: CodeUnit): Option<Token> {
    if c == LBRACE then Some(OpenBrace)
    else if c == RBRACE then Some(CloseBrace)
    else if c == LBRACKET then Some(OpenBracket)
    else if c == RBRACKET then Some(CloseBracket)
    else if c == COLON then Some(Colon)
    else if c == COMMA then Some(Comma)
    else None
  }

  /** After whitespace, a structural character is its own token, one unit long. */
  lemma StructuralToken(s: seq<CodeUnit>, p: nat, q: nat)
    requires p <= q < |s| && AllWhitespace(s, p, q) && Structural(s[q]).Some?
    ensures NextToken(s, p) == Scanned(Structural(s[q]).value, q + 1)
  {
    SkipWhitespaceIsFirstNonWhitespace(s, p, q);
  }

  /**
   * Input that holds only whitespace from `p` on gives the end token, and
   * the stream stays at the end, so every later call gives it again.
   */
  lemma EndOfInputSticks(s: seq<CodeUnit>, p: nat)
    requires p <= |s| && AllWhitespace(s, p, |s|)
    ensures NextToken(s, p) == Scanned(EndOfInput, |s|)
    ensures NextToken(s, |s|) == Scanned(EndOfInput, |s|)
  {
    SkipWhitespaceIsFirstNonWhitespace(s, p, |s|);
    SkipWhitespaceIsFirstNonWhitespace(s, |s|, |s|);
  }

  /** The units a token can start with: anything else is rejected at once. */
  predicate CanStartToken(c: CodeUnit) {
    Structural(c).Some? || c == EOF || c == QUOTE || IsAsciiDigit(c) || c == MINUS
    || c == U('n') || c == U('t') || c == U('f')
  }

  /** A unit that cannot start a token (a stray `.`, say) throws, just past it. */
  lemma IllegalStartIsRejected(s: seq<CodeUnit>, p: nat, q: nat)
    requires p <= q < |s| && AllWhitespace(s, p, q)
    requires !IsWhitespace(s[q]) && !CanStartToken(s[q])
    ensures NextToken(s, p) == Malformed(q + 1)
  {
    SkipWhitespaceIsFirstNonWhitespace(s, p, q);
  }

  // ------------------------------------------------------------ strings

  /** The lower-case hexadecimal digit for `d`. */
  function HexChar(d: nat): (c: CodeUnit)
    requires d < 16
    ensures HexDigitValue(c) == d
  {
    if d < 10 then (ZERO as int + d) as CodeUnit else (U('a') as int + d - 10) as CodeUnit
  }

  /** The control characters with a one-letter escape, and their letters. */
  const SHORT_CONTROLS: seq<CodeUnit> := [0x08, 0x09, 0x0A, 0x0C, 0x0D]
  const SHORT_LETTERS: seq<CodeUnit> := [U('b'), U('t'), U('n'), U('f'), U('r')]

  /** The index of `u` in `SHORT_CONTROLS` from `k` on, or 5 when it is not there. */
  function ShortIndex(u: CodeUnit, k: nat): (i: nat)
    requires k <= 5
    ensures k <= i <= 5 && (i < 5 ==> SHORT_CONTROLS[i] == u)
    decreases 5 - k
  {
    if k == 5 || SHORT_CONTROLS[k] == u then k else ShortIndex(u, k + 1)
  }

  /** The escape of a control character after its backslash: a letter, or `u00XX`. */
  function ControlEscape(u: CodeUnit): (e: seq<CodeUnit>)
    requires u < 0x20
    ensures |e| == 1 || |e| == 5
  {
    var i := ShortIndex(u, 0);
    if i < 5 then [SHORT_LETTERS[i]]
    else [U('u'), ZERO, ZERO, HexChar(u as nat / 16), HexChar(u as nat % 16)]
  }

  /**
   * How a JSON writer spells one unit inside a string: the quote and the
   * backslash escaped, the control characters by their one-letter escape or
   * as `\u00XX`, everything else as itself.
   */
  function EscapeUnit(u: CodeUnit): (e: seq<CodeUnit>)
    ensures |e| == 1 ==> e == [u] && u != QUOTE && u != BACKSLASH
    ensures |e| > 1 ==> e[0] == BACKSLASH
  {
    if u == QUOTE || u == BACKSLASH then [BACKSLASH, u]
    else if u < 0x20 then [BACKSLASH] + ControlEscape(u)
    else [u]
  }

  function Escape(t: seq<CodeUnit>): seq<CodeUnit> {
    if t == [] then [] else EscapeUnit(t[0]) + Escape(t[1..])
  }

  /** `HexValue` of four digits, spelled out. */
  lemma HexValueOfFour(cs: seq<CodeUnit>)
    requires |cs| == 4 && IsHexDigit(cs[0]) && IsHexDigit(cs[1]) && IsHexDigit(cs[2]) && IsHexDigit(cs[3])
    ensures AllHex(cs)
    ensures HexValue(cs) == ((HexDigitValue(cs[0]) * 16 + HexDigitValue(cs[1])) * 16
                             + HexDigitValue(cs[2])) * 16 + HexDigitValue(cs[3])
  {
    var c3 := cs[..3];
    assert c3[0] == cs[0] && c3[1] == cs[1] && c3[2] == cs[2];
    HexValueOfThree(c3);
  }

  /** Four hexadecimal digits with no sign in front give their value. */
  lemma ParseHex16OfDigits(cs: seq<CodeUnit>)
    requires |cs| == 4 && AllHex(cs) && cs[0] != PLUS && cs[0] != MINUS
    ensures ParseHex16(cs).Some? && ParseHex16(cs).value as int == HexValue(cs)
  {
  }

  /** `\u00XX` decodes to the control character U+00XX. */
  lemma UnescapeHexControl(s: seq<CodeUnit>, p: nat, u: CodeUnit)
    requires u < 0x20 && p + 6 <= |s| && s[p + 1] == U('u')
    requires s[p + 2..p + 6] == [ZERO, ZERO, HexChar(u as nat / 16), HexChar(u as nat % 16)]
    ensures Unescape(s, p + 1) == Decoded(u, p + 6)
  {
    var cs := s[p + 2..p + 6];
    assert s[p + 2..p + 2 + 4] + FRESH_BUFFER[4..] == cs;
    HexValueOfFour(cs);
    ParseHex16OfDigits(cs);
  }

  /** Each escape sequence `EscapeUnit` writes decodes back to its unit. */
  lemma UnescapeEscapeUnit(s: seq<CodeUnit>, p: nat, u: CodeUnit)
    requires p + |EscapeUnit(u)| <= |s| && s[p..p + |EscapeUnit(u)|] == EscapeUnit(u)
    requires |EscapeUnit(u)| > 1
    ensures Unescape(s, p + 1) == Decoded(u, p + |EscapeUnit(u)|)
  {
    var e := EscapeUnit(u);
    assert s[p + 1] == e[1];
    if u == QUOTE || u == BACKSLASH {
    } else {
      var i := ShortIndex(u, 0);
      if i < 5 {
        assert s[p + 1] == SHORT_LETTERS[i] && u == SHORT_CONTROLS[i];
        assert i == 0 || i == 1 || i == 2 || i == 3 || i == 4;
      } else {
        assert s[p + 2..p + 6] == e[2..];
        UnescapeHexControl(s, p, u);
      }
    }
  }

  /** Reading one escaped unit appends that unit and moves past its spelling. */
  lemma ScanEscapedUnit(s: seq<CodeUnit>, p: nat, acc: seq<CodeUnit>, u: CodeUnit)
    requires p + |EscapeUnit(u)| <= |s| && s[p..p + |EscapeUnit(u)|] == EscapeUnit(u)
    ensures ScanString(s, p, acc) == ScanString(s, p + |EscapeUnit(u)|, acc + [u])
  {
    var e := EscapeUnit(u);
    assert s[p] == e[0];
    if |e| > 1 {
      UnescapeEscapeUnit(s, p, u);
    }
  }

  /**
   * After `acc`, an escaped text followed by a quote is read back as that
   * text, and the string ends just past the quote: an escaped quote does not
   * end it.
   */
  lemma {:induction false} ScanEscaped(s: seq<CodeUnit>, p: nat, acc: seq<CodeUnit>, t: seq<CodeUnit>, e: seq<CodeUnit>)
    requires e == Escape(t)
    requires p + |e| < |s| && s[p..p + |e|] == e && s[p + |e|] == QUOTE
    ensures ScanString(s, p, acc) == Scanned(StringLiteral(acc + t), p + |e| + 1)
    decreases t
  {
    if t == [] {
      assert acc + t == acc;
    } else {
      var n := EscapedHead(s, p, t, e);
      ScanEscaped(s, p + n, acc + [t[0]], t[1..], Escape(t[1..]));
      EscapedStep(s, p, acc, t, n, p + n + |Escape(t[1..])| + 1);
    }
  }

  /** The inductive step: one escaped unit read, the rest of `t` as the rest of the string. */
  lemma EscapedStep(s: seq<CodeUnit>, p: nat, acc: seq<CodeUnit>, t: seq<CodeUnit>, n: nat, end: nat)
    requires t != [] && n == |EscapeUnit(t[0])| && p + n <= |s| && s[p..p + n] == EscapeUnit(t[0])
    requires ScanString(s, p + n, acc + [t[0]]) == Scanned(StringLiteral(acc + [t[0]] + t[1..]), end)
    ensures ScanString(s, p, acc) == Scanned(StringLiteral(acc + t), end)
  {
    ScanEscapedUnit(s, p, acc, t[0]);
    AppendHead(acc, t);
  }

  /** Where the spelling of the first unit of `t` ends, and what follows it. */
  lemma EscapedHead(s: seq<CodeUnit>, p: nat, t: seq<CodeUnit>, e: seq<CodeUnit>) returns (n: nat)
    requires t != [] && e == Escape(t)
    requires p + |e| < |s| && s[p..p + |e|] == e
    ensures n == |EscapeUnit(t[0])| && n + |Escape(t[1..])| == |e|
    ensures s[p..p + n] == EscapeUnit(t[0])
    ensures s[p + n..p + n + |Escape(t[1..])|] == Escape(t[1..])
  {
    n := |EscapeUnit(t[0])|;
    SplitWindow(s, p, EscapeUnit(t[0]), Escape(t[1..]));
  }

  lemma AppendHead(acc: seq<CodeUnit>, t: seq<CodeUnit>)
    requires t != []
    ensures acc + [t[0]] + t[1..] == acc + t
  {
    assert [t[0]] + t[1..] == t;
  }

  /** The two halves of a text found at `p` are found at `p` and just after the first. */
  lemma SplitWindow(s: seq<CodeUnit>, p: nat, head: seq<CodeUnit>, rest: seq<CodeUnit>)
    requires p + |head| + |rest| <= |s| && s[p..p + |head| + |rest|] == head + rest
    ensures s[p..p + |head|] == head
    ensures s[p + |head|..p + |head| + |rest|] == rest
  {
    var n := |head|;
    assert s[p..p + n] == (head + rest)[..n];
    assert s[p + n..p + n + |rest|] == (head + rest)[n..];
  }

  /** A quoted, escaped text is one string token carrying exactly that text. */
  lemma StringRoundTrip(t: seq<CodeUnit>, rest: seq<CodeUnit>)
    ensures NextToken([QUOTE] + Escape(t) + [QUOTE] + rest, 0)
            == Scanned(StringLiteral(t), |Escape(t)| + 2)
  {
    var s := [QUOTE] + Escape(t) + [QUOTE] + rest;
    SkipWhitespaceIsFirstNonWhitespace(s, 0, 0);
    assert s[1..1 + |Escape(t)|] == Escape(t);
    ScanEscaped(s, 1, [], t, Escape(t));
    assert [] + t == t;
  }

  /** A string never closed is read forever: the source loops, the model says `Hang`. */
  lemma {:induction false} UnterminatedStringHangs(s: seq<CodeUnit>, p: nat, acc: seq<CodeUnit>)
    requires p <= |s|
    requires forall i | p <= i < |s| :: s[i] != QUOTE && s[i] != BACKSLASH
    ensures ScanString(s, p, acc) == Hang
    decreases |s| - p
  {
    if p < |s| {
      UnterminatedStringHangs(s, p + 1, acc + [s[p]]);
    }
  }

  /** The one-letter escapes `parseEscapedCharacter` accepts, and the units they stand for. */
  const ESCAPE_LETTERS: seq<CodeUnit> := [QUOTE, BACKSLASH, SLASH, U('b'), U('f'), U('r'), U('t'), U('n')]
  const ESCAPED_UNITS: seq<CodeUnit> := [QUOTE, BACKSLASH, SLASH, 0x08, 0x0C, 0x0D, 0x09, 0x0A]

  /** Each one-letter escape decodes to its unit, just past the letter: `\/` is `/`, `\b` is U+0008, and so on. */
  lemma OneLetterEscape(s: seq<CodeUnit>, p: nat, i: nat)
    requires p < |s| && i < |ESCAPE_LETTERS| && s[p] == ESCAPE_LETTERS[i]
    ensures Unescape(s, p) == Decoded(ESCAPED_UNITS[i], p + 1)
  {
  }

  /** A backslash followed by a letter outside the escape set throws just past it. */
  lemma BadEscapeLetter(s: seq<CodeUnit>, p: nat)
    requires p < |s|
    requires s[p] !in {QUOTE, BACKSLASH, SLASH, U('b'), U('f'), U('r'), U('t'), U('n'), U('u')}
    ensures Unescape(s, p) == BadEscape(p + 1)
  {
  }

  /** `\u` followed by four hexadecimal digits (no sign) decodes to their value. */
  lemma UnicodeEscapeOfHexDigits(s: seq<CodeUnit>, p: nat)
    requires p + 5 <= |s| && s[p] == U('u')
    requires AllHex(s[p + 1..p + 5]) && s[p + 1] != PLUS && s[p + 1] != MINUS
    ensures Unescape(s, p).Decoded? && Unescape(s, p).next == p + 5
    ensures Unescape(s, p).unit as int == HexValue(s[p + 1..p + 5])
  {
    var cs := s[p + 1..p + 5];
    assert s[p + 1..p + 1 + 4] + FRESH_BUFFER[4..] == cs;
    ParseHex16OfDigits(cs);
  }

  /** Without a sign, any unit among the four that is not a hexadecimal digit throws. */
  lemma UnicodeEscapeOfNonHex(s: seq<CodeUnit>, p: nat)
    requires p + 4 <= |s| && !AllHex(s[p..p + 4]) && s[p] != PLUS && s[p] != MINUS
    ensures UnicodeEscape(s, p) == BadEscape(p + 4)
  {
    assert s[p..p + 4] + FRESH_BUFFER[4..] == s[p..p + 4];
  }

  /**
   * Fewer than four units left: the unread slots keep their NULs, which are
   * not digits, so the escape throws at the end of the input.
   */
  lemma ShortUnicodeEscape(s: seq<CodeUnit>, p: nat)
    requires p <= |s| < p + 4
    ensures UnicodeEscape(s, p) == BadEscape(|s|)
  {
    var k := |s| - p;
    var buffer := s[p..p + k] + FRESH_BUFFER[k..];
    EndsInNul(s[p..p + k], buffer);
    EndsInNul(s[p..p + k], buffer[1..]);
    assert ParseHex16(buffer) == None;
  }

  /** A short read leaves the last slot of the buffer NUL, so no tail of it is all digits. */
  lemma EndsInNul(read: seq<CodeUnit>, ds: seq<CodeUnit>)
    requires |read| < 4
    requires ds == read + FRESH_BUFFER[|read|..] || ds == (read + FRESH_BUFFER[|read|..])[1..]
    ensures !AllHex(ds)
  {
    assert (read + FRESH_BUFFER[|read|..])[3] == NUL;
    assert ds[|ds| - 1] == NUL;
  }

  /** `HexValue` of three digits, spelled out. */
  lemma HexValueOfThree(ds: seq<CodeUnit>)
    requires |ds| == 3 && IsHexDigit(ds[0]) && IsHexDigit(ds[1]) && IsHexDigit(ds[2])
    ensures AllHex(ds)
    ensures HexValue(ds) == (HexDigitValue(ds[0]) * 16 + HexDigitValue(ds[1])) * 16
                            + HexDigitValue(ds[2])
  {
    var d2 := ds[..2];
    var d1 := d2[..1];
    assert d1[..0] == [];
    HexValueStep(d1);
    HexValueStep(d2);
    HexValueStep(ds);
  }

  /** One more digit: sixteen times the value so far, plus the digit. */
  lemma HexValueStep(ds: seq<CodeUnit>)
    requires ds != [] && AllHex(ds[..|ds| - 1]) && IsHexDigit(ds[|ds| - 1])
    ensures AllHex(ds) && HexValue(ds) == HexValue(ds[..|ds| - 1]) * 16 + HexDigitValue(ds[|ds| - 1])
  {
  }

  /** `Integer.parseInt` takes a sign: `\u+041` is `A`, and `\u-000` is U+0000. */
  lemma SignedUnicodeEscapes()
    ensures UnicodeEscape([PLUS, ZERO, U('4'), U('1')], 0) == Decoded(U('A'), 4)
    ensures UnicodeEscape([MINUS, ZERO, ZERO, ZERO], 0) == Decoded(NUL, 4)
    ensures UnicodeEscape([MINUS, ZERO, ZERO, U('1')], 0) == BadEscape(4)
  {
    var plus := [PLUS, ZERO, U('4'), U('1')];
    assert plus[0..4] + FRESH_BUFFER[4..] == plus;
    HexValueOfThree(plus[1..]);
    var zero := [MINUS, ZERO, ZERO, ZERO];
    assert zero[0..4] + FRESH_BUFFER[4..] == zero;
    HexValueOfThree(zero[1..]);
    var one := [MINUS, ZERO, ZERO, U('1')];
    assert one[0..4] + FRESH_BUFFER[4..] == one;
    HexValueOfThree(one[1..]);
  }

  // ------------------------------------------------------------ keywords

  /** `parseExactWord` succeeds exactly when the input spells the word. */
  lemma {:induction false} MatchWordIsExact(s: seq<CodeUnit>, p: nat, w: seq<CodeUnit>)
    requires p <= |s|
    ensures MatchWord(s, p, w).Matched? <==> p + |w| <= |s| && s[p..p + |w|] == w
    decreases w
  {
    if w != [] && p < |s| && s[p] == w[0] {
      MatchWordIsExact(s, p + 1, w[1..]);
      if p + |w| <= |s| {
        assert s[p..p + |w|] == [s[p]] + s[p + 1..p + 1 + |w[1..]|];
        assert w == [w[0]] + w[1..];
      }
    } else if w != [] && p + |w| <= |s| {
      assert s[p..p + |w|][0] == s[p];
    }
  }

  /** The letter that starts a keyword, the keyword and its token. */
  predicate Keyword(c: CodeUnit, w: seq<CodeUnit>, t: Token) {
    || (c == U('n') && w == NULL_WORD && t == NullLiteral)
    || (c == U('t') && w == TRUE_WORD && t == TrueLiteral)
    || (c == U('f') && w == FALSE_WORD && t == FalseLiteral)
  }

  /**
   * `n`, `t` and `f` are pushed back and must be followed through to the
   * whole keyword: then it is one token; any other spelling, or the end of
   * the input, throws.
   */
  lemma KeywordToken(s: seq<CodeUnit>, p: nat, q: nat, w: seq<CodeUnit>, t: Token)
    requires p <= q < |s| && AllWhitespace(s, p, q) && Keyword(s[q], w, t)
    ensures q + |w| <= |s| && s[q..q + |w|] == w ==> NextToken(s, p) == Scanned(t, q + |w|)
    ensures !(q + |w| <= |s| && s[q..q + |w|] == w) ==> NextToken(s, p).Malformed?
  {
    SkipWhitespaceIsFirstNonWhitespace(s, p, q);
    KeywordAt(s, q, w, t);
    MatchWordIsExact(s, q, w);
  }

  /** The letter of a keyword hands the rest to `parseExactWord`. */
  lemma KeywordAt(s: seq<CodeUnit>, q: nat, w: seq<CodeUnit>, t: Token)
    requires q < |s| && Keyword(s[q], w, t)
    ensures TokenAt(s, q) == ScanKeyword(s, q, w, t)
  {
  }

  // ------------------------------------------------------------ numbers

  /** Every unit of `t` is a `Character.isDigit` digit. */
  predicate AllDigits(t: seq<CodeUnit>) {
    t == [] || (IsDigit(t[0]) && AllDigits(t[1..]))
  }

  predicate IsDigitRun(t: seq<CodeUnit>) {
    |t| > 0 && AllDigits(t)
  }

  /** `-?(0|[1-9][0-9]*)`, where a digit is any `Character.isDigit` unit. */
  predicate IsIntegerPart(t: seq<CodeUnit>) {
    var u := if |t| > 0 && t[0] == MINUS then t[1..] else t;
    u == [ZERO] || (IsDigitRun(u) && u[0] != ZERO)
  }

  /** `(\.[0-9]+)?` */
  predicate IsFractionPart(t: seq<CodeUnit>) {
    t == [] || (|t| > 1 && t[0] == DOT && IsDigitRun(t[1..]))
  }

  /** `([eE][+-]?[0-9]+)?` */
  predicate IsExponentPart(t: seq<CodeUnit>) {
    || t == []
    || (|t| > 1 && (t[0] == LOWER_E || t[0] == UPPER_E)
        && (IsDigitRun(t[1..]) || (|t| > 2 && (t[1] == PLUS || t[1] == MINUS) && IsDigitRun(t[2..]))))
  }

  /** An integer part, a fraction part and an exponent part, in that order. */
  predicate NumberParts(a: seq<CodeUnit>, b: seq<CodeUnit>, c: seq<CodeUnit>) {
    IsIntegerPart(a) && IsFractionPart(b) && IsExponentPart(c)
  }

  /** `t` is an integer part up to `i`, a fraction part up to `j`, then an exponent part. */
  predicate SplitsAsNumber(t: seq<CodeUnit>, i: nat, j: nat) {
    i <= j <= |t| && NumberParts(t[..i], t[i..j], t[j..])
  }

  /** The number grammar: an integer part, an optional fraction, an optional exponent. */
  predicate IsNumberLexeme(t: seq<CodeUnit>) {
    exists i: nat, j: nat | i <= j <= |t| :: SplitsAsNumber(t, i, j)
  }

  /** A number followed by this cannot be read any further. */
  predicate Terminated(s: seq<CodeUnit>, e: nat)
    requires e <= |s|
  {
    e == |s| || !(IsDigit(s[e]) || s[e] == DOT || s[e] == LOWER_E || s[e] == UPPER_E)
  }

  /** `DigitsEnd` stops at the first unit that is not a digit, and only there. */
  lemma {:induction false} DigitsEndIsFirstNonDigit(s: seq<CodeUnit>, i: nat, j: nat)
    requires i <= j <= |s|
    ensures DigitsEnd(s, i) == j <==> AllDigits(s[i..j]) && (j == |s| || !IsDigit(s[j]))
    decreases j - i
  {
    if i < j && IsDigit(s[i]) {
      DigitsEndIsFirstNonDigit(s, i + 1, j);
      assert s[i..j] == [s[i]] + s[i + 1..j];
    } else if i < j {
      assert s[i..j][0] == s[i];
    }
  }

  lemma DigitsEndRun(s: seq<CodeUnit>, i: nat)
    requires i <= |s|
    ensures AllDigits(s[i..DigitsEnd(s, i)])
    ensures DigitsEnd(s, i) == |s| || !IsDigit(s[DigitsEnd(s, i)])
  {
    DigitsEndIsFirstNonDigit(s, i, DigitsEnd(s, i));
  }

  /** A digit at `i` starts a run that ends where `DigitsEnd(s, i + 1)` does. */
  lemma DigitRunFrom(s: seq<CodeUnit>, i: nat)
    requires i < |s| && IsDigit(s[i])
    ensures IsDigitRun(s[i..DigitsEnd(s, i + 1)])
  {
    DigitsEndRun(s, i + 1);
    assert s[i..DigitsEnd(s, i + 1)] == [s[i]] + s[i + 1..DigitsEnd(s, i + 1)];
  }

  /** The units of an integer part after its optional minus sign, as they sit in the input. */
  lemma IntegerPartAt(s: seq<CodeUnit>, q: nat, m: nat, i: nat)
    requires q <= m < i <= |s| && m == DigitsStart(s, q)
    ensures IsIntegerPart(s[q..i]) <==> s[m..i] == [ZERO] || (IsDigitRun(s[m..i]) && s[m] != ZERO)
  {
    var t := s[q..i];
    assert t[0] == s[q];
    assert s[m..i] == if t[0] == MINUS then t[1..] else t;
    assert s[m..i][0] == s[m];
  }

  lemma IntegerSound(s: seq<CodeUnit>, q: nat) returns (i: nat)
    requires q <= |s| && !ScanNumber(s, q).Malformed?
    ensures q <= i <= |s| && IsIntegerPart(s[q..i])
    ensures ScanNumber(s, q) == ScanFraction(s, q, i)
  {
    i := IntegerRun(s, q, DigitsStart(s, q));
  }

  /** The integer part `parseIntegerPart` reads when a digit follows the optional minus sign. */
  lemma IntegerRun(s: seq<CodeUnit>, q: nat, m: nat) returns (i: nat)
    requires q <= m <= |s| && m == DigitsStart(s, q)
    requires At(s, m) == ZERO || IsDigit(At(s, m))
    ensures m < i <= |s| && IsIntegerPart(s[q..i])
    ensures i == IntegerEnd(s, m)
  {
    if At(s, m) == ZERO {
      i := m + 1;
      assert s[m..i] == [ZERO];
    } else {
      i := DigitsEnd(s, m + 1);
      DigitRunFrom(s, m);
    }
    IntegerPartAt(s, q, m, i);
  }

  lemma FractionSound(s: seq<CodeUnit>, q: nat, i: nat) returns (j: nat)
    requires q <= i <= |s| && !ScanFraction(s, q, i).Malformed?
    ensures i <= j <= |s| && IsFractionPart(s[i..j])
    ensures ScanFraction(s, q, i) == ScanExponent(s, q, j)
  {
    if At(s, i) == DOT {
      j := DigitsEnd(s, i + 2);
      DigitRunFrom(s, i + 1);
      assert s[i..j][1..] == s[i + 1..j];
    } else {
      j := i;
    }
  }

  lemma ExponentSound(s: seq<CodeUnit>, q: nat, j: nat) returns (e: nat)
    requires q <= j <= |s| && ScanExponent(s, q, j).Scanned?
    ensures j <= e <= |s| && IsExponentPart(s[j..e])
    ensures ScanExponent(s, q, j) == Scanned(NumberLiteral(s[q..e]), e)
  {
    e := ScanExponent(s, q, j).next;
    if IsExponentMarker(At(s, j)) {
      var k := ExponentDigitsStart(s, j);
      DigitRunFrom(s, k);
      assert s[j..e][k - j..] == s[k..e];
    }
  }

  /** A slice of the text `t` found at `q` in `s` is the slice of `s` there. */
  lemma WindowSlice(s: seq<CodeUnit>, q: nat, t: seq<CodeUnit>, c: nat, d: nat)
    requires q + |t| <= |s| && s[q..q + |t|] == t && c <= d <= |t|
    ensures t[c..d] == s[q + c..q + d]
  {
    assert forall k | 0 <= k < d - c :: t[c..d][k] == t[c + k] == s[q + c + k];
  }

  /** The three parts of the text `t` found at `q` in `s`, as slices of `s`. */
  lemma WindowParts(s: seq<CodeUnit>, q: nat, t: seq<CodeUnit>, i: nat, j: nat)
    requires q + |t| <= |s| && s[q..q + |t|] == t && i <= j <= |t|
    ensures t[..i] == s[q..q + i] && t[i..j] == s[q + i..q + j] && t[j..] == s[q + j..q + |t|]
  {
    WindowSlice(s, q, t, 0, i);
    WindowSlice(s, q, t, i, j);
    WindowSlice(s, q, t, j, |t|);
    assert t[..i] == t[0..i] && t[j..] == t[j..|t|];
  }

  /** Three consecutive parts of the input make a lexeme of the number grammar. */
  lemma LexemeOfParts(s: seq<CodeUnit>, q: nat, i: nat, j: nat, t: seq<CodeUnit>)
    requires q <= i <= j <= q + |t| <= |s| && s[q..q + |t|] == t
    requires NumberParts(s[q..i], s[i..j], s[j..q + |t|])
    ensures IsNumberLexeme(t)
  {
    WindowParts(s, q, t, i - q, j - q);
    assert SplitsAsNumber(t, i - q, j - q);
  }

  /**
   * Soundness: a number token carries exactly the units consumed, and they
   * follow the number grammar.
   */
  lemma NumberIsSound(s: seq<CodeUnit>, q: nat)
    requires q <= |s| && ScanNumber(s, q).Scanned?
    ensures ScanNumber(s, q).token == NumberLiteral(s[q..ScanNumber(s, q).next])
    ensures IsNumberLexeme(s[q..ScanNumber(s, q).next])
  {
    var i := IntegerSound(s, q);
    var j := FractionSound(s, q, i);
    var e := ExponentSound(s, q, j);
    SliceIsLexeme(s, q, i, j, e);
  }

  lemma SliceIsLexeme(s: seq<CodeUnit>, q: nat, i: nat, j: nat, e: nat)
    requires q <= i <= j <= e <= |s|
    requires NumberParts(s[q..i], s[i..j], s[j..e])
    ensures IsNumberLexeme(s[q..e])
  {
    LexemeOfParts(s, q, i, j, s[q..e]);
  }

  lemma IntegerComplete(s: seq<CodeUnit>, q: nat, i: nat)
    requires q <= i <= |s| && IsIntegerPart(s[q..i]) && (i == |s| || !IsDigit(s[i]))
    ensures ScanNumber(s, q) == ScanFraction(s, q, i)
  {
    var m := IntegerDigitsAt(s, q, i);
    NumberAfterInteger(s, q, m);
  }

  /** Where the digits of an integer part that nothing extends start, and where `IntegerEnd` puts its end. */
  lemma IntegerDigitsAt(s: seq<CodeUnit>, q: nat, i: nat) returns (m: nat)
    requires q <= i <= |s| && IsIntegerPart(s[q..i]) && (i == |s| || !IsDigit(s[i]))
    ensures q <= m < i && m == DigitsStart(s, q)
    ensures At(s, m) == ZERO || IsDigit(At(s, m))
    ensures IntegerEnd(s, m) == i
  {
    var t := s[q..i];
    assert t[0] == s[q];
    m := DigitsStart(s, q);
    var u := s[m..i];
    assert u == if t[0] == MINUS then t[1..] else t;
    assert u[0] == s[m] && u[1..] == s[m + 1..i];
    if s[m] != ZERO {
      DigitsEndIsFirstNonDigit(s, m + 1, i);
    }
  }

  lemma FractionComplete(s: seq<CodeUnit>, q: nat, i: nat, j: nat)
    requires q <= i <= j <= |s| && IsFractionPart(s[i..j])
    requires j == |s| || !(IsDigit(s[j]) || s[j] == DOT)
    ensures ScanFraction(s, q, i) == ScanExponent(s, q, j)
  {
    if i < j {
      assert s[i..j][0] == s[i] && s[i..j][1] == s[i + 1];
      DigitsEndIsFirstNonDigit(s, i + 2, j);
      assert s[i + 2..j] == s[i..j][1..][1..];
    }
  }

  lemma ExponentComplete(s: seq<CodeUnit>, q: nat, j: nat, e: nat)
    requires q <= j <= e <= |s| && IsExponentPart(s[j..e]) && Terminated(s, e)
    ensures ScanExponent(s, q, j) == Scanned(NumberLiteral(s[q..e]), e)
  {
    if j < e {
      var x := s[j..e];
      assert x[0] == s[j] && x[1] == s[j + 1];
      var k := ExponentDigitsStart(s, j);
      assert s[k..e] == x[k - j..];
      assert At(s, k) == x[k - j];
      DigitsEndIsFirstNonDigit(s, k + 1, e);
      assert s[k + 1..e] == x[k - j..][1..];
    }
  }

  /** The parts of a lexeme, found in the input that spells it. */
  lemma PartsOfLexeme(s: seq<CodeUnit>, q: nat, t: seq<CodeUnit>) returns (i: nat, j: nat)
    requires IsNumberLexeme(t) && q + |t| <= |s| && s[q..q + |t|] == t
    ensures q <= i <= j <= q + |t|
    ensures NumberParts(s[q..i], s[i..j], s[j..q + |t|])
  {
    var i': nat, j': nat :| i' <= j' <= |t| && SplitsAsNumber(t, i', j');
    i, j := q + i', q + j';
    WindowParts(s, q, t, i', j');
  }

  /**
   * Completeness: a lexeme of the number grammar that nothing can extend is
   * read as one number token, and the stream is left just past it, at the
   * one unit that ended it.
   */
  lemma NumberIsComplete(s: seq<CodeUnit>, q: nat, t: seq<CodeUnit>)
    requires IsNumberLexeme(t) && q + |t| <= |s| && s[q..q + |t|] == t
    requires Terminated(s, q + |t|)
    ensures ScanNumber(s, q) == Scanned(NumberLiteral(t), q + |t|)
  {
    var i, j := PartsOfLexeme(s, q, t);
    PartsEnd(s, q, i, j, q + |t|);
    FractionOnwardComplete(s, q, i, j, q + |t|);
    IntegerComplete(s, q, i);
  }

  /** A fraction part and an exponent part that nothing can extend are read up to their end. */
  lemma FractionOnwardComplete(s: seq<CodeUnit>, q: nat, i: nat, j: nat, e: nat)
    requires q <= i <= j <= e <= |s| && IsFractionPart(s[i..j]) && IsExponentPart(s[j..e]) && Terminated(s, e)
    requires j == |s| || !(IsDigit(s[j]) || s[j] == DOT)
    ensures ScanFraction(s, q, i) == Scanned(NumberLiteral(s[q..e]), e)
  {
    ExponentComplete(s, q, j, e);
    FractionComplete(s, q, i, j);
  }

  /** Each part of a lexeme that nothing can extend ends where the next part cannot continue it. */
  lemma PartsEnd(s: seq<CodeUnit>, q: nat, i: nat, j: nat, e: nat)
    requires q <= i <= j <= e <= |s| && NumberParts(s[q..i], s[i..j], s[j..e]) && Terminated(s, e)
    ensures IsIntegerPart(s[q..i]) && IsFractionPart(s[i..j]) && IsExponentPart(s[j..e])
    ensures i == |s| || !IsDigit(s[i])
    ensures j == |s| || !(IsDigit(s[j]) || s[j] == DOT)
  {
    if j < e {
      assert s[j..e][0] == s[j];
    }
    if i < j {
      assert s[i..j][0] == s[i];
    }
  }

  /**
   * After whitespace, a number lexeme that starts with an ASCII digit or a
   * minus sign and that nothing can extend is the next token.
   */
  lemma NumberToken(s: seq<CodeUnit>, p: nat, q: nat, t: seq<CodeUnit>)
    requires p <= q && q + |t| <= |s| && AllWhitespace(s, p, q) && s[q..q + |t|] == t
    requires IsNumberLexeme(t) && (IsAsciiDigit(t[0]) || t[0] == MINUS) && Terminated(s, q + |t|)
    ensures NextToken(s, p) == Scanned(NumberLiteral(t), q + |t|)
  {
    var i: nat, j: nat :| i <= j <= |t| && SplitsAsNumber(t, i, j);
    assert t[..i][0] == t[0];
    assert s[q] == t[0];
    SkipWhitespaceIsFirstNonWhitespace(s, p, q);
    NumberIsComplete(s, q, t);
  }

  /** A minus sign with no digit after it throws. */
  lemma MinusWithoutDigit(s: seq<CodeUnit>, q: nat)
    requires q < |s| && s[q] == MINUS && !IsDigit(At(s, q + 1))
    ensures ScanNumber(s, q) == Malformed(After(s, q + 1))
  {
  }

  /** An integer part and a dot with no digit after it throw. */
  lemma FractionWithoutDigit(s: seq<CodeUnit>, q: nat, i: nat)
    requires q <= i < |s| && IsIntegerPart(s[q..i]) && s[i] == DOT && !IsDigit(At(s, i + 1))
    ensures ScanNumber(s, q) == Malformed(After(s, i + 1))
  {
    IntegerComplete(s, q, i);
  }

  /** An exponent marker, with or without a sign, and no digit after it throws. */
  lemma ExponentWithoutDigit(s: seq<CodeUnit>, q: nat, i: nat, j: nat, k: nat)
    requires q <= i <= j < |s| && IsIntegerPart(s[q..i]) && IsFractionPart(s[i..j])
    requires s[j] == LOWER_E || s[j] == UPPER_E
    requires k == ExponentDigitsStart(s, j)
    requires !IsDigit(At(s, k))
    ensures ScanNumber(s, q) == Malformed(After(s, k))
  {
    if i < j {
      assert s[i..j][0] == s[i];
      IntegerComplete(s, q, i);
    } else {
      IntegerComplete(s, q, i);
    }
    FractionComplete(s, q, i, j);
  }

  /**
   * The one way a lexeme can be followed by a digit and still be read as it
   * stands: its integer part is `0` or `-0`, which ends at once, and the digit
   * starts the next token.
   */
  lemma ZeroThenDigit(s: seq<CodeUnit>, q: nat, i: nat)
    requires q < i < |s| && (s[q..i] == [ZERO] || s[q..i] == [MINUS, ZERO]) && IsDigit(s[i])
    ensures ScanNumber(s, q) == Scanned(NumberLiteral(s[q..i]), i)
  {
    var m := i - 1;
    assert s[q] == s[q..i][0] && s[m] == s[q..i][|s[q..i]| - 1];
    assert m == DigitsStart(s, q);
    NumberAfterInteger(s, q, m);
    assert IntegerEnd(s, m) == i;
  }

  /** After a leading zero the integer part ends: `01` is the number `0`, then the number `1`. */
  lemma LeadingZeroEndsTheNumber()
    ensures NextToken([ZERO, U('1')], 0) == Scanned(NumberLiteral([ZERO]), 1)
    ensures NextToken([ZERO, U('1')], 1) == Scanned(NumberLiteral([U('1')]), 2)
  {
    var s := [ZERO, U('1')];
    SkipWhitespaceIsFirstNonWhitespace(s, 0, 0);
    SkipWhitespaceIsFirstNonWhitespace(s, 1, 1);
    assert s[..1] == [ZERO] && s[1..2] == [U('1')];
    DigitsEndIsFirstNonDigit(s, 2, 2);
  }

  /** `3.3.4` is the number `3.3`; the next call then rejects the second dot. */
  lemma SecondDotIsRejected()
    ensures NextToken([U('3'), DOT, U('3'), DOT, U('4')], 0)
            == Scanned(NumberLiteral([U('3'), DOT, U('3')]), 3)
    ensures NextToken([U('3'), DOT, U('3'), DOT, U('4')], 3) == Malformed(4)
  {
    var s := [U('3'), DOT, U('3'), DOT, U('4')];
    SkipWhitespaceIsFirstNonWhitespace(s, 0, 0);
    SkipWhitespaceIsFirstNonWhitespace(s, 3, 3);
    DigitsEndIsFirstNonDigit(s, 1, 1);
    DigitsEndIsFirstNonDigit(s, 3, 3);
    assert s[0..3] == [U('3'), DOT, U('3')];
  }
}
