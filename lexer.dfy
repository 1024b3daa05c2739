/**
 * The tokenizer (`TokenReader`). It reads a pushback stream of UTF-16 code
 * units one at a time and returns one token per `ReadNext` call.
 *
 * The stream is a sequence `input` and a position `pos`. Reading at the end
 * yields the sentinel `EOF` (U+FFFF, the Java `(char) -1`) and does not move.
 * Pushing back undoes the last read only if that read consumed a character;
 * pushing back the sentinel at the end changes nothing, as in the source.
 *
 * The functions below describe one call as a value: `NextToken(s, p)` is the
 * outcome of `readNext()` with the stream at position `p`. The class
 * `TokenReader` is the imperative reader, and each of its methods is proved
 * equal to the function that describes it.
 */
module Lexer {
  import opened Chars
  import opened Wrappers

  datatype Token =
    | EndOfInput
    | OpenBrace | CloseBrace | OpenBracket | CloseBracket | Colon | Comma
    | NullLiteral | TrueLiteral | FalseLiteral
    | StringLiteral(text: seq<CodeUnit>)
    | NumberLiteral(text: seq<CodeUnit>)

  /**
   * What one call of the tokenizer does: return a token and leave the stream
   * at `next`, throw `JsonParseException` with the stream at `at`, or never
   * return (an unterminated string, which the source reads forever).
   */
  datatype Lex =
    | Scanned(token: Token, next: nat)
    | Malformed(at: nat)
    | Hang

  /** What `parseEscapedCharacter` does: a decoded unit, or an exception. */
  datatype Decoded = Decoded(unit: CodeUnit, next: nat) | BadEscape(at: nat)

  /** What `parseExactWord` does: return, or throw at the first mismatch. */
  datatype WordMatch = Matched(next: nat) | Mismatch(at: nat)

  /** The unit `read()` returns at position `p`. */
  function At(s: seq<CodeUnit>, p: nat): CodeUnit {
    if p < |s| then s[p] else EOF
  }

  /** The position after `read()` at position `p`. */
  function After(s: seq<CodeUnit>, p: nat): nat {
    if p < |s| then p + 1 else p
  }

  /** Lies within the stream and, if it returns, no earlier than `lo`. */
  predicate InRange(r: Lex, lo: nat, s: seq<CodeUnit>) {
    match r
    case Scanned(_, next) => lo <= next <= |s|
    case Malformed(at) => lo <= at <= |s|
    case Hang => true
  }

  const NULL_WORD: seq<CodeUnit> := Units("null")
  const TRUE_WORD: seq<CodeUnit> := Units("true")
  const FALSE_WORD: seq<CodeUnit> := Units("false")

  // ---------------------------------------------------------------- readNext

  /** The position of the first unit at or after `p` that is not whitespace. */
  function SkipWhitespace(s: seq<CodeUnit>, p: nat): (q: nat)
    requires p <= |s|
    ensures p <= q <= |s|
    decreases |s| - p
  {
    if p < |s| && IsWhitespace(s[p]) then SkipWhitespace(s, p + 1) else p
  }

  /** `readNext()` with the stream at `p`. */
  function NextToken(s: seq<CodeUnit>, p: nat): (r: Lex)
    requires p <= |s|
    ensures InRange(r, p, s)
  {
    TokenAt(s, SkipWhitespace(s, p))
  }

  /** The rest of `readNext()` once whitespace has been skipped up to `q`. */
  function TokenAt(s: seq<CodeUnit>, q: nat): (r: Lex)
    requires q <= |s|
    ensures InRange(r, q, s)
  {
    if q == |s| then Scanned(EndOfInput, q)
    else
      var c := s[q];
      if c == EOF then Scanned(EndOfInput, q + 1)
      else if c == LBRACE then Scanned(OpenBrace, q + 1)
      else if c == RBRACE then Scanned(CloseBrace, q + 1)
      else if c == LBRACKET then Scanned(OpenBracket, q + 1)
      else if c == RBRACKET then Scanned(CloseBracket, q + 1)
      else if c == COLON then Scanned(Colon, q + 1)
      else if c == COMMA then Scanned(Comma, q + 1)
      else if c == QUOTE then ScanString(s, q + 1, [])
      else if IsAsciiDigit(c) || c == MINUS then ScanNumber(s, q)
      else if c == U('n') then ScanKeyword(s, q, NULL_WORD, NullLiteral)
      else if c == U('t') then ScanKeyword(s, q, TRUE_WORD, TrueLiteral)
      else if c == U('f') then ScanKeyword(s, q, FALSE_WORD, FalseLiteral)
      else Malformed(q + 1)
  }

  // ------------------------------------------------------------- parseString

  /**
   * `parseString` once `acc` has been decoded and the stream is at `p`.
   * At the end of the input the source reads the sentinel, which is neither
   * a quote nor a backslash, appends it and reads again, forever.
   */
  function ScanString(s: seq<CodeUnit>, p: nat, acc: seq<CodeUnit>): (r: Lex)
    requires p <= |s|
    ensures InRange(r, p, s)
    decreases |s| - p
  {
    if p == |s| then Hang
    else if s[p] == QUOTE then Scanned(StringLiteral(acc), p + 1)
    else if s[p] == BACKSLASH then
      match Unescape(s, p + 1)
      case Decoded(u, next) => ScanString(s, next, acc + [u])
      case BadEscape(at) => Malformed(at)
    else ScanString(s, p + 1, acc + [s[p]])
  }

  /** `parseEscapedCharacter` with the stream just after the backslash. */
  function Unescape(s: seq<CodeUnit>, p: nat): (d: Decoded)
    requires p <= |s|
    ensures d.Decoded? ==> p < d.next <= |s|
    ensures d.BadEscape? ==> p <= d.at <= |s|
  {
    if p == |s| then BadEscape(p)
    else
      var c := s[p];
      if c == QUOTE || c == BACKSLASH || c == SLASH then Decoded(c, p + 1)
      else if c == U('b') then Decoded(0x08, p + 1)
      else if c == U('f') then Decoded(0x0C, p + 1)
      else if c == U('r') then Decoded(0x0D, p + 1)
      else if c == U('t') then Decoded(0x09, p + 1)
      else if c == U('n') then Decoded(0x0A, p + 1)
      else if c == U('u') then UnicodeEscape(s, p + 1)
      else BadEscape(p + 1)
  }

  function Min(a: int, b: int): int {
    if a < b then a else b
  }

  /**
   * `parseUnicodeCharacter` with the stream just after `\u`: one bulk read
   * into a four-slot buffer that starts as NULs, then `Integer.parseInt(_, 16)`
   * and `Character.toChars`.
   */
  function UnicodeEscape(s: seq<CodeUnit>, p: nat): (d: Decoded)
    requires p <= |s|
    ensures d.Decoded? ==> p < d.next <= |s|
    ensures d.BadEscape? ==> p <= d.at <= |s|
  {
    var k := Min(4, |s| - p);
    var buffer := s[p..p + k] + FRESH_BUFFER[k..];
    match ParseHex16(buffer)
    case Some(u) => Decoded(u, p + k)
    case None => BadEscape(p + k)
  }

  /** The `char[4]` that `parseUnicodeCharacter` allocates. */
  const FRESH_BUFFER: seq<CodeUnit> := [NUL, NUL, NUL, NUL]

  /** A fresh buffer after a bulk read of `read` into its first `k` slots. */
  lemma FilledBuffer(b: seq<CodeUnit>, k: nat, read: seq<CodeUnit>)
    requires |b| == 4 && k <= 4 && b[..k] == read
    requires forall j | k <= j < 4 :: b[j] == NUL
    ensures b == read + FRESH_BUFFER[k..]
  {
    assert forall j | 0 <= j < 4 :: b[j] == (read + FRESH_BUFFER[k..])[j];
  }

  /** Every unit of `ds` is a hexadecimal digit. */
  predicate AllHex(ds: seq<CodeUnit>) {
    ds == [] || (AllHex(ds[..|ds| - 1]) && IsHexDigit(ds[|ds| - 1]))
  }

  function Pow16(n: nat): (r: nat)
    ensures r >= 1
  {
    if n == 0 then 1 else 16 * Pow16(n - 1)
  }

  /** The value of a run of hexadecimal digits, most significant first. */
  function HexValue(ds: seq<CodeUnit>): (v: nat)
    requires AllHex(ds)
    ensures v < Pow16(|ds|)
  {
    if ds == [] then 0
    else HexValue(ds[..|ds| - 1]) * 16 + HexDigitValue(ds[|ds| - 1])
  }

  /**
   * `Character.toChars(Integer.parseInt(chars, 16))[0]` on the four-unit
   * buffer, or `None` where either throws. `parseInt` admits one leading
   * sign; `toChars` throws on a negative value, so of the negative spellings
   * only `-000` survives (as U+0000).
   */
  function ParseHex16(cs: seq<CodeUnit>): Option<CodeUnit>
    requires |cs| == 4
  {
    assert Pow16(3) == 0x1000 && Pow16(4) == 0x1_0000;
    if cs[0] == PLUS then
      if AllHex(cs[1..]) then Some(HexValue(cs[1..]) as CodeUnit) else None
    else if cs[0] == MINUS then
      if AllHex(cs[1..]) && HexValue(cs[1..]) == 0 then Some(NUL) else None
    else if AllHex(cs) then Some(HexValue(cs) as CodeUnit)
    else None
  }

  // ------------------------------------------------------------- parseNumber

  /** The first position at or after `i` that does not hold a digit. */
  function DigitsEnd(s: seq<CodeUnit>, i: nat): (j: nat)
    requires i <= |s|
    ensures i <= j <= |s|
    decreases |s| - i
  {
    if i < |s| && IsDigit(s[i]) then DigitsEnd(s, i + 1) else i
  }

  /**
   * `parseNumber` with the number starting at `q`. The helpers carry the
   * position `i` of the unit that is currently being looked at; the number
   * ends where that unit is pushed back.
   */
  function ScanNumber(s: seq<CodeUnit>, q: nat): (r: Lex)
    requires q <= |s|
    ensures InRange(r, q, s)
  {
    var i := DigitsStart(s, q);
    var c := At(s, i);
    if c == ZERO || IsDigit(c) then ScanFraction(s, q, IntegerEnd(s, i))
    else Malformed(After(s, i))
  }

  /** Where an integer part whose first digit is at `i` ends: just after a `0`, else after the digit run. */
  function IntegerEnd(s: seq<CodeUnit>, i: nat): (j: nat)
    requires i < |s|
    ensures i < j <= |s|
  {
    if s[i] == ZERO then i + 1 else DigitsEnd(s, i + 1)
  }

  /** Where the fraction part at `i` ends: after its digits, or at `i` when there is no dot. */
  function FractionEnd(s: seq<CodeUnit>, i: nat): (j: nat)
    requires i <= |s| && (At(s, i) == DOT ==> IsDigit(At(s, i + 1)))
    ensures i <= j <= |s|
  {
    if At(s, i) == DOT then DigitsEnd(s, i + 2) else i
  }

  function ScanFraction(s: seq<CodeUnit>, q: nat, i: nat): (r: Lex)
    requires q <= i <= |s|
    ensures InRange(r, q, s)
  {
    if At(s, i) == DOT && !IsDigit(At(s, i + 1)) then Malformed(After(s, i + 1))
    else ScanExponent(s, q, FractionEnd(s, i))
  }

  function ScanExponent(s: seq<CodeUnit>, q: nat, i: nat): (r: Lex)
    requires q <= i <= |s|
    ensures InRange(r, q, s)
  {
    var k := ExponentDigitsStart(s, i);
    if IsExponentMarker(At(s, i)) && !IsDigit(At(s, k)) then Malformed(After(s, k))
    else
      var e := ExponentEnd(s, i);
      Scanned(NumberLiteral(s[q..e]), e)
  }

  predicate IsExponentMarker(c: CodeUnit) {
    c == LOWER_E || c == UPPER_E
  }

  /** Where the digits of an exponent part whose marker is at `i` start: after the optional sign. */
  function ExponentDigitsStart(s: seq<CodeUnit>, i: nat): (k: nat)
    ensures k == i + 1 || k == i + 2
  {
    if At(s, i + 1) == PLUS || At(s, i + 1) == MINUS then i + 2 else i + 1
  }

  /** Where the exponent part at `i` ends: after its digits, or at `i` when there is no marker. */
  function ExponentEnd(s: seq<CodeUnit>, i: nat): (j: nat)
    requires i <= |s| && (IsExponentMarker(At(s, i)) ==> IsDigit(At(s, ExponentDigitsStart(s, i))))
    ensures i <= j <= |s|
  {
    if IsExponentMarker(At(s, i)) then DigitsEnd(s, ExponentDigitsStart(s, i) + 1) else i
  }

  /** Where the number's first digit is expected: after the optional minus sign. */
  function DigitsStart(s: seq<CodeUnit>, q: nat): (i: nat)
    requires q <= |s|
    ensures q <= i <= |s| && (i == q + 1 <==> At(s, q) == MINUS)
  {
    if At(s, q) == MINUS then q + 1 else q
  }

  /** A number whose integer part has no digit is rejected where the digit should be. */
  lemma NumberWithoutDigits(s: seq<CodeUnit>, q: nat, i: nat)
    requires q <= |s| && i == DigitsStart(s, q)
    requires !(At(s, i) == ZERO || IsDigit(At(s, i)))
    ensures ScanNumber(s, q) == Malformed(After(s, i))
  {
  }

  /** Past a well-formed integer part, the number is decided by what follows it. */
  lemma NumberAfterInteger(s: seq<CodeUnit>, q: nat, i: nat)
    requires q <= |s| && i == DigitsStart(s, q) && i < |s|
    requires At(s, i) == ZERO || IsDigit(At(s, i))
    ensures ScanNumber(s, q) == ScanFraction(s, q, IntegerEnd(s, i))
  {
  }

  // ---------------------------------------------------------- parseExactWord

  /** `parseExactWord(w)` with the stream at `p`. */
  function MatchWord(s: seq<CodeUnit>, p: nat, w: seq<CodeUnit>): (m: WordMatch)
    requires p <= |s|
    ensures m.Matched? ==> m.next == p + |w| <= |s|
    ensures m.Mismatch? ==> p <= m.at <= |s|
    decreases w
  {
    if w == [] then Matched(p)
    else if p < |s| && s[p] == w[0] then MatchWord(s, p + 1, w[1..])
    else Mismatch(After(s, p))
  }

  /** `parseNull`, `parseTrue` and `parseFalse`. */
  function ScanKeyword(s: seq<CodeUnit>, q: nat, w: seq<CodeUnit>, t: Token): (r: Lex)
    requires q <= |s|
    ensures InRange(r, q, s)
  {
    match MatchWord(s, q, w)
    case Matched(next) => Scanned(t, next)
    case Mismatch(at) => Malformed(at)
  }

  // ------------------------------------------------------------ the reader

  class TokenReader {
    const input: seq<CodeUnit>
    var pos: nat
    /** Whether the last `Read` consumed a unit, so that `Unread` can undo it. */
    var advanced: bool

    ghost predicate Valid()
      reads this
    {
      pos <= |input| && (advanced ==> 0 < pos)
    }

    constructor (input: seq<CodeUnit>)
      ensures Valid()
      ensures this.input == input && pos == 0 && !advanced
    {
      this.input := input;
      pos := 0;
      advanced := false;
    }

    /** `(char) reader.read()` */
    method Read() returns (c: CodeUnit)
      requires Valid()
      modifies this
      ensures Valid()
      ensures c == At(input, old(pos)) && pos == After(input, old(pos))
      ensures advanced == (old(pos) < |input|)
    {
      if pos < |input| {
        c := input[pos];
        pos := pos + 1;
        advanced := true;
      } else {
        c := EOF;
        advanced := false;
      }
    }

    /** `reader.unread(c)` for the unit `c` the last `Read` returned. */
    method Unread()
      requires Valid()
      modifies this
      ensures Valid() && !advanced
      ensures pos == if old(advanced) then old(pos) - 1 else old(pos)
    {
      if advanced {
        pos := pos - 1;
        advanced := false;
      }
    }

    /** `readNext()` */
    method ReadNext() returns (r: Lex)
      requires Valid()
      modifies this
      ensures Valid()
      ensures r == NextToken(input, old(pos))
      ensures r.Scanned? ==> pos == r.next
      ensures r.Malformed? ==> pos == r.at
    {
      ghost var at := pos;
      var c := Read();
      // The source also tests `c != -1`, which always holds once `c` is a `char`.
      while IsWhitespace(c)
        invariant old(pos) <= at <= |input|
        invariant Valid() && c == At(input, at) && pos == After(input, at)
        invariant advanced == (at < |input|)
        invariant SkipWhitespace(input, at) == SkipWhitespace(input, old(pos))
        decreases |input| - at
      {
        at := pos;
        c := Read();
      }
      assert at == SkipWhitespace(input, old(pos));
      r := ReadToken(c, at);
    }

    /** The rest of `readNext()`, once `c`, read from `at`, is not whitespace. */
    method ReadToken(c: CodeUnit, ghost at: nat) returns (r: Lex)
      requires LooksAt(c, at) && !IsWhitespace(c)
      modifies this
      ensures Valid()
      ensures r == TokenAt(input, at)
      ensures r.Scanned? ==> pos == r.next
      ensures r.Malformed? ==> pos == r.at
    {
      if c == EOF {
        r := Scanned(EndOfInput, pos);
      } else if c == LBRACE {
        r := Scanned(OpenBrace, pos);
      } else if c == RBRACE {
        r := Scanned(CloseBrace, pos);
      } else if c == LBRACKET {
        r := Scanned(OpenBracket, pos);
      } else if c == RBRACKET {
        r := Scanned(CloseBracket, pos);
      } else if c == COLON {
        r := Scanned(Colon, pos);
      } else if c == COMMA {
        r := Scanned(Comma, pos);
      } else if c == QUOTE {
        r := ParseString();
      } else if IsAsciiDigit(c) || c == MINUS {
        Unread();
        r := ParseNumber();
      } else if c == U('n') {
        Unread();
        r := ParseKeyword(NULL_WORD, NullLiteral);
      } else if c == U('t') {
        Unread();
        r := ParseKeyword(TRUE_WORD, TrueLiteral);
      } else if c == U('f') {
        Unread();
        r := ParseKeyword(FALSE_WORD, FalseLiteral);
      } else {
        r := Malformed(pos);
      }
    }

    /**
     * `parseString()`, with the stream just after the opening quote. Where
     * the source would read the sentinel at the end of the input forever,
     * this method returns `Hang` instead.
     */
    method ParseString() returns (r: Lex)
      requires Valid()
      modifies this
      ensures Valid()
      ensures r == ScanString(input, old(pos), [])
      ensures r.Scanned? ==> pos == r.next
      ensures r.Malformed? ==> pos == r.at
    {
      var builder: seq<CodeUnit> := [];
      ghost var at := pos;
      var c := Read();
      while c != QUOTE
        invariant old(pos) <= at <= |input|
        invariant Valid() && c == At(input, at) && pos == After(input, at)
        invariant advanced == (at < |input|)
        invariant ScanString(input, at, builder) == ScanString(input, old(pos), [])
        decreases |input| - at
      {
        if !advanced {
          // the sentinel: appended and read again, forever
          return Hang;
        }
        if c == BACKSLASH {
          var d := ParseEscapedCharacter();
          if d.BadEscape? {
            return Malformed(d.at);
          }
          c := d.unit;
        }
        builder := builder + [c];
        at := pos;
        c := Read();
      }
      r := Scanned(StringLiteral(builder), pos);
    }

    /** `parseEscapedCharacter()`, with the stream just after the backslash. */
    method ParseEscapedCharacter() returns (d: Decoded)
      requires Valid()
      modifies this
      ensures Valid()
      ensures d == Unescape(input, old(pos))
      ensures d.Decoded? ==> pos == d.next
      ensures d.BadEscape? ==> pos == d.at
    {
      var c := Read();
      if !advanced {
        d := BadEscape(pos);
      } else if c == QUOTE || c == BACKSLASH || c == SLASH {
        d := Decoded(c, pos);
      } else if c == U('b') {
        d := Decoded(0x08, pos);
      } else if c == U('f') {
        d := Decoded(0x0C, pos);
      } else if c == U('r') {
        d := Decoded(0x0D, pos);
      } else if c == U('t') {
        d := Decoded(0x09, pos);
      } else if c == U('n') {
        d := Decoded(0x0A, pos);
      } else if c == U('u') {
        d := ParseUnicodeCharacter();
      } else {
        d := BadEscape(pos);
      }
    }

    /** `reader.read(chars)`: copies as many units as remain, up to the buffer's length. */
    method ReadInto(chars: array<CodeUnit>) returns (k: nat)
      requires Valid()
      modifies this, chars
      ensures Valid() && !advanced
      ensures k == Min(chars.Length, |input| - old(pos)) && pos == old(pos) + k
      ensures chars[..k] == input[old(pos)..pos]
      ensures forall j | k <= j < chars.Length :: chars[j] == old(chars[j])
    {
      k := 0;
      while k < chars.Length && pos < |input|
        invariant Valid() && pos == old(pos) + k && k <= chars.Length
        invariant chars[..k] == input[old(pos)..pos]
        invariant forall j | k <= j < chars.Length :: chars[j] == old(chars[j])
        decreases chars.Length - k
      {
        chars[k] := input[pos];
        pos := pos + 1;
        k := k + 1;
      }
      advanced := false;
    }

    /** `parseUnicodeCharacter()`, with the stream just after `\u`. */
    method ParseUnicodeCharacter() returns (d: Decoded)
      requires Valid()
      modifies this
      ensures Valid()
      ensures d == UnicodeEscape(input, old(pos))
      ensures d.Decoded? ==> pos == d.next
      ensures d.BadEscape? ==> pos == d.at
    {
      var chars := new CodeUnit[4](_ => NUL);
      var k := ReadInto(chars);
      FilledBuffer(chars[..], k, input[old(pos)..pos]);
      var v := ParseHex16(chars[..]);
      if v.Some? {
        d := Decoded(v.value, pos);
      } else {
        d := BadEscape(pos);
      }
    }

    /**
     * The reader has just read `c` from position `at`: the unit being looked
     * at, which `Unread` would push back.
     */
    ghost predicate LooksAt(c: CodeUnit, at: nat)
      reads this
    {
      Valid() && at <= |input| && c == At(input, at) && pos == After(input, at)
      && advanced == (at < |input|)
    }

    /** `do { builder.append(c); c = (char) reader.read(); } while (Character.isDigit(c));` */
    method ReadDigits(builder: seq<CodeUnit>, c: CodeUnit, ghost q: nat, ghost at: nat)
      returns (builder': seq<CodeUnit>, c': CodeUnit, ghost at': nat)
      requires LooksAt(c, at) && IsDigit(c) && q <= at && builder == input[q..at]
      modifies this
      ensures LooksAt(c', at')
      ensures at' == DigitsEnd(input, at) == DigitsEnd(input, at + 1) && builder' == input[q..at']
    {
      builder' := builder + [c];
      at' := pos;
      c' := Read();
      while IsDigit(c')
        invariant at < at' <= |input| && LooksAt(c', at')
        invariant builder' == input[q..at']
        invariant DigitsEnd(input, at') == DigitsEnd(input, at)
        decreases |input| - at'
      {
        builder' := builder' + [c'];
        at' := pos;
        c' := Read();
      }
    }

    /** `parseNumber()`, with the stream at the first unit of the number. */
    method ParseNumber() returns (r: Lex)
      requires Valid()
      modifies this
      ensures Valid()
      ensures r == ScanNumber(input, old(pos))
      ensures r.Scanned? ==> pos == r.next
      ensures r.Malformed? ==> pos == r.at
    {
      ghost var q := pos;
      var builder: seq<CodeUnit> := [];
      ghost var at := pos;
      var c := Read();
      if c == MINUS {
        builder, c, at := Append(builder, c, q, at);
      }
      ghost var i := at;
      var ok;
      ok, builder, c, at := ParseIntegerPart(builder, c, q, at);
      if !ok {
        NumberWithoutDigits(input, q, i);
        return Malformed(pos);
      }
      r := ParseNumberTail(builder, c, q, at);
      NumberAfterInteger(input, q, i);
    }

    /** The rest of `parseNumber()` once the integer part has been read up to `at0`. */
    method ParseNumberTail(builder: seq<CodeUnit>, c0: CodeUnit, ghost q: nat, ghost at0: nat) returns (r: Lex)
      requires LooksAt(c0, at0) && q <= at0 && builder == input[q..at0]
      modifies this
      ensures Valid()
      ensures r == ScanFraction(input, q, at0)
      ensures r.Scanned? ==> pos == r.next
      ensures r.Malformed? ==> pos == r.at
    {
      var ok, b, c, at := ParseFractionPart(builder, c0, q, at0);
      if !ok {
        return Malformed(pos);
      }
      ok, b, c, at := ParseExponentPart(b, c, q, at);
      if !ok {
        return Malformed(pos);
      }
      // The source tests `c != -1` here, which always holds once `c` is a `char`;
      // pushing back the sentinel at the end of the input changes nothing.
      Unread();
      r := Scanned(NumberLiteral(b), pos);
    }

    /** `builder.append(c); c = (char) reader.read();` for a unit `c` of the input. */
    method Append(builder: seq<CodeUnit>, c: CodeUnit, ghost q: nat, ghost at: nat)
      returns (builder': seq<CodeUnit>, c': CodeUnit, ghost at': nat)
      requires LooksAt(c, at) && at < |input| && q <= at && builder == input[q..at]
      modifies this
      ensures LooksAt(c', at') && at' == at + 1 && builder' == input[q..at']
    {
      builder' := builder + [c];
      at' := pos;
      c' := Read();
    }

    /** The integer part of `parseNumber()`, after the optional minus sign. */
    method ParseIntegerPart(builder: seq<CodeUnit>, c0: CodeUnit, ghost q: nat, ghost at0: nat)
      returns (ok: bool, b: seq<CodeUnit>, c: CodeUnit, ghost at: nat)
      requires LooksAt(c0, at0) && q <= at0 && builder == input[q..at0]
      modifies this
      ensures Valid()
      ensures ok <==> c0 == ZERO || IsDigit(c0)
      ensures ok ==> LooksAt(c, at) && at0 < |input| && at == IntegerEnd(input, at0) && b == input[q..at]
      ensures !ok ==> pos == After(input, at0)
    {
      b, c, at := builder, c0, at0;
      ok := true;
      if c == ZERO {
        b, c, at := Append(b, c, q, at);
      } else if IsDigit(c) {
        b, c, at := ReadDigits(b, c, q, at);
      } else {
        ok := false;
      }
    }

    /** The optional fraction part of `parseNumber()`. */
    method ParseFractionPart(builder: seq<CodeUnit>, c0: CodeUnit, ghost q: nat, ghost at0: nat)
      returns (ok: bool, b: seq<CodeUnit>, c: CodeUnit, ghost at: nat)
      requires LooksAt(c0, at0) && q <= at0 && builder == input[q..at0]
      modifies this
      ensures Valid()
      ensures ok <==> !(c0 == DOT && !IsDigit(At(input, at0 + 1)))
      ensures ok ==> LooksAt(c, at) && at == FractionEnd(input, at0) && b == input[q..at]
      ensures !ok ==> pos == After(input, at0 + 1)
    {
      b, c, at := builder, c0, at0;
      ok := true;
      if c == DOT {
        b := b + [c];
        at := pos;
        c := Read();
        if IsDigit(c) {
          b, c, at := ReadDigits(b, c, q, at);
        } else {
          ok := false;
        }
      }
    }

    /** The optional exponent part of `parseNumber()`. */
    method ParseExponentPart(builder: seq<CodeUnit>, c0: CodeUnit, ghost q: nat, ghost at0: nat)
      returns (ok: bool, b: seq<CodeUnit>, c: CodeUnit, ghost at: nat)
      requires LooksAt(c0, at0) && q <= at0 && builder == input[q..at0]
      modifies this
      ensures Valid()
      ensures ok <==> !(IsExponentMarker(c0) && !IsDigit(At(input, ExponentDigitsStart(input, at0))))
      ensures ok ==> LooksAt(c, at) && at == ExponentEnd(input, at0) && b == input[q..at]
      ensures !ok ==> pos == After(input, ExponentDigitsStart(input, at0))
    {
      b, c, at := builder, c0, at0;
      ok := true;
      if c == LOWER_E || c == UPPER_E {
        ok, b, c, at := ParseExponentDigits(b, c, q, at);
      }
    }

    /** The exponent part from its marker `e` or `E` on: an optional sign, then at least one digit. */
    method ParseExponentDigits(builder: seq<CodeUnit>, c0: CodeUnit, ghost q: nat, ghost at0: nat)
      returns (ok: bool, b: seq<CodeUnit>, c: CodeUnit, ghost at: nat)
      requires LooksAt(c0, at0) && IsExponentMarker(c0) && q <= at0 && builder == input[q..at0]
      modifies this
      ensures Valid()
      ensures ok <==> IsDigit(At(input, ExponentDigitsStart(input, at0)))
      ensures ok ==> LooksAt(c, at) && at == DigitsEnd(input, ExponentDigitsStart(input, at0) + 1) && b == input[q..at]
      ensures !ok ==> pos == After(input, ExponentDigitsStart(input, at0))
    {
      b, c, at := ParseExponentSign(builder, c0, q, at0);
      ok := IsDigit(c);
      if ok {
        b, c, at := ReadDigits(b, c, q, at);
      }
    }

    /** The exponent marker and the sign that may follow it. */
    method ParseExponentSign(builder: seq<CodeUnit>, c0: CodeUnit, ghost q: nat, ghost at0: nat)
      returns (b: seq<CodeUnit>, c: CodeUnit, ghost at: nat)
      requires LooksAt(c0, at0) && IsExponentMarker(c0) && q <= at0 && builder == input[q..at0]
      modifies this
      ensures LooksAt(c, at) && at == ExponentDigitsStart(input, at0) && b == input[q..at]
    {
      b, c, at := Append(builder, c0, q, at0);
      if c == PLUS || c == MINUS {
        b, c, at := Append(b, c, q, at);
      }
    }

    /** `parseExactWord(word)` */
    method ParseExactWord(word: seq<CodeUnit>) returns (m: WordMatch)
      requires Valid()
      modifies this
      ensures Valid()
      ensures m == MatchWord(input, old(pos), word)
      ensures m.Matched? ==> pos == m.next
      ensures m.Mismatch? ==> pos == m.at
    {
      for i := 0 to |word|
        invariant Valid() && pos == old(pos) + i
        invariant MatchWord(input, pos, word[i..]) == MatchWord(input, old(pos), word)
      {
        var c := Read();
        // `read()` returns the int -1 at the end, which equals no `char`
        if !advanced || c != word[i] {
          return Mismatch(pos);
        }
      }
      m := Matched(pos);
    }

    /** `parseNull()`, `parseTrue()` and `parseFalse()`. */
    method ParseKeyword(word: seq<CodeUnit>, t: Token) returns (r: Lex)
      requires Valid()
      modifies this
      ensures Valid()
      ensures r == ScanKeyword(input, old(pos), word, t)
      ensures r.Scanned? ==> pos == r.next
      ensures r.Malformed? ==> pos == r.at
    {
      var m := ParseExactWord(word);
      if m.Matched? {
        r := Scanned(t, m.next);
      } else {
        r := Malformed(m.at);
      }
    }
  }
}
