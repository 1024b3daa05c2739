# Staj: a streaming JSON reader, modelled in Dafny

Staj reads a JSON document as a stream of events, one at a time. It has three layers.

- `TokenReader` is a tokenizer over a pushback character stream. Each `readNext()` call skips whitespace and returns one token: a structural character, a string, a number, `null`, `true`, `false` or the end of the input. It throws `JsonParseException` on malformed input.
- `StreamingJsonParser` is a pull parser driven by a stack of five kinds of state frame (`START_ARRAY`, `START_OBJECT`, `KEY`, `MID_ARRAY`, `MID_OBJECT`). Each `readNext()` call reads one token, or two after `:` or `,`, and returns one `JsonEvent`. It throws `ParseException` when the token does not fit the frame on top of the stack.
- `StreamingJsonReader` puts a bounded event buffer between a producer thread, which runs the parser, and the consumer's `next()`. The buffer is seeded with `START`. Events arrive in order, and `next()` throws `IllegalStateException` once the buffer is empty after `END`.

The model has one module per concern:

- `Chars`: Java `char` as a UTF-16 code unit (`CodeUnit`). It also holds the `Character.isWhitespace` and `Character.isDigit` classes and the hexadecimal digit values `Integer.parseInt(_, 16)` accepts.
- `Lexer`: the tokenizer in two forms.
  - The functions (`NextToken`, `ScanString`, `Unescape`, `UnicodeEscape`, `ScanNumber`, `MatchWord`, …) describe one call as a value.
  - The class `TokenReader` holds the input, a position and a pushback flag. Its methods are the source's `read`/`unread` loops, each proved equal to the function that describes it.
- `LexerProperties`: what the tokenizer promises, proved about those functions:
  - whitespace skipping, the structural tokens, and end of input, which sticks;
  - strings read back against an escaping encoder;
  - `\u` escapes, including the sign quirk of `Integer.parseInt`;
  - number soundness and completeness against the number grammar;
  - the three keywords, with no partial match.
- `Events`: `JsonEvent` and `JsonEventType`, with `toString`. A reader `FromString` is proved to invert `toString`.
- `Parser`: the transition functions of the parser (`Dispatch`, `ValueEvent` for `getValue`, `KeyEvent` for `getKey`, `ParseStep`).
  - It also holds the stack invariants: the frame shape and the depth that matches the opened-minus-closed balance.
  - The class `StreamingJsonParser` keeps those invariants in its `Valid()`.
- `ParserProperties`: the parser driven over token lists.
  - Each call takes one or two tokens, and closing events pop only their own kind of frame.
  - The theorem: for any array or object document, the parser returns the pre-order event trace of its tree followed by `END`, and documents written one after another are read one after another.
- `Reader`: the event buffer without its thread. The producer step and the consumer's `next()` are methods of one class. Where the source would wait, the producer has a precondition instead, and `next()` returns `WouldBlock`.

Where the code and the written description of the system disagree, the model follows the code:

- An unterminated string is not reported as malformed. `parseString` compares `(char) -1` with `"` and keeps reading past the end forever. The model returns `Hang` (`UnterminatedStringHangs`).
- Whitespace is everything `Character.isWhitespace` accepts, not only space, tab, LF and CR.
- Digits in the integer, fraction and exponent parts are everything `Character.isDigit` accepts. Only an ASCII digit or `-` starts a number.

## Model

| member | source | states |
|---|---|---|
| Chars.DecimalZero | src/com/elgoooog/staj/TokenReader.java:141 | a `Character.isDigit` digit lies in a block of ten after its zero; ASCII digits are the `'0'` block, and no other unit below U+0660 or above U+FF19 is a digit |
| Chars.HexDigitValue | src/com/elgoooog/staj/TokenReader.java:119-120 | the digit value `parseInt(_, 16)` gives a unit, -1 for none; `0`-`9`, `a`-`f` and `A`-`F` have their usual values |
| Lexer.SkipWhitespace | src/com/elgoooog/staj/TokenReader.java:24-26 | the whitespace loop stops inside the input, no earlier than it started |
| Lexer.NextToken | src/com/elgoooog/staj/TokenReader.java:21-70 | one `readNext()` call: the token ends, or the exception is thrown, within the input and after the start |
| Lexer.TokenAt | src/com/elgoooog/staj/TokenReader.java:28-69 | the `switch` on the first non-whitespace unit stays within the input |
| Lexer.ScanString | src/com/elgoooog/staj/TokenReader.java:72-86 | the string loop ends within the input when it returns |
| Lexer.Unescape | src/com/elgoooog/staj/TokenReader.java:88-112 | an escape decodes past its letter, or throws within the input |
| Lexer.UnicodeEscape | src/com/elgoooog/staj/TokenReader.java:114-126 | a `\u` escape decodes past its four units, or throws within the input |
| Lexer.FilledBuffer | src/com/elgoooog/staj/TokenReader.java:115-116 | after `read(chars)` of `k` units, the buffer holds them followed by the fresh array's NULs |
| Lexer.HexValue | src/com/elgoooog/staj/TokenReader.java:119-120 | the value of `n` hexadecimal digits is below 16^n |
| Lexer.DigitsEnd | src/com/elgoooog/staj/TokenReader.java:142-145 | a run of `Character.isDigit` units ends within the input, no earlier than it started |
| Lexer.ScanNumber | src/com/elgoooog/staj/TokenReader.java:128-185 | `parseNumber` stays within the input |
| Lexer.DigitsStart | src/com/elgoooog/staj/TokenReader.java:131-136 | the integer digits start one unit later exactly when the number starts with `-` |
| Lexer.IntegerEnd | src/com/elgoooog/staj/TokenReader.java:138-148 | the integer part takes at least one unit and ends within the input |
| Lexer.NumberWithoutDigits | src/com/elgoooog/staj/TokenReader.java:146-148 | with neither `0` nor a digit after the optional `-`, the number throws just past that unit |
| Lexer.NumberAfterInteger | src/com/elgoooog/staj/TokenReader.java:138-150 | with `0` or a digit there, parsing goes on with the fraction at the integer part's end |
| Lexer.FractionEnd | src/com/elgoooog/staj/TokenReader.java:150-161 | the fraction part ends within the input |
| Lexer.ScanFraction | src/com/elgoooog/staj/TokenReader.java:150-161 | the fraction and what follows stay within the input |
| Lexer.ExponentDigitsStart | src/com/elgoooog/staj/TokenReader.java:163-169 | the exponent digits start one unit after the marker, or two after a sign |
| Lexer.ExponentEnd | src/com/elgoooog/staj/TokenReader.java:163-178 | the exponent part ends within the input |
| Lexer.ScanExponent | src/com/elgoooog/staj/TokenReader.java:163-184 | the exponent and the returned token stay within the input |
| Lexer.MatchWord | src/com/elgoooog/staj/TokenReader.java:205-212 | a match ends exactly one word length on; a mismatch throws within the input |
| Lexer.ScanKeyword | src/com/elgoooog/staj/TokenReader.java:58-66 | `null`, `true` and `false` stay within the input |
| Lexer.TokenReader.constructor | src/com/elgoooog/staj/TokenReader.java:13-15 | a reader at the start of its input, with nothing to push back |
| Lexer.TokenReader.Read | src/com/elgoooog/staj/TokenReader.java:25 | `(char) read()` returns the next unit and advances, or returns `(char) -1` at the end and stays |
| Lexer.TokenReader.Unread | src/com/elgoooog/staj/TokenReader.java:56 | `unread` steps back over the last unit read, and does nothing after a read at the end |
| Lexer.TokenReader.ReadNext | src/com/elgoooog/staj/TokenReader.java:21-70 | the method's result is `NextToken` at the old position, and it leaves the stream where that outcome says |
| Lexer.TokenReader.ReadToken | src/com/elgoooog/staj/TokenReader.java:28-69 | the `switch`, with pushback for numbers and keywords, is `TokenAt` |
| Lexer.TokenReader.ParseString | src/com/elgoooog/staj/TokenReader.java:72-86 | the `StringBuilder` loop is `ScanString`, and the stream is left where it says |
| Lexer.TokenReader.ParseEscapedCharacter | src/com/elgoooog/staj/TokenReader.java:88-112 | the escape `switch` is `Unescape` |
| Lexer.TokenReader.ReadInto | src/com/elgoooog/staj/TokenReader.java:115-116 | `read(chars)` copies `min(4, remaining)` units into the front of the array, leaves the rest alone, and advances by that many |
| Lexer.TokenReader.ParseUnicodeCharacter | src/com/elgoooog/staj/TokenReader.java:114-126 | the method is `UnicodeEscape` |
| Lexer.TokenReader.ReadDigits | src/com/elgoooog/staj/TokenReader.java:142-145 | the `do`-`while` digit loop ends at `DigitsEnd`, with the builder holding the units read since the number began |
| Lexer.TokenReader.ParseNumber | src/com/elgoooog/staj/TokenReader.java:128-185 | `parseNumber` is `ScanNumber`, and it leaves the stream at the one unit that ended the number |
| Lexer.TokenReader.ParseNumberTail | src/com/elgoooog/staj/TokenReader.java:150-184 | the fraction, the exponent and the final pushback are `ScanFraction` |
| Lexer.TokenReader.Append | src/com/elgoooog/staj/TokenReader.java:134-135 | append then read: the builder grows by the current unit, and the next one is looked at |
| Lexer.TokenReader.ParseIntegerPart | src/com/elgoooog/staj/TokenReader.java:138-148 | succeeds exactly on `0` or a digit, and ends at `IntegerEnd`; otherwise it throws just past that unit |
| Lexer.TokenReader.ParseFractionPart | src/com/elgoooog/staj/TokenReader.java:150-161 | fails exactly on a `.` not followed by a digit, and otherwise ends at `FractionEnd` |
| Lexer.TokenReader.ParseExponentPart | src/com/elgoooog/staj/TokenReader.java:163-178 | fails exactly on a marker with no digit after the optional sign, and otherwise ends at `ExponentEnd` |
| Lexer.TokenReader.ParseExponentDigits | src/com/elgoooog/staj/TokenReader.java:164-177 | after a marker, succeeds exactly when a digit follows the optional sign |
| Lexer.TokenReader.ParseExponentSign | src/com/elgoooog/staj/TokenReader.java:164-169 | the marker and an optional sign are appended, ending at `ExponentDigitsStart` |
| Lexer.TokenReader.ParseExactWord | src/com/elgoooog/staj/TokenReader.java:205-212 | the indexed loop is `MatchWord` |
| Lexer.TokenReader.ParseKeyword | src/com/elgoooog/staj/TokenReader.java:187-203 | `parseNull`/`parseTrue`/`parseFalse` is `ScanKeyword` |
| LexerProperties.SkipWhitespaceIsFirstNonWhitespace | src/com/elgoooog/staj/TokenReader.java:24-26 | the skip ends at `q` if and only if everything before `q` is whitespace and `q` is not |
| LexerProperties.WhitespaceIsSkipped | src/com/elgoooog/staj/TokenReader.java:24-26 | whitespace in front of a token does not change the token or where it ends |
| LexerProperties.StructuralToken | src/com/elgoooog/staj/TokenReader.java:31-42 | after whitespace, each of `{ } [ ] : ,` is its own token, one unit long |
| LexerProperties.EndOfInputSticks | src/com/elgoooog/staj/TokenReader.java:29-30 | trailing whitespace gives `END` at the end, and a call at the end gives `END` again |
| LexerProperties.IllegalStartIsRejected | src/com/elgoooog/staj/TokenReader.java:67-68 | a unit that is not whitespace and cannot start a token throws just past it |
| LexerProperties.HexChar | src/com/elgoooog/staj/TokenReader.java:119-120 | the digit written for `d` has hexadecimal value `d` |
| LexerProperties.ShortIndex | src/com/elgoooog/staj/TokenReader.java:96-105 | the position of a control character among `\b \t \n \f \r`, or 5 when absent |
| LexerProperties.ControlEscape | src/com/elgoooog/staj/TokenReader.java:96-107 | a control character is written as one letter or as `u00XX` |
| LexerProperties.EscapeUnit | src/com/elgoooog/staj/TokenReader.java:78-79 | a unit written as itself is never `"` or `\`; otherwise its spelling starts with `\` |
| LexerProperties.HexValueOfFour | src/com/elgoooog/staj/TokenReader.java:119-120 | four hexadecimal digits have the value of their positional sum |
| LexerProperties.ParseHex16OfDigits | src/com/elgoooog/staj/TokenReader.java:119-120 | four unsigned hexadecimal digits parse to their value |
| LexerProperties.UnescapeHexControl | src/com/elgoooog/staj/TokenReader.java:106-107 | `\u00XX` decodes to U+00XX |
| LexerProperties.UnescapeEscapeUnit | src/com/elgoooog/staj/TokenReader.java:88-107 | every escape the encoder writes decodes to the unit it came from, just past its spelling |
| LexerProperties.ScanEscapedUnit | src/com/elgoooog/staj/TokenReader.java:77-83 | reading one encoded unit appends that unit and moves past its spelling |
| LexerProperties.ScanEscaped | src/com/elgoooog/staj/TokenReader.java:77-85 | an encoded text followed by `"` is read back as that text, and an escaped quote does not end it |
| LexerProperties.EscapedStep | src/com/elgoooog/staj/TokenReader.java:77-83 | the inductive step of the string loop over one encoded unit |
| LexerProperties.EscapedHead | src/com/elgoooog/staj/TokenReader.java:77-83 | an encoded text splits into the first unit's spelling and the rest's |
| LexerProperties.StringRoundTrip | src/com/elgoooog/staj/TokenReader.java:43-44 | `"`, any encoded text and `"` form one string token carrying exactly that text, ending just past the closing quote |
| LexerProperties.UnterminatedStringHangs | src/com/elgoooog/staj/TokenReader.java:77-83 | with no quote and no backslash left, the string loop never ends |
| LexerProperties.OneLetterEscape | src/com/elgoooog/staj/TokenReader.java:91-105 | each of `\"`, `\\`, `\/`, `\b`, `\f`, `\r`, `\t` and `\n` decodes to its unit (`\/` to `/`, `\b` to U+0008, and so on), just past the letter |
| LexerProperties.BadEscapeLetter | src/com/elgoooog/staj/TokenReader.java:108-110 | a letter outside the escape set throws just past it |
| LexerProperties.UnicodeEscapeOfHexDigits | src/com/elgoooog/staj/TokenReader.java:106-120 | `\u` and four unsigned hexadecimal digits decode to their value |
| LexerProperties.UnicodeEscapeOfNonHex | src/com/elgoooog/staj/TokenReader.java:119-124 | without a sign, a non-digit among the four units throws |
| LexerProperties.ShortUnicodeEscape | src/com/elgoooog/staj/TokenReader.java:115-124 | fewer than four units left: the NUL padding makes the escape throw at the end of the input |
| LexerProperties.EndsInNul | src/com/elgoooog/staj/TokenReader.java:115-116 | a short read, with or without its sign, is not all hexadecimal digits |
| LexerProperties.HexValueOfThree | src/com/elgoooog/staj/TokenReader.java:119-120 | three hexadecimal digits have the value of their positional sum |
| LexerProperties.HexValueStep | src/com/elgoooog/staj/TokenReader.java:119-120 | one more digit: sixteen times the value so far plus the digit |
| LexerProperties.SignedUnicodeEscapes | src/com/elgoooog/staj/TokenReader.java:119-120 | `parseInt` accepts a sign: `\u+041` is `A`, `\u-000` is U+0000, `\u-001` throws |
| LexerProperties.MatchWordIsExact | src/com/elgoooog/staj/TokenReader.java:205-212 | the word matches if and only if the input spells it |
| LexerProperties.KeywordToken | src/com/elgoooog/staj/TokenReader.java:58-66 | after whitespace, `n`/`t`/`f` give their keyword's token when the whole word is spelled, and throw otherwise |
| LexerProperties.KeywordAt | src/com/elgoooog/staj/TokenReader.java:58-66 | a keyword's first letter hands the rest to the word match |
| LexerProperties.DigitsEndIsFirstNonDigit | src/com/elgoooog/staj/TokenReader.java:142-145 | the digit loop ends at `j` if and only if everything before `j` is a digit and `j` is not |
| LexerProperties.DigitsEndRun | src/com/elgoooog/staj/TokenReader.java:142-145 | the units the digit loop passes are digits, and the one it stops at is not |
| LexerProperties.DigitRunFrom | src/com/elgoooog/staj/TokenReader.java:142-145 | a digit starts a non-empty run of digits |
| LexerProperties.IntegerPartAt | src/com/elgoooog/staj/TokenReader.java:133-148 | an integer part is `0` or a run of digits not starting with `0`, after the optional `-` |
| LexerProperties.IntegerSound | src/com/elgoooog/staj/TokenReader.java:133-148 | an accepted number starts with an integer part, after which the fraction is read |
| LexerProperties.IntegerRun | src/com/elgoooog/staj/TokenReader.java:138-148 | the integer loop reads an integer part, up to `IntegerEnd` |
| LexerProperties.FractionSound | src/com/elgoooog/staj/TokenReader.java:150-161 | an accepted fraction is empty or `.` and digits |
| LexerProperties.ExponentSound | src/com/elgoooog/staj/TokenReader.java:163-184 | an accepted exponent is empty or a marker, an optional sign and digits, and the token is all units read |
| LexerProperties.NumberIsSound | src/com/elgoooog/staj/TokenReader.java:128-185 | a number token carries exactly the units consumed, and they follow the number grammar: optional `-`, `0` or digits not starting with `0`, an optional `.` and digits, an optional marker, sign and digits |
| LexerProperties.IntegerComplete | src/com/elgoooog/staj/TokenReader.java:138-150 | an integer part that no digit extends is read whole |
| LexerProperties.IntegerDigitsAt | src/com/elgoooog/staj/TokenReader.java:133-148 | such an integer part's digits start after the optional `-` and end where the integer loop ends |
| LexerProperties.FractionComplete | src/com/elgoooog/staj/TokenReader.java:150-161 | a fraction part that nothing extends is read whole |
| LexerProperties.ExponentComplete | src/com/elgoooog/staj/TokenReader.java:163-184 | an exponent part that nothing extends is read whole, and the token is all units from the start |
| LexerProperties.PartsOfLexeme | src/com/elgoooog/staj/TokenReader.java:128-185 | a number lexeme found in the input splits into its three parts there |
| LexerProperties.NumberIsComplete | src/com/elgoooog/staj/TokenReader.java:128-185 | a grammar lexeme that nothing can extend is one number token, leaving the stream just past it |
| LexerProperties.FractionOnwardComplete | src/com/elgoooog/staj/TokenReader.java:150-184 | a fraction and an exponent that nothing extends are read to their end |
| LexerProperties.PartsEnd | src/com/elgoooog/staj/TokenReader.java:138-178 | each part of an unextendable lexeme ends where the next part cannot continue it |
| LexerProperties.NumberToken | src/com/elgoooog/staj/TokenReader.java:45-57 | after whitespace, an unextendable lexeme starting with a digit or `-` is the next token, and the next call starts just past it |
| LexerProperties.MinusWithoutDigit | src/com/elgoooog/staj/TokenReader.java:133-147 | `-` with no digit after it throws |
| LexerProperties.FractionWithoutDigit | src/com/elgoooog/staj/TokenReader.java:150-160 | an integer part and `.` with no digit after it throw |
| LexerProperties.ExponentWithoutDigit | src/com/elgoooog/staj/TokenReader.java:163-177 | a marker, an optional sign and no digit throw |
| LexerProperties.ZeroThenDigit | src/com/elgoooog/staj/TokenReader.java:138-140 | a number whose integer part is `0` or `-0` and is followed by a digit is read as it stands, and the digit starts the next token |
| LexerProperties.LeadingZeroEndsTheNumber | src/com/elgoooog/staj/TokenReader.java:138-140 | `01` is the number `0`, then the number `1` |
| LexerProperties.SecondDotIsRejected | src/com/elgoooog/staj/TokenReader.java:150-161 | `3.3.4` is the number `3.3`, and the next call throws on the second `.` |
| Events.ToString | src/com/elgoooog/staj/StreamingJsonReader.java:104-107 | the text is the bare value exactly when the type name equals the value; otherwise it is the type name, `:` and the value |
| Events.FirstColon | src/com/elgoooog/staj/StreamingJsonReader.java:106 | the first `:` from `k` on, or the end |
| Events.FirstColonIsFirst | src/com/elgoooog/staj/StreamingJsonReader.java:106 | `FirstColon` is `c` if and only if there is no colon before `c` and `c` is a colon or the end |
| Events.NameHasNoColon | src/com/elgoooog/staj/StreamingJsonReader.java:123-140 | no type name contains `:` |
| Events.BareRoundTrip | src/com/elgoooog/staj/StreamingJsonReader.java:77-94 | an event printed bare is read back as itself |
| Events.PayloadSplits | src/com/elgoooog/staj/StreamingJsonReader.java:106 | `type:value` splits at its first colon into the type and the value |
| Events.PayloadRoundTrip | src/com/elgoooog/staj/StreamingJsonReader.java:106-119 | a `string`, `number` or `key` event printed as `type:value` is read back as itself |
| Events.ToStringRoundTrip | src/com/elgoooog/staj/StreamingJsonReader.java:104-107 | every event's text form is read back as that event |
| Events.ToStringInjective | src/com/elgoooog/staj/StreamingJsonReader.java:104-107 | two events with the same text form are equal |
| Parser.PushKeepsShape | src/com/elgoooog/staj/StreamingJsonParser.java:111-116 | a push onto an empty or `MID`-topped stack keeps the frame shape |
| Parser.PopKeepsShape | src/com/elgoooog/staj/StreamingJsonParser.java:69-85 | a pop keeps the shape and leaves an empty or `MID`-topped stack |
| Parser.PushEmits | src/com/elgoooog/staj/StreamingJsonParser.java:110-141 | a push with an event of the matching delta keeps shape and depth balance |
| Parser.StayKeepsShape | src/com/elgoooog/staj/StreamingJsonParser.java:117-126 | scalar events and exceptions keep the stack and the depth |
| Parser.ValueEventKeepsShape | src/com/elgoooog/staj/StreamingJsonParser.java:110-131 | `getValue` keeps the shape and moves the depth by its event's delta |
| Parser.KeyEventKeepsShape | src/com/elgoooog/staj/StreamingJsonParser.java:133-141 | `getKey` keeps the shape and the depth |
| Parser.DispatchNextShape | src/com/elgoooog/staj/StreamingJsonParser.java:50-89 | after `:` or `,` the stack is empty or `MID`-topped (`MID_OBJECT` for a key), with the depth unchanged |
| Parser.DispatchReplyShape | src/com/elgoooog/staj/StreamingJsonParser.java:33-107 | an event or exception on the first token keeps the shape, and the depth moves by the event's delta |
| Parser.RootReplyShape | src/com/elgoooog/staj/StreamingJsonParser.java:93-106 | on an empty stack the first token decides the call and keeps the shape |
| Parser.ArrayFrameReplyShape | src/com/elgoooog/staj/StreamingJsonParser.java:36-42 | with `START_ARRAY` on top the first token decides the call and keeps the shape |
| Parser.ObjectFrameReplyShape | src/com/elgoooog/staj/StreamingJsonParser.java:43-49 | with `START_OBJECT` on top the first token decides the call and keeps the shape |
| Parser.PopEmits | src/com/elgoooog/staj/StreamingJsonParser.java:69-85 | a pop with a closing event keeps shape and depth balance |
| Parser.SwapTop | src/com/elgoooog/staj/StreamingJsonParser.java:36-49 | replacing a `START` frame by a `MID` frame keeps the shape and the depth |
| Parser.Rebase | src/com/elgoooog/staj/StreamingJsonParser.java:37-48 | shape preservation carries over between stacks of equal depth |
| Parser.ParseStepKeepsShape | src/com/elgoooog/staj/StreamingJsonParser.java:25-108 | every call that returns or throws leaves frames below the top `MID`, `KEY` only on `MID_OBJECT`, and the depth moved by the event's delta |
| Parser.SecondTokenShape | src/com/elgoooog/staj/StreamingJsonParser.java:50-82 | the token after `:` or `,` keeps the shape |
| Parser.StreamingJsonParser.constructor | src/com/elgoooog/staj/StreamingJsonParser.java:20-23 | an empty stack on the given token reader |
| Parser.StreamingJsonParser.GetValue | src/com/elgoooog/staj/StreamingJsonParser.java:110-131 | the method is `ValueEvent`, and the new stack is the outcome's |
| Parser.StreamingJsonParser.GetKey | src/com/elgoooog/staj/StreamingJsonParser.java:133-141 | the method is `KeyEvent`, and the new stack is the outcome's |
| Parser.StreamingJsonParser.ReadSecond | src/com/elgoooog/staj/StreamingJsonParser.java:50-82 | reading the second token is `SecondToken` |
| Parser.StreamingJsonParser.ReadNext | src/com/elgoooog/staj/StreamingJsonParser.java:25-108 | the method is `ParseStep`; it keeps the stack invariants and the balance of the events returned so far against the depth |
| Parser.StreamingJsonParser.Respond | src/com/elgoooog/staj/StreamingJsonParser.java:33-107 | the body after the first token is `Reaction` |
| ParserProperties.SecondTokenNeverCloses | src/com/elgoooog/staj/StreamingJsonParser.java:110-141 | `getValue` and `getKey` never return `END_ARRAY` or `END_OBJECT` |
| ParserProperties.ReactionCloses | src/com/elgoooog/staj/StreamingJsonParser.java:36-89 | after the first token, a closing event pops a frame of its own kind |
| ParserProperties.EndArrayPopsArray | src/com/elgoooog/staj/StreamingJsonParser.java:36-75 | `END_ARRAY` is returned only by popping `START_ARRAY` or `MID_ARRAY` |
| ParserProperties.EndObjectPopsObject | src/com/elgoooog/staj/StreamingJsonParser.java:43-89 | `END_OBJECT` is returned only by popping `START_OBJECT` or `MID_OBJECT` |
| ParserProperties.EmptyStackAcceptsOnlyOpenersAndEnd | src/com/elgoooog/staj/StreamingJsonParser.java:93-106 | with an empty stack, a call returns an event if and only if the token is `{`, `[` or the end, and any other token throws |
| ParserProperties.TokenStep | src/com/elgoooog/staj/StreamingJsonParser.java:25-108 | a call that returns an event takes one token or two |
| ParserProperties.ParseStepFollowsTokens | src/com/elgoooog/staj/StreamingJsonParser.java:25-108 | on scanned input, a call returns, throws, and leaves the stack as the token-level step does, and a call that returns leaves the input where the tokens the step did not use are scanned from |
| ParserProperties.Tokens | src/com/elgoooog/staj/StreamingJsonParser.java:110-131 | a value's tokens start with a token `getValue` accepts |
| ParserProperties.Trace | src/com/elgoooog/staj/StreamingJsonParser.java:110-131 | a value's events are non-empty and never include `END` |
| ParserProperties.DriveStep | src/com/elgoooog/staj/StreamingJsonParser.java:25-108 | an event other than `END` comes before the events of the calls after it |
| ParserProperties.FirstItemStep | src/com/elgoooog/staj/StreamingJsonParser.java:36-42 | the first item after `[` returns its first event and leaves `MID_ARRAY` under it |
| ParserProperties.ItemAfterCommaStep | src/com/elgoooog/staj/StreamingJsonParser.java:62-68 | `,` and an item return the item's first event |
| ParserProperties.ColonValueStep | src/com/elgoooog/staj/StreamingJsonParser.java:50-57 | `:` and a value pop `KEY` and return the value's first event |
| ParserProperties.FirstKeyStep | src/com/elgoooog/staj/StreamingJsonParser.java:43-49 | the first key after `{` returns `KEY` and pushes `KEY` on `MID_OBJECT` |
| ParserProperties.KeyAfterCommaStep | src/com/elgoooog/staj/StreamingJsonParser.java:76-82 | `,` and a key return `KEY` and push `KEY` |
| ParserProperties.CloseArrayRun | src/com/elgoooog/staj/StreamingJsonParser.java:36-75 | `]` on an array frame returns `END_ARRAY` and the run goes on below it |
| ParserProperties.CloseObjectRun | src/com/elgoooog/staj/StreamingJsonParser.java:43-89 | `}` on an object frame returns `END_OBJECT` and the run goes on below it |
| ParserProperties.StepThenValue | src/com/elgoooog/staj/StreamingJsonParser.java:25-131 | a call that returns a value's first event, with the calls after it, returns the whole value's events |
| ParserProperties.ValueThenRest | src/com/elgoooog/staj/StreamingJsonParser.java:110-131 | a value's first event followed by the rest of its run is its whole trace |
| ParserProperties.TailRun | src/com/elgoooog/staj/StreamingJsonParser.java:25-131 | after a value's first event the parser returns the rest of its events and is back on the stack it started from |
| ParserProperties.ScalarTail | src/com/elgoooog/staj/StreamingJsonParser.java:117-126 | a scalar has nothing after its first token and event |
| ParserProperties.ArrayTail | src/com/elgoooog/staj/StreamingJsonParser.java:36-75 | an array after its `[` returns the rest of its events |
| ParserProperties.ObjectTail | src/com/elgoooog/staj/StreamingJsonParser.java:43-89 | an object after its `{` returns the rest of its events |
| ParserProperties.ArrayBody | src/com/elgoooog/staj/StreamingJsonParser.java:36-42 | the items after `[` and the `]` return the items' events and `END_ARRAY` |
| ParserProperties.ArrayRest | src/com/elgoooog/staj/StreamingJsonParser.java:62-75 | the items after the first, each after `,`, return their events and `END_ARRAY` |
| ParserProperties.MemberRun | src/com/elgoooog/staj/StreamingJsonParser.java:50-57 | `:` and a member's value return the value's events and leave `MID_OBJECT` on top |
| ParserProperties.ObjectBody | src/com/elgoooog/staj/StreamingJsonParser.java:43-49 | the members after `{` and the `}` return the members' events and `END_OBJECT` |
| ParserProperties.ObjectRest | src/com/elgoooog/staj/StreamingJsonParser.java:76-89 | the members after the first, each after `,`, return their events and `END_OBJECT` |
| ParserProperties.RootRun | src/com/elgoooog/staj/StreamingJsonParser.java:93-100 | an array or object at the top level returns its pre-order trace and leaves the stack empty |
| ParserProperties.DocumentRun | src/com/elgoooog/staj/StreamingJsonParser.java:93-102 | a whole document returns its tree's events, then `END`, with the stack empty |
| ParserProperties.ConcatenatedDocuments | src/com/elgoooog/staj/StreamingJsonParser.java:93-102 | two documents written one after the other are both read, and then `END` is returned |
| ParserProperties.ScalarRootRejected | src/com/elgoooog/staj/StreamingJsonParser.java:103-106 | a scalar at the top level throws at its first token, returning nothing |
| Reader.Capacity | src/com/elgoooog/staj/StreamingJsonReader.java:15 | the capacity is `eventsToBuffer` when above 1, and 1 otherwise |
| Reader.Take | src/com/elgoooog/staj/StreamingJsonReader.java:24-33 | `next()` returns the head if and only if the buffer is non-empty, leaving the rest in order; it throws if and only if the buffer is empty and `done` is set; otherwise it waits |
| Reader.StreamingJsonReader.constructor | src/com/elgoooog/staj/StreamingJsonReader.java:11-19 | the buffer is `[START]`, `done` is false, and the capacity is `Capacity(eventsToBuffer)` |
| Reader.StreamingJsonReader.Produce | src/com/elgoooog/staj/StreamingJsonReader.java:46-55 | with room in the buffer, the parser's event is appended, and `done` is set exactly when it is `END`; the buffer never exceeds its capacity |
| Reader.StreamingJsonReader.Fill | src/com/elgoooog/staj/StreamingJsonReader.java:43-62 | the producer loop runs until the buffer is full or `END` is appended, and stops when the parser throws |
| Reader.StreamingJsonReader.Next | src/com/elgoooog/staj/StreamingJsonReader.java:21-36 | `next()` is `Take`, and a delivered event joins what the consumer has received |
| Reader.EndOnlyLast | src/com/elgoooog/staj/StreamingJsonReader.java:49-53 | appending to events without `END` puts `END` in them exactly when it is the one appended |
| Reader.StartComesFirst | src/com/elgoooog/staj/StreamingJsonReader.java:13-27 | the first event any consumer receives is `START` |
| Reader.DeliveredInOrder | src/com/elgoooog/staj/StreamingJsonReader.java:21-62 | what is delivered is a prefix of `START` and the parser's events in order, and nothing follows `END` |

## Left out

- Threads and the monitor of `StreamingJsonReader` are not modelled: starting `ReaderThread`, `synchronized`, `wait`/`notifyAll` and `doWait`. The producer step and `next()` are methods of one object. Where the source would wait, the producer has a precondition, and `next()` returns `WouldBlock`.
- A parser exception that escapes the producer thread is not modelled. In the source the consumer then waits forever. `Fill` only returns the failing step and leaves `done` false.
- Stream plumbing is not modelled: the `Reader`/`InputStream` constructors, `PushbackReader`, `close()`, and wrapping `IOException` in `RuntimeException`. The input is a sequence of code units that is fully known. `Lexer.TokenReader.ReadInto` models `read(chars)` as filling `min(4, remaining)` units; a short read of `Reader.read(char[])` on a slow stream, which the padding NULs would turn into an error, is not modelled.
- `StreamingJsonReaderFactory` is not part of this model. It only forwards to the constructor.
- Lexer.TokenReader.ParseString: the endless read loop on an unterminated string is modelled as the outcome `Hang`, found when a read at the end does not advance. The method returns where the source never would.
- The parser's branch for an unknown state tag (`I'm kinda lost here`) is not modelled: the frame datatype has only the five tags, so that branch cannot be reached.
- The parser calls the event factories `s`, `n` and `k`, while the event class declares them as `string`, `number` and `key`. The model treats them as the same constructors.
- Chars.IsWhitespace and Chars.IsDigit follow one fixed table of the Basic Multilingual Plane. `Character.isWhitespace` and `Character.isDigit` change with the Unicode version of the JDK.
- A literal U+FFFF in the input reads as the end of the input, as `(char) read()` makes it.
- The `c != -1` tests compare a `char` with -1 and always hold. So `parseNumber` pushes back `(char) -1` at the end of the input. The model's `Unread` does nothing after a read at the end, which reads the same afterwards.
- ParserProperties.Drive: documents are driven over token lists. `ParseStepFollowsTokens` ties each single call to the characters those tokens are scanned from, including the position the call leaves the input at. The whole-document theorem, chaining those calls, is not restated on characters.
- LexerProperties.NumberIsComplete: completeness is stated only for a lexeme followed by something that cannot continue a number (`Terminated`). That excludes a following digit, `.`, `e` or `E`. A following digit is covered by `ZeroThenDigit`, for the integer parts `0` and `-0`; for other lexemes it extends the number, which is not stated as a lemma. A following `.` or exponent marker with no digit after it is covered by `FractionWithoutDigit` and `ExponentWithoutDigit` when the lexeme has no fraction or exponent yet. A lexeme that already has a fraction or exponent and is followed by `.`, `e` or `E` is covered only by the example `SecondDotIsRejected`.
- Lexer.NextToken and the other `Scan` functions: their own `ensures` only bound positions. What they compute is stated by the lemmas in `LexerProperties`.
