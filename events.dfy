/**
 * The events the parser hands to the reader (`JsonEvent`), their types
 * (`JsonEventType`) and the text form `toString` gives them.
 *
 * An event is a type and a value. The nine events without a payload are
 * shared constants whose value is the type's own name; `string`, `number`
 * and `key` events carry the token text as their value. (The parser calls
 * the three factories `s`, `n` and `k`; they are the `string`, `number` and
 * `key` factories of the event class.)
 */
module Events {
  import opened Chars
  import opened Wrappers

  datatype Event =
    | Start | End
    | StartObject | StartArray | EndObject | EndArray
    | Null | True | False
    | String(text: seq<CodeUnit>)
    | Number(text: seq<CodeUnit>)
    | Key(text: seq<CodeUnit>)

  /** The names of the event types, in ASCII. */
  const START_NAME: seq<CodeUnit> := [0x73, 0x74, 0x61, 0x72, 0x74] // start
  const END_NAME: seq<CodeUnit> := [0x65, 0x6E, 0x64] // end
  const START_OBJECT_NAME: seq<CodeUnit> := [0x73, 0x74, 0x61, 0x72, 0x74, 0x4F, 0x62, 0x6A] // startObj
  const START_ARRAY_NAME: seq<CodeUnit> := [0x73, 0x74, 0x61, 0x72, 0x74, 0x41, 0x72, 0x72] // startArr
  const END_OBJECT_NAME: seq<CodeUnit> := [0x65, 0x6E, 0x64, 0x4F, 0x62, 0x6A] // endObj
  const END_ARRAY_NAME: seq<CodeUnit> := [0x65, 0x6E, 0x64, 0x41, 0x72, 0x72] // endArr
  const NULL_NAME: seq<CodeUnit> := [0x6E, 0x75, 0x6C, 0x6C] // null
  const TRUE_NAME: seq<CodeUnit> := [0x74, 0x72, 0x75, 0x65] // true
  const FALSE_NAME: seq<CodeUnit> := [0x66, 0x61, 0x6C, 0x73, 0x65] // false
  const STRING_NAME: seq<CodeUnit> := [0x73, 0x74, 0x72, 0x69, 0x6E, 0x67] // string
  const NUMBER_NAME: seq<CodeUnit> := [0x6E, 0x75, 0x6D, 0x62, 0x65, 0x72] // number
  const KEY_NAME: seq<CodeUnit> := [0x6B, 0x65, 0x79] // key

  /** The name of the event's type: `JsonEventType.toString()`. */
  function TypeName(e: Event): seq<CodeUnit> {
    match e
    case Start => START_NAME
    case End => END_NAME
    case StartObject => START_OBJECT_NAME
    case StartArray => START_ARRAY_NAME
    case EndObject => END_OBJECT_NAME
    case EndArray => END_ARRAY_NAME
    case Null => NULL_NAME
    case True => TRUE_NAME
    case False => FALSE_NAME
    case String(_) => STRING_NAME
    case Number(_) => NUMBER_NAME
    case Key(_) => KEY_NAME
  }

  /** The event's value: the type name for the constants, the text otherwise. */
  function Value(e: Event): seq<CodeUnit> {
    if e.String? || e.Number? || e.Key? then e.text else TypeName(e)
  }

  /**
   * `JsonEvent.toString()`: the bare value when it equals the type's name
   * (every constant, and also a payload that spells its own type, such as
   * the string `string`), otherwise the type's name, a colon and the value.
   */
  function ToString(e: Event): (r: seq<CodeUnit>)
    ensures r == Value(e) || r == TypeName(e) + [COLON] + Value(e)
    ensures r == Value(e) <==> TypeName(e) == Value(e)
  {
    if TypeName(e) == Value(e) then Value(e) else TypeName(e) + [COLON] + Value(e)
  }

  /** The position of the first colon in `s` at or after `k`, or `|s|`. */
  function FirstColon(s: seq<CodeUnit>, k: nat): (c: nat)
    requires k <= |s|
    ensures k <= c <= |s| && (c < |s| ==> s[c] == COLON)
    ensures forall i | k <= i < c :: s[i] != COLON
    decreases |s| - k
  {
    if k == |s| || s[k] == COLON then k else FirstColon(s, k + 1)
  }

  /** The event a type name stands for when it is printed bare, if any. */
  function FromName(name: seq<CodeUnit>): Option<Event> {
    if name == START_NAME then Some(Start)
    else if name == END_NAME then Some(End)
    else if name == START_OBJECT_NAME then Some(StartObject)
    else if name == START_ARRAY_NAME then Some(StartArray)
    else if name == END_OBJECT_NAME then Some(EndObject)
    else if name == END_ARRAY_NAME then Some(EndArray)
    else if name == NULL_NAME then Some(Null)
    else if name == TRUE_NAME then Some(True)
    else if name == FALSE_NAME then Some(False)
    else if name == STRING_NAME then Some(String(name))
    else if name == NUMBER_NAME then Some(Number(name))
    else if name == KEY_NAME then Some(Key(name))
    else None
  }

  /** Reads the text form back: a bare name, or a payload type, a colon and the value. */
  function FromString(s: seq<CodeUnit>): Option<Event> {
    var c := FirstColon(s, 0);
    if c == |s| then FromName(s)
    else
      var name, value := s[..c], s[c + 1..];
      if name == STRING_NAME then Some(String(value))
      else if name == NUMBER_NAME then Some(Number(value))
      else if name == KEY_NAME then Some(Key(value))
      else None
  }

  /** `FirstColon` stops at the first colon, or at the end when there is none. */
  lemma {:induction false} FirstColonIsFirst(s: seq<CodeUnit>, k: nat, c: nat)
    requires k <= c <= |s|
    ensures FirstColon(s, k) == c <==>
            (forall i | k <= i < c :: s[i] != COLON) && (c == |s| || s[c] == COLON)
    decreases c - k
  {
    if k < c && s[k] != COLON {
      FirstColonIsFirst(s, k + 1, c);
    }
  }

  /** The events whose text form is a bare name. */
  predicate PrintsBare(e: Event) {
    TypeName(e) == Value(e)
  }

  /** A bare name is read back as the event that printed it. */
  lemma BareRoundTrip(e: Event)
    requires PrintsBare(e)
    ensures FromString(ToString(e)) == Some(e)
  {
    var n := TypeName(e);
    NameHasNoColon(e);
    assert ToString(e) == n;
    match e
    case String(_) =>
    case Number(_) =>
    case Key(_) =>
    case _ => assert FromName(n) == Some(e);
  }

  /** No type name holds a colon, so a bare name is read whole. */
  lemma NameHasNoColon(e: Event)
    ensures FirstColon(TypeName(e), 0) == |TypeName(e)|
  {
    var n := TypeName(e);
    assert COLON !in n;
    FirstColonIsFirst(n, 0, |n|);
  }

  /** A type name, a colon and a value are read back as that payload event. */
  lemma PayloadRoundTrip(e: Event)
    requires !PrintsBare(e)
    ensures FromString(ToString(e)) == Some(e)
  {
    match e
    case String(x) => PayloadSplits(STRING_NAME, x);
    case Number(x) => PayloadSplits(NUMBER_NAME, x);
    case Key(x) => PayloadSplits(KEY_NAME, x);
    case _ => assert false;
  }

  /** The text form of a payload splits at its first colon into the type's name and the value. */
  lemma PayloadSplits(name: seq<CodeUnit>, value: seq<CodeUnit>)
    requires COLON !in name
    ensures FirstColon(name + [COLON] + value, 0) == |name|
    ensures (name + [COLON] + value)[..|name|] == name
    ensures (name + [COLON] + value)[|name| + 1..] == value
  {
    var s := name + [COLON] + value;
    FirstColonIsFirst(s, 0, |name|);
    assert s[..|name|] == name && s[|name| + 1..] == value;
  }

  /** The text form loses nothing: it reads back as the event it came from. */
  lemma ToStringRoundTrip(e: Event)
    ensures FromString(ToString(e)) == Some(e)
  {
    if PrintsBare(e) {
      BareRoundTrip(e);
    } else {
      PayloadRoundTrip(e);
    }
  }

  /** So two different events never print the same. */
  lemma ToStringInjective(e1: Event, e2: Event)
    requires ToString(e1) == ToString(e2)
    ensures e1 == e2
  {
    ToStringRoundTrip(e1);
    ToStringRoundTrip(e2);
  }
}
