/**
 * What the pull parser does over whole documents: each call returns exactly
 * one event; `END_ARRAY`/`END_OBJECT` only ever pop a frame of their own kind;
 * with an empty stack only `{`, `[` and the end of the input are accepted; and
 * the token stream of any array or object document is turned into the
 * pre-order trace of its tree, followed by `END`.
 *
 * The parser is driven here over a list of tokens (`TokenStep`, `Drive`),
 * which `ParseStepFollowsTokens` ties to `ParseStep` on the characters those
 * tokens are scanned from.
 */
module ParserProperties {
  import opened Chars
  import opened Lexer
  import opened Events
  import opened Parser

  // ------------------------------------------------------------ single calls

  /** `getValue` and `getKey` never return `END_ARRAY` or `END_OBJECT`. */
  lemma SecondTokenNeverCloses(stack: seq<Frame>, s: seq<CodeUnit>, p: nat, value: bool)
    requires p <= |s|
    ensures var r := SecondToken(stack, s, p, value); r.Parsed? ==> r.event != EndArray && r.event != EndObject
  {
    match NextToken(s, p)
    case Scanned(u, next) =>
      var o := if value then ValueEvent(stack, u) else KeyEvent(stack, u);
      assert o.Emit? ==> o.event != EndArray && o.event != EndObject;
    case _ =>
  }

  /** Once the first token is read: a closing event pops a frame of its own kind. */
  lemma ReactionCloses(stack: seq<Frame>, t: Token, s: seq<CodeUnit>, next: nat)
    requires next <= |s| && Reaction(stack, t, s, next).Parsed?
    ensures Reaction(stack, t, s, next).event == EndArray ==>
              stack != [] && (Top(stack) == StartArrayFrame || Top(stack) == MidArray)
              && Reaction(stack, t, s, next).stack == Pop(stack)
    ensures Reaction(stack, t, s, next).event == EndObject ==>
              stack != [] && (Top(stack) == StartObjectFrame || Top(stack) == MidObject)
              && Reaction(stack, t, s, next).stack == Pop(stack)
  {
    var d := Dispatch(stack, t);
    if !d.Reply? {
      SecondTokenNeverCloses(d.stack, s, next, d.ValueNext?);
    }
  }

  /** `END_ARRAY` is returned only by popping a `START_ARRAY` or `MID_ARRAY` frame. */
  lemma EndArrayPopsArray(stack: seq<Frame>, s: seq<CodeUnit>, p: nat)
    requires p <= |s|
    requires ParseStep(stack, s, p).Parsed? && ParseStep(stack, s, p).event == EndArray
    ensures stack != [] && (Top(stack) == StartArrayFrame || Top(stack) == MidArray)
    ensures ParseStep(stack, s, p).stack == Pop(stack)
  {
    ReactionCloses(stack, NextToken(s, p).token, s, NextToken(s, p).next);
  }

  /** `END_OBJECT` is returned only by popping a `START_OBJECT` or `MID_OBJECT` frame. */
  lemma EndObjectPopsObject(stack: seq<Frame>, s: seq<CodeUnit>, p: nat)
    requires p <= |s|
    requires ParseStep(stack, s, p).Parsed? && ParseStep(stack, s, p).event == EndObject
    ensures stack != [] && (Top(stack) == StartObjectFrame || Top(stack) == MidObject)
    ensures ParseStep(stack, s, p).stack == Pop(stack)
  {
    ReactionCloses(stack, NextToken(s, p).token, s, NextToken(s, p).next);
  }

  /**
   * With an empty stack a call returns an event exactly when the next token
   * is `{`, `[` or the end of the input, and the event is `START_OBJECT`,
   * `START_ARRAY` or `END`.
   */
  lemma EmptyStackAcceptsOnlyOpenersAndEnd(s: seq<CodeUnit>, p: nat)
    requires p <= |s|
    ensures ParseStep([], s, p).Parsed? <==>
              NextToken(s, p).Scanned? && NextToken(s, p).token in {OpenBrace, OpenBracket, EndOfInput}
    ensures ParseStep([], s, p).Parsed? ==> ParseStep([], s, p).event in {StartObject, StartArray, End}
    ensures NextToken(s, p).Scanned? && !ParseStep([], s, p).Parsed? ==> ParseStep([], s, p) == SyntaxError([], NextToken(s, p).next)
  {
  }

  // -------------------------------------------------------- over token lists

  /** One call over a list of tokens: an event and how many tokens it took, a `ParseException`, or too few tokens. */
  datatype Advance = Stepped(event: Event, stack: seq<Frame>, used: nat) | Stuck(stack: seq<Frame>) | OutOfTokens

  function Advanced(o: Outcome, used: nat): Advance {
    match o
    case Emit(ev, st) => Stepped(ev, st, used)
    case Reject(st) => Stuck(st)
  }

  /** `readNext()` over the token list `toks`: every call takes one token or two. */
  function TokenStep(stack: seq<Frame>, toks: seq<Token>): (a: Advance)
    ensures a.Stepped? ==> 1 <= a.used <= 2 && a.used <= |toks|
    ensures toks == [] ==> a == OutOfTokens
  {
    if toks == [] then OutOfTokens
    else
      match Dispatch(stack, toks[0])
      case Reply(o) => Advanced(o, 1)
      case ValueNext(st) => if |toks| < 2 then OutOfTokens else Advanced(ValueEvent(st, toks[1]), 2)
      case KeyNext(st) => if |toks| < 2 then OutOfTokens else Advanced(KeyEvent(st, toks[1]), 2)
  }

  /** `toks` are the tokens scanned one after another from `p` of `s`. */
  predicate Scans(s: seq<CodeUnit>, p: nat, toks: seq<Token>)
    requires p <= |s|
    decreases |toks|
  {
    toks == [] ||
    (NextToken(s, p).Scanned? && NextToken(s, p).token == toks[0] && Scans(s, NextToken(s, p).next, toks[1..]))
  }

  /** On scanned characters, a call of the parser is the call over their tokens. */
  lemma ParseStepFollowsTokens(stack: seq<Frame>, s: seq<CodeUnit>, p: nat, toks: seq<Token>)
    requires p <= |s| && |toks| >= 2 && Scans(s, p, toks)
    ensures ParseStep(stack, s, p).Parsed? <==> TokenStep(stack, toks).Stepped?
    ensures ParseStep(stack, s, p).SyntaxError? <==> TokenStep(stack, toks).Stuck?
    ensures ParseStep(stack, s, p).Parsed? ==>
              ParseStep(stack, s, p).event == TokenStep(stack, toks).event
              && ParseStep(stack, s, p).stack == TokenStep(stack, toks).stack
    ensures ParseStep(stack, s, p).SyntaxError? ==>
              ParseStep(stack, s, p).stack == TokenStep(stack, toks).stack
    ensures ParseStep(stack, s, p).Parsed? ==>
              ParseStep(stack, s, p).next <= |s|
              && Scans(s, ParseStep(stack, s, p).next, toks[TokenStep(stack, toks).used..])
  {
    assert Scans(s, NextToken(s, p).next, toks[1..]);
    assert toks[1..][1..] == toks[2..];
  }

  /** What the parser returns over a token list until it returns `END` or stops. */
  datatype Run =
    | Finished(events: seq<Event>, stack: seq<Frame>, rest: seq<Token>)
    | Stopped(events: seq<Event>, stack: seq<Frame>)
    | Starved(events: seq<Event>, stack: seq<Frame>)

  function Prefix(evs: seq<Event>, r: Run): Run {
    r.(events := evs + r.events)
  }

  /** Calls `readNext()` until it returns `END`, throws, or runs out of tokens. */
  function Drive(stack: seq<Frame>, toks: seq<Token>): Run
    decreases |toks|
  {
    match TokenStep(stack, toks)
    case OutOfTokens => Starved([], stack)
    case Stuck(st) => Stopped([], st)
    case Stepped(ev, st, used) =>
      if ev == End then Finished([End], st, toks[used..])
      else Prefix([ev], Drive(st, toks[used..]))
  }

  lemma PrefixPrefix(a: seq<Event>, b: seq<Event>, r: Run)
    ensures Prefix(a, Prefix(b, r)) == Prefix(a + b, r)
  {
    assert a + (b + r.events) == (a + b) + r.events;
  }

  // ------------------------------------------------------------ JSON trees

  datatype Json =
    | JNull | JTrue | JFalse
    | JString(text: seq<CodeUnit>)
    | JNumber(text: seq<CodeUnit>)
    | JArray(items: seq<Json>)
    | JObject(members: seq<Member>)

  datatype Member = Member(key: seq<CodeUnit>, value: Json)

  /** The tokens of a value written out. */
  function Tokens(v: Json): (r: seq<Token>)
    ensures r != []
    ensures r[0] !in {CloseBracket, CloseBrace, Comma, Colon, EndOfInput}
    decreases v, 1
  {
    match v
    case JNull => [NullLiteral]
    case JTrue => [TrueLiteral]
    case JFalse => [FalseLiteral]
    case JString(x) => [StringLiteral(x)]
    case JNumber(x) => [NumberLiteral(x)]
    case JArray(items) => [OpenBracket] + ItemTokens(items) + [CloseBracket]
    case JObject(ms) => [OpenBrace] + MemberTokens(ms) + [CloseBrace]
  }

  function ItemTokens(items: seq<Json>): seq<Token>
    decreases items, 2
  {
    if items == [] then [] else Tokens(items[0]) + MoreItemTokens(items[1..])
  }

  /** `, v` for each further item. */
  function MoreItemTokens(items: seq<Json>): seq<Token>
    decreases items, 0
  {
    if items == [] then [] else [Comma] + Tokens(items[0]) + MoreItemTokens(items[1..])
  }

  /** `"key" : value` */
  function PairTokens(m: Member): seq<Token>
    decreases m, 2
  {
    [StringLiteral(m.key), Colon] + Tokens(m.value)
  }

  function MemberTokens(ms: seq<Member>): seq<Token>
    decreases ms, 4
  {
    if ms == [] then [] else PairTokens(ms[0]) + MorePairTokens(ms[1..])
  }

  /** `, "key" : value` for each further member. */
  function MorePairTokens(ms: seq<Member>): seq<Token>
    decreases ms, 3
  {
    if ms == [] then [] else [Comma] + PairTokens(ms[0]) + MorePairTokens(ms[1..])
  }

  /** The events of a value in document order; it never holds `END`. */
  function Trace(v: Json): (r: seq<Event>)
    ensures r != [] && End !in r
    decreases v, 1
  {
    match v
    case JNull => [Null]
    case JTrue => [True]
    case JFalse => [False]
    case JString(x) => [String(x)]
    case JNumber(x) => [Number(x)]
    case JArray(items) => [StartArray] + ItemsTrace(items) + [EndArray]
    case JObject(ms) => [StartObject] + MembersTrace(ms) + [EndObject]
  }

  function ItemsTrace(items: seq<Json>): (r: seq<Event>)
    ensures End !in r
    decreases items, 0
  {
    if items == [] then [] else Trace(items[0]) + ItemsTrace(items[1..])
  }

  function MembersTrace(ms: seq<Member>): (r: seq<Event>)
    ensures End !in r
    decreases ms, 0
  {
    if ms == [] then [] else [Key(ms[0].key)] + Trace(ms[0].value) + MembersTrace(ms[1..])
  }

  /** The stack once the first token of `v` has been handed to `getValue` on `stack`. */
  function Opened(stack: seq<Frame>, v: Json): seq<Frame> {
    if v.JArray? then stack + [StartArrayFrame]
    else if v.JObject? then stack + [StartObjectFrame]
    else stack
  }

  /** A stack on which `getValue` may push: empty, or a `MID` frame on top. */
  predicate ValueContext(stack: seq<Frame>) {
    WellFormed(stack) && (stack == [] || Top(stack) == MidArray || Top(stack) == MidObject)
  }

  /** `getValue` on the first token of a value returns its first event. */
  lemma FirstValueEvent(stack: seq<Frame>, v: Json)
    ensures ValueEvent(stack, Tokens(v)[0]) == Emit(Trace(v)[0], Opened(stack, v))
  {
  }

  lemma MidContext(stack: seq<Frame>, f: Frame)
    requires ValueContext(stack) && (f == MidArray || f == MidObject)
    ensures ValueContext(stack + [f]) && Pop(stack + [f]) == stack && Top(stack + [f]) == f
  {
    PushKeepsShape(stack, f);
  }

  /** A call that returns an event other than `END` puts it in front of what the later calls return. */
  lemma DriveStep(stack: seq<Frame>, toks: seq<Token>)
    requires TokenStep(stack, toks).Stepped? && TokenStep(stack, toks).event != End
    ensures Drive(stack, toks)
            == Prefix([TokenStep(stack, toks).event], Drive(TokenStep(stack, toks).stack, toks[TokenStep(stack, toks).used..]))
  {
  }

  // The single calls met inside a document.

  lemma FirstItemStep(stack: seq<Frame>, x: Json, after: seq<Token>)
    ensures TokenStep(stack + [StartArrayFrame], Tokens(x) + after) == Stepped(Trace(x)[0], Opened(stack + [MidArray], x), 1)
    ensures (Tokens(x) + after)[1..] == Tokens(x)[1..] + after
  {
    var inner := stack + [StartArrayFrame];
    assert Top(inner) == StartArrayFrame && Pop(inner) == stack;
    FirstValueEvent(stack + [MidArray], x);
    TokensFirst(x, after);
  }

  lemma ItemAfterCommaStep(stack: seq<Frame>, x: Json, after: seq<Token>)
    ensures TokenStep(stack + [MidArray], [Comma] + Tokens(x) + after) == Stepped(Trace(x)[0], Opened(stack + [MidArray], x), 2)
    ensures ([Comma] + Tokens(x) + after)[2..] == Tokens(x)[1..] + after
  {
    var mid := stack + [MidArray];
    assert Top(mid) == MidArray;
    TokensAfter([Comma], x, after);
    FirstValueEvent(mid, x);
  }

  lemma ColonValueStep(stack: seq<Frame>, v: Json, after: seq<Token>)
    ensures TokenStep(stack + [MidObject, KeyFrame], [Colon] + Tokens(v) + after)
            == Stepped(Trace(v)[0], Opened(stack + [MidObject], v), 2)
    ensures ([Colon] + Tokens(v) + after)[2..] == Tokens(v)[1..] + after
  {
    var keyed := stack + [MidObject, KeyFrame];
    assert Top(keyed) == KeyFrame && Pop(keyed) == stack + [MidObject];
    TokensAfter([Colon], v, after);
    FirstValueEvent(stack + [MidObject], v);
  }

  /** The tokens of `x` in front: the first, and what follows it. */
  lemma TokensFirst(x: Json, after: seq<Token>)
    ensures (Tokens(x) + after)[0] == Tokens(x)[0]
    ensures (Tokens(x) + after)[1..] == Tokens(x)[1..] + after
  {
    var t := Tokens(x);
    assert (t + after)[1..] == t[1..] + after;
  }

  /** The tokens of `x` after `lead`: where the first sits, and what follows it. */
  lemma TokensAfter(lead: seq<Token>, x: Json, after: seq<Token>)
    ensures (lead + Tokens(x) + after)[|lead|] == Tokens(x)[0]
    ensures (lead + Tokens(x) + after)[|lead| + 1..] == Tokens(x)[1..] + after
    ensures |lead + Tokens(x) + after| > |lead|
  {
    var t := Tokens(x);
    assert (lead + t + after)[|lead| + 1..] == t[1..] + after;
  }

  lemma FirstKeyStep(stack: seq<Frame>, k: seq<CodeUnit>, after: seq<Token>)
    ensures TokenStep(stack + [StartObjectFrame], [StringLiteral(k)] + after) == Stepped(Key(k), stack + [MidObject, KeyFrame], 1)
    ensures ([StringLiteral(k)] + after)[1..] == after
  {
    var inner := stack + [StartObjectFrame];
    assert Top(inner) == StartObjectFrame && Pop(inner) == stack;
    assert stack + [MidObject] + [KeyFrame] == stack + [MidObject, KeyFrame];
  }

  lemma KeyAfterCommaStep(stack: seq<Frame>, k: seq<CodeUnit>, after: seq<Token>)
    ensures TokenStep(stack + [MidObject], [Comma, StringLiteral(k)] + after) == Stepped(Key(k), stack + [MidObject, KeyFrame], 2)
    ensures ([Comma, StringLiteral(k)] + after)[2..] == after
  {
    var mid := stack + [MidObject];
    assert Top(mid) == MidObject;
    assert mid + [KeyFrame] == stack + [MidObject, KeyFrame];
  }

  lemma CloseArrayRun(stack: seq<Frame>, f: Frame, rest: seq<Token>)
    requires f == StartArrayFrame || f == MidArray
    ensures Drive(stack + [f], [CloseBracket] + rest) == Prefix([EndArray], Drive(stack, rest))
  {
    assert Top(stack + [f]) == f && Pop(stack + [f]) == stack;
    assert ([CloseBracket] + rest)[1..] == rest;
    DriveStep(stack + [f], [CloseBracket] + rest);
  }

  lemma CloseObjectRun(stack: seq<Frame>, f: Frame, rest: seq<Token>)
    requires f == StartObjectFrame || f == MidObject
    ensures Drive(stack + [f], [CloseBrace] + rest) == Prefix([EndObject], Drive(stack, rest))
  {
    assert Top(stack + [f]) == f && Pop(stack + [f]) == stack;
    assert ([CloseBrace] + rest)[1..] == rest;
    DriveStep(stack + [f], [CloseBrace] + rest);
  }

  /**
   * A call that returns the first event of `x` and leaves the rest of `x`'s
   * tokens: together with the calls after it, it returns all of `x`'s
   * events and is back at `mid`.
   */
  lemma StepThenValue(stack: seq<Frame>, toks: seq<Token>, mid: seq<Frame>, x: Json, after: seq<Token>)
    requires ValueContext(mid)
    requires TokenStep(stack, toks).Stepped?
    requires TokenStep(stack, toks).event == Trace(x)[0] && TokenStep(stack, toks).stack == Opened(mid, x)
    requires toks[TokenStep(stack, toks).used..] == Tokens(x)[1..] + after
    ensures Drive(stack, toks) == Prefix(Trace(x), Drive(mid, after))
    decreases x, 3
  {
    DriveStep(stack, toks);
    ValueThenRest(mid, x, after);
  }

  /** The first event of `x`, then the rest of `x`'s tokens read from its opened stack. */
  lemma ValueThenRest(mid: seq<Frame>, x: Json, after: seq<Token>)
    requires ValueContext(mid)
    ensures Prefix([Trace(x)[0]], Drive(Opened(mid, x), Tokens(x)[1..] + after)) == Prefix(Trace(x), Drive(mid, after))
    decreases x, 2
  {
    TailRun(mid, x, after);
    PrefixHeadTail(Trace(x), Drive(mid, after));
  }

  lemma PrefixHeadTail(evs: seq<Event>, r: Run)
    requires evs != []
    ensures Prefix([evs[0]], Prefix(evs[1..], r)) == Prefix(evs, r)
  {
    PrefixPrefix([evs[0]], evs[1..], r);
    assert [evs[0]] + evs[1..] == evs;
  }

  /**
   * After the first event of `v`, the parser reads the rest of `v`'s tokens,
   * returns the rest of its events and is back at `stack`.
   */
  lemma {:induction false} TailRun(stack: seq<Frame>, v: Json, rest: seq<Token>)
    requires ValueContext(stack)
    ensures Drive(Opened(stack, v), Tokens(v)[1..] + rest) == Prefix(Trace(v)[1..], Drive(stack, rest))
    decreases v, 1
  {
    match v
    case JArray(items) => ArrayTail(stack, items, rest);
    case JObject(ms) => ObjectTail(stack, ms, rest);
    case _ => ScalarTail(stack, v, rest);
  }

  /** A scalar has no tokens and no events after its first. */
  lemma ScalarTail(stack: seq<Frame>, v: Json, rest: seq<Token>)
    requires !v.JArray? && !v.JObject?
    ensures Drive(Opened(stack, v), Tokens(v)[1..] + rest) == Prefix(Trace(v)[1..], Drive(stack, rest))
  {
    assert Tokens(v)[1..] == [] && Trace(v)[1..] == [];
    assert [] + rest == rest;
    PrefixNothing(Drive(stack, rest));
  }

  lemma PrefixNothing(r: Run)
    ensures Prefix([], r) == r
  {
    assert [] + r.events == r.events;
  }

  lemma {:induction false} ArrayTail(stack: seq<Frame>, items: seq<Json>, rest: seq<Token>)
    requires ValueContext(stack)
    ensures Drive(stack + [StartArrayFrame], Tokens(JArray(items))[1..] + rest)
            == Prefix(Trace(JArray(items))[1..], Drive(stack, rest))
    decreases items, 4
  {
    assert Tokens(JArray(items))[1..] + rest == ItemTokens(items) + [CloseBracket] + rest;
    assert Trace(JArray(items))[1..] == ItemsTrace(items) + [EndArray];
    ArrayBody(stack, items, rest);
  }

  lemma {:induction false} ObjectTail(stack: seq<Frame>, ms: seq<Member>, rest: seq<Token>)
    requires ValueContext(stack)
    ensures Drive(stack + [StartObjectFrame], Tokens(JObject(ms))[1..] + rest)
            == Prefix(Trace(JObject(ms))[1..], Drive(stack, rest))
    decreases ms, 6
  {
    assert Tokens(JObject(ms))[1..] + rest == MemberTokens(ms) + [CloseBrace] + rest;
    assert Trace(JObject(ms))[1..] == MembersTrace(ms) + [EndObject];
    ObjectBody(stack, ms, rest);
  }

  /** The events of a first item, then of the others and `END_ARRAY`, are those of all items and `END_ARRAY`. */
  lemma ArrayTraceStep(items: seq<Json>, r: Run)
    requires items != []
    ensures Prefix(Trace(items[0]), Prefix(ItemsTrace(items[1..]) + [EndArray], r))
            == Prefix(ItemsTrace(items) + [EndArray], r)
  {
    PrefixPrefix(Trace(items[0]), ItemsTrace(items[1..]) + [EndArray], r);
    assert Trace(items[0]) + (ItemsTrace(items[1..]) + [EndArray]) == ItemsTrace(items) + [EndArray];
  }

  // How the token lists of a non-empty array or object body split at their first element.

  lemma ItemTokensCons(items: seq<Json>, rest: seq<Token>)
    requires items != []
    ensures ItemTokens(items) + [CloseBracket] + rest
            == Tokens(items[0]) + (MoreItemTokens(items[1..]) + [CloseBracket] + rest)
  {
  }

  lemma MoreItemTokensCons(more: seq<Json>, rest: seq<Token>)
    requires more != []
    ensures MoreItemTokens(more) + [CloseBracket] + rest
            == [Comma] + Tokens(more[0]) + (MoreItemTokens(more[1..]) + [CloseBracket] + rest)
  {
  }

  lemma MemberTokensCons(ms: seq<Member>, rest: seq<Token>)
    requires ms != []
    ensures MemberTokens(ms) + [CloseBrace] + rest
            == [StringLiteral(ms[0].key)] + ([Colon] + Tokens(ms[0].value) + (MorePairTokens(ms[1..]) + [CloseBrace] + rest))
  {
  }

  lemma MorePairTokensCons(more: seq<Member>, rest: seq<Token>)
    requires more != []
    ensures MorePairTokens(more) + [CloseBrace] + rest
            == [Comma, StringLiteral(more[0].key)] + ([Colon] + Tokens(more[0].value) + (MorePairTokens(more[1..]) + [CloseBrace] + rest))
  {
  }

  /** An empty array or object body: only the closing bracket, and only the closing event. */
  lemma EmptyBodies(rest: seq<Token>)
    ensures ItemTokens([]) + [CloseBracket] + rest == [CloseBracket] + rest
    ensures MoreItemTokens([]) + [CloseBracket] + rest == [CloseBracket] + rest
    ensures MemberTokens([]) + [CloseBrace] + rest == [CloseBrace] + rest
    ensures MorePairTokens([]) + [CloseBrace] + rest == [CloseBrace] + rest
    ensures ItemsTrace([]) + [EndArray] == [EndArray] && MembersTrace([]) + [EndObject] == [EndObject]
  {
  }

  /** The items of an array after `[`: their events, then `END_ARRAY`. */
  lemma {:induction false} ArrayBody(stack: seq<Frame>, items: seq<Json>, rest: seq<Token>)
    requires ValueContext(stack)
    ensures Drive(stack + [StartArrayFrame], ItemTokens(items) + [CloseBracket] + rest)
            == Prefix(ItemsTrace(items) + [EndArray], Drive(stack, rest))
    decreases items, 3
  {
    if items == [] {
      EmptyBodies(rest);
      CloseArrayRun(stack, StartArrayFrame, rest);
    } else {
      var x := items[0];
      var after := MoreItemTokens(items[1..]) + [CloseBracket] + rest;
      ItemTokensCons(items, rest);
      MidContext(stack, MidArray);
      FirstItemStep(stack, x, after);
      StepThenValue(stack + [StartArrayFrame], Tokens(x) + after, stack + [MidArray], x, after);
      ArrayRest(stack, items[1..], rest);
      ArrayTraceStep(items, Drive(stack, rest));
    }
  }

  /** The items after the first, each after a comma: their events, then `END_ARRAY`. */
  lemma {:induction false} ArrayRest(stack: seq<Frame>, more: seq<Json>, rest: seq<Token>)
    requires ValueContext(stack)
    ensures Drive(stack + [MidArray], MoreItemTokens(more) + [CloseBracket] + rest)
            == Prefix(ItemsTrace(more) + [EndArray], Drive(stack, rest))
    decreases more, 3
  {
    if more == [] {
      EmptyBodies(rest);
      CloseArrayRun(stack, MidArray, rest);
    } else {
      var x := more[0];
      var after := MoreItemTokens(more[1..]) + [CloseBracket] + rest;
      MoreItemTokensCons(more, rest);
      MidContext(stack, MidArray);
      ItemAfterCommaStep(stack, x, after);
      StepThenValue(stack + [MidArray], [Comma] + Tokens(x) + after, stack + [MidArray], x, after);
      ArrayRest(stack, more[1..], rest);
      ArrayTraceStep(more, Drive(stack, rest));
    }
  }

  /** A key's event, then `:` and the member's value: the member's events, back at `MID_OBJECT`. */
  lemma {:induction false} MemberRun(stack: seq<Frame>, toks: seq<Token>, m: Member, after: seq<Token>)
    requires ValueContext(stack)
    requires toks == [Colon] + Tokens(m.value) + after
    ensures Drive(stack + [MidObject, KeyFrame], toks) == Prefix(Trace(m.value), Drive(stack + [MidObject], after))
    decreases m, 3
  {
    MidContext(stack, MidObject);
    ColonValueStep(stack, m.value, after);
    StepThenValue(stack + [MidObject, KeyFrame], toks, stack + [MidObject], m.value, after);
  }

  /** The members of an object after `{`: their events, then `END_OBJECT`. */
  lemma {:induction false} ObjectBody(stack: seq<Frame>, ms: seq<Member>, rest: seq<Token>)
    requires ValueContext(stack)
    ensures Drive(stack + [StartObjectFrame], MemberTokens(ms) + [CloseBrace] + rest)
            == Prefix(MembersTrace(ms) + [EndObject], Drive(stack, rest))
    decreases ms, 5
  {
    if ms == [] {
      EmptyBodies(rest);
      CloseObjectRun(stack, StartObjectFrame, rest);
    } else {
      var m := ms[0];
      var after := MorePairTokens(ms[1..]) + [CloseBrace] + rest;
      var valueToks := [Colon] + Tokens(m.value) + after;
      MemberTokensCons(ms, rest);
      FirstKeyStep(stack, m.key, valueToks);
      DriveStep(stack + [StartObjectFrame], [StringLiteral(m.key)] + valueToks);
      MemberRun(stack, valueToks, m, after);
      ObjectRest(stack, ms[1..], rest);
      ObjectTraceStep(ms, Drive(stack, rest));
    }
  }

  /** The members after the first, each after a comma: their events, then `END_OBJECT`. */
  lemma {:induction false} ObjectRest(stack: seq<Frame>, more: seq<Member>, rest: seq<Token>)
    requires ValueContext(stack)
    ensures Drive(stack + [MidObject], MorePairTokens(more) + [CloseBrace] + rest)
            == Prefix(MembersTrace(more) + [EndObject], Drive(stack, rest))
    decreases more, 5
  {
    if more == [] {
      EmptyBodies(rest);
      CloseObjectRun(stack, MidObject, rest);
    } else {
      var m := more[0];
      var after := MorePairTokens(more[1..]) + [CloseBrace] + rest;
      var valueToks := [Colon] + Tokens(m.value) + after;
      MorePairTokensCons(more, rest);
      KeyAfterCommaStep(stack, m.key, valueToks);
      DriveStep(stack + [MidObject], [Comma, StringLiteral(m.key)] + valueToks);
      MemberRun(stack, valueToks, m, after);
      ObjectRest(stack, more[1..], rest);
      ObjectTraceStep(more, Drive(stack, rest));
    }
  }

  /** The events of a first member, then of the others and `END_OBJECT`, are those of all members and `END_OBJECT`. */
  lemma ObjectTraceStep(ms: seq<Member>, r: Run)
    requires ms != []
    ensures Prefix([Key(ms[0].key)], Prefix(Trace(ms[0].value), Prefix(MembersTrace(ms[1..]) + [EndObject], r)))
            == Prefix(MembersTrace(ms) + [EndObject], r)
  {
    var tail := MembersTrace(ms[1..]) + [EndObject];
    PrefixPrefix(Trace(ms[0].value), tail, r);
    PrefixPrefix([Key(ms[0].key)], Trace(ms[0].value) + tail, r);
    MembersTraceCons(ms);
  }

  lemma MembersTraceCons(ms: seq<Member>)
    requires ms != []
    ensures [Key(ms[0].key)] + (Trace(ms[0].value) + (MembersTrace(ms[1..]) + [EndObject])) == MembersTrace(ms) + [EndObject]
  {
  }

  // ------------------------------------------------------------- documents

  /** An array or object at the top level returns its trace and leaves the stack empty. */
  lemma RootRun(root: Json, rest: seq<Token>)
    requires root.JArray? || root.JObject?
    ensures Drive([], Tokens(root) + rest) == Prefix(Trace(root), Drive([], rest))
  {
    var toks := Tokens(root) + rest;
    assert TokenStep([], toks) == Stepped(Trace(root)[0], Opened([], root), 1);
    assert toks[1..] == Tokens(root)[1..] + rest;
    StepThenValue([], toks, [], root, rest);
  }

  /** A whole document: the events of its tree, then `END`, with the stack empty again. */
  lemma DocumentRun(root: Json, rest: seq<Token>)
    requires root.JArray? || root.JObject?
    ensures Drive([], Tokens(root) + [EndOfInput] + rest) == Finished(Trace(root) + [End], [], rest)
  {
    RootRun(root, [EndOfInput] + rest);
    assert Tokens(root) + [EndOfInput] + rest == Tokens(root) + ([EndOfInput] + rest);
    assert ([EndOfInput] + rest)[1..] == rest;
  }

  /** Two documents one after the other are both accepted: the stack is empty between them. */
  lemma ConcatenatedDocuments(first: Json, second: Json)
    requires first.JArray? || first.JObject?
    requires second.JArray? || second.JObject?
    ensures Drive([], Tokens(first) + Tokens(second) + [EndOfInput])
            == Finished(Trace(first) + Trace(second) + [End], [], [])
  {
    RootRun(first, Tokens(second) + [EndOfInput]);
    DocumentRun(second, []);
    assert Tokens(first) + Tokens(second) + [EndOfInput] == Tokens(first) + (Tokens(second) + [EndOfInput]);
    assert Tokens(second) + [EndOfInput] + [] == Tokens(second) + [EndOfInput];
    assert Trace(first) + (Trace(second) + [End]) == Trace(first) + Trace(second) + [End];
  }

  /** A scalar at the top level is refused at its first token. */
  lemma ScalarRootRejected(root: Json, rest: seq<Token>)
    requires !root.JArray? && !root.JObject?
    ensures Drive([], Tokens(root) + rest) == Stopped([], [])
  {
  }
}
