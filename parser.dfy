/**
 * The pull parser (`StreamingJsonParser`): a pushdown automaton over the
 * tokens of `TokenReader`. Its stack holds five kinds of frame; the top frame
 * decides which tokens may come next, and each call returns one event.
 *
 * The stack is a sequence whose LAST element is the top (the source keeps it
 * at the head of a linked list). The functions below describe one call as a
 * value; the class `StreamingJsonParser` is the imperative parser, proved
 * equal to them, and keeps the stack invariants as part of its `Valid()`.
 */
module Parser {
  import opened Chars
  import opened Lexer
  import opened Events

  /** The integer tags `START_ARRAY` .. `MID_OBJECT` of the state stack. */
  datatype Frame = StartArrayFrame | StartObjectFrame | KeyFrame | MidArray | MidObject

  /** Returning an event with the stack it leaves, or a `ParseException` and the stack then. */
  datatype Outcome = Emit(event: Event, stack: seq<Frame>) | Reject(stack: seq<Frame>)

  /**
   * What the first token decides: the outcome, or that one more token is to
   * be read and handed to `getValue` or `getKey` with the given stack.
   */
  datatype Next = Reply(outcome: Outcome) | ValueNext(stack: seq<Frame>) | KeyNext(stack: seq<Frame>)

  /**
   * One call of `readNext()` on the input: an event, the stack and where the
   * token stream is left; a `ParseException` (the stack as the source left
   * it, and the position after the offending token); a `JsonParseException`
   * from the tokenizer; or a call that never returns (an unterminated
   * string).
   */
  datatype Step =
    | Parsed(event: Event, stack: seq<Frame>, next: nat)
    | SyntaxError(stack: seq<Frame>, at: nat)
    | LexError(stack: seq<Frame>, at: nat)
    | Diverges

  function Top(stack: seq<Frame>): Frame
    requires stack != []
  {
    stack[|stack| - 1]
  }

  function Pop(stack: seq<Frame>): seq<Frame>
    requires stack != []
  {
    stack[..|stack| - 1]
  }

  // ------------------------------------------------------------ one call

  /** `getValue(token)` */
  function ValueEvent(stack: seq<Frame>, t: Token): Outcome {
    match t
    case OpenBrace => Emit(StartObject, stack + [StartObjectFrame])
    case OpenBracket => Emit(StartArray, stack + [StartArrayFrame])
    case NullLiteral => Emit(Null, stack)
    case FalseLiteral => Emit(False, stack)
    case TrueLiteral => Emit(True, stack)
    case StringLiteral(x) => Emit(String(x), stack)
    case NumberLiteral(x) => Emit(Number(x), stack)
    case _ => Reject(stack)
  }

  /** `getKey(token)` */
  function KeyEvent(stack: seq<Frame>, t: Token): Outcome {
    if t.StringLiteral? then Emit(Key(t.text), stack + [KeyFrame]) else Reject(stack)
  }

  /** The body of `readNext()` once the first token `t` has been read. */
  function Dispatch(stack: seq<Frame>, t: Token): Next {
    if stack == [] then
      if t == OpenBrace then Reply(Emit(StartObject, [StartObjectFrame]))
      else if t == OpenBracket then Reply(Emit(StartArray, [StartArrayFrame]))
      else if t == EndOfInput then Reply(Emit(End, []))
      else Reply(Reject([]))
    else
      var below := Pop(stack);
      match Top(stack)
      case StartArrayFrame =>
        if t == CloseBracket then Reply(Emit(EndArray, below))
        else Reply(ValueEvent(below + [MidArray], t))
      case StartObjectFrame =>
        if t == CloseBrace then Reply(Emit(EndObject, below))
        else Reply(KeyEvent(below + [MidObject], t))
      case KeyFrame =>
        if t == Colon then ValueNext(below) else Reply(Reject(stack))
      case MidArray =>
        if t == Comma then ValueNext(stack)
        else if t == CloseBracket then Reply(Emit(EndArray, below))
        else Reply(Reject(stack))
      case MidObject =>
        if t == Comma then KeyNext(stack)
        else if t == CloseBrace then Reply(Emit(EndObject, below))
        else Reply(Reject(stack))
  }

  function Finish(o: Outcome, next: nat): Step {
    match o
    case Emit(ev, st) => Parsed(ev, st, next)
    case Reject(st) => SyntaxError(st, next)
  }

  /** Reading the second token, after `:` or `,`, and handing it to `getValue` or `getKey`. */
  function SecondToken(stack: seq<Frame>, s: seq<CodeUnit>, p: nat, value: bool): Step
    requires p <= |s|
  {
    match NextToken(s, p)
    case Hang => Diverges
    case Malformed(at) => LexError(stack, at)
    case Scanned(u, next) => Finish(if value then ValueEvent(stack, u) else KeyEvent(stack, u), next)
  }

  /** `readNext()` with the given stack and the token stream at `p` of `s`. */
  function ParseStep(stack: seq<Frame>, s: seq<CodeUnit>, p: nat): Step
    requires p <= |s|
  {
    match NextToken(s, p)
    case Hang => Diverges
    case Malformed(at) => LexError(stack, at)
    case Scanned(t, next) => Reaction(stack, t, s, next)
  }

  /** The rest of `readNext()` once the first token `t` has been read, up to `next`. */
  function Reaction(stack: seq<Frame>, t: Token, s: seq<CodeUnit>, next: nat): Step
    requires next <= |s|
  {
    match Dispatch(stack, t)
    case Reply(o) => Finish(o, next)
    case ValueNext(st) => SecondToken(st, s, next, true)
    case KeyNext(st) => SecondToken(st, s, next, false)
  }

  // ------------------------------------------------------- stack invariants

  /**
   * Every frame below the top is `MID_ARRAY` or `MID_OBJECT`, and a `KEY`
   * frame sits directly on a `MID_OBJECT`.
   */
  predicate WellFormed(stack: seq<Frame>) {
    && (forall i | 0 <= i < |stack| - 1 :: stack[i] == MidArray || stack[i] == MidObject)
    && (stack != [] && Top(stack) == KeyFrame ==> |stack| >= 2 && stack[|stack| - 2] == MidObject)
  }

  /** The number of open containers: the frames that are not `KEY` frames. */
  function Depth(stack: seq<Frame>): nat {
    if stack == [] then 0
    else Depth(Pop(stack)) + (if Top(stack) == KeyFrame then 0 else 1)
  }

  /** +1 for an event that opens a container, -1 for one that closes it, 0 otherwise. */
  function Delta(e: Event): int {
    if e == StartObject || e == StartArray then 1
    else if e == EndObject || e == EndArray then -1
    else 0
  }

  /** Opened minus closed containers over a run of events. */
  function Balance(events: seq<Event>): int {
    if events == [] then 0 else Balance(events[..|events| - 1]) + Delta(events[|events| - 1])
  }

  /** The change of depth a call makes: that of the event it returns, if any. */
  function StepDelta(r: Step): int {
    if r.Parsed? then Delta(r.event) else 0
  }

  lemma PushKeepsShape(stack: seq<Frame>, f: Frame)
    requires WellFormed(stack) && (stack == [] || Top(stack) == MidArray || Top(stack) == MidObject)
    requires f != KeyFrame || (stack != [] && Top(stack) == MidObject)
    ensures WellFormed(stack + [f]) && Pop(stack + [f]) == stack
    ensures Depth(stack + [f]) == Depth(stack) + (if f == KeyFrame then 0 else 1)
  {
    assert Pop(stack + [f]) == stack;
  }

  lemma PopKeepsShape(stack: seq<Frame>)
    requires WellFormed(stack) && stack != []
    ensures WellFormed(Pop(stack))
    ensures Pop(stack) == [] || Top(Pop(stack)) == MidArray || Top(Pop(stack)) == MidObject
  {
  }

  /**
   * `o`, reached from `stack`, leaves a well formed stack whose depth is that
   * of `stack` moved by the event returned, if any.
   */
  predicate KeepsShape(stack: seq<Frame>, o: Outcome) {
    WellFormed(o.stack) && Depth(o.stack) == Depth(stack) + (if o.Emit? then Delta(o.event) else 0)
  }

  /** Pushing a frame and returning an event of the matching delta keeps the shape. */
  lemma PushEmits(stack: seq<Frame>, f: Frame, e: Event)
    requires WellFormed(stack) && (stack == [] || Top(stack) == MidArray || Top(stack) == MidObject)
    requires f != KeyFrame || (stack != [] && Top(stack) == MidObject)
    requires Delta(e) == if f == KeyFrame then 0 else 1
    ensures KeepsShape(stack, Emit(e, stack + [f]))
  {
    PushKeepsShape(stack, f);
  }

  /** Leaving the stack alone, with no event or one that neither opens nor closes, keeps the shape. */
  lemma StayKeepsShape(stack: seq<Frame>, o: Outcome)
    requires WellFormed(stack) && o.stack == stack && (o.Emit? ==> Delta(o.event) == 0)
    ensures KeepsShape(stack, o)
  {
  }

  /** `getValue` keeps the invariants and changes the depth by its event's delta. */
  lemma ValueEventKeepsShape(stack: seq<Frame>, t: Token)
    requires WellFormed(stack) && (stack == [] || Top(stack) == MidArray || Top(stack) == MidObject)
    ensures KeepsShape(stack, ValueEvent(stack, t))
  {
    if t == OpenBrace {
      PushEmits(stack, StartObjectFrame, StartObject);
    } else if t == OpenBracket {
      PushEmits(stack, StartArrayFrame, StartArray);
    } else {
      StayKeepsShape(stack, ValueEvent(stack, t));
    }
  }

  /** `getKey` keeps the invariants and does not change the depth. */
  lemma KeyEventKeepsShape(stack: seq<Frame>, t: Token)
    requires WellFormed(stack) && stack != [] && Top(stack) == MidObject
    ensures KeepsShape(stack, KeyEvent(stack, t))
  {
    if t.StringLiteral? {
      PushEmits(stack, KeyFrame, Key(t.text));
    } else {
      StayKeepsShape(stack, KeyEvent(stack, t));
    }
  }

  /** After `:` or `,` the stack has a `MID` frame on top, or is empty. */
  lemma DispatchNextShape(stack: seq<Frame>, t: Token)
    requires WellFormed(stack)
    ensures Dispatch(stack, t).ValueNext? ==>
              var st := Dispatch(stack, t).stack;
              WellFormed(st) && Depth(st) == Depth(stack)
              && (st == [] || Top(st) == MidArray || Top(st) == MidObject)
    ensures Dispatch(stack, t).KeyNext? ==>
              var st := Dispatch(stack, t).stack;
              WellFormed(st) && Depth(st) == Depth(stack) && st != [] && Top(st) == MidObject
  {
    if stack != [] && Top(stack) == KeyFrame {
      PopKeepsShape(stack);
    }
  }

  /** The first token alone keeps the invariants and moves the depth by the event's delta. */
  lemma DispatchReplyShape(stack: seq<Frame>, t: Token)
    requires WellFormed(stack) && Dispatch(stack, t).Reply?
    ensures KeepsShape(stack, Dispatch(stack, t).outcome)
  {
    if stack == [] {
      RootReplyShape(t);
    } else if Top(stack) == StartArrayFrame {
      ArrayFrameReplyShape(stack, t);
    } else if Top(stack) == StartObjectFrame {
      ObjectFrameReplyShape(stack, t);
    } else {
      PopKeepsShape(stack);
    }
  }

  lemma RootReplyShape(t: Token)
    ensures Dispatch([], t).Reply? && KeepsShape([], Dispatch([], t).outcome)
  {
    if t == OpenBrace {
      assert Pop([StartObjectFrame]) == [];
    } else if t == OpenBracket {
      assert Pop([StartArrayFrame]) == [];
    }
  }

  lemma ArrayFrameReplyShape(stack: seq<Frame>, t: Token)
    requires WellFormed(stack) && stack != [] && Top(stack) == StartArrayFrame
    ensures Dispatch(stack, t).Reply? && KeepsShape(stack, Dispatch(stack, t).outcome)
  {
    if t == CloseBracket {
      PopEmits(stack, EndArray);
    } else {
      var mid := Pop(stack) + [MidArray];
      SwapTop(stack, MidArray);
      ValueEventKeepsShape(mid, t);
      Rebase(mid, stack, ValueEvent(mid, t));
    }
  }

  lemma ObjectFrameReplyShape(stack: seq<Frame>, t: Token)
    requires WellFormed(stack) && stack != [] && Top(stack) == StartObjectFrame
    ensures Dispatch(stack, t).Reply? && KeepsShape(stack, Dispatch(stack, t).outcome)
  {
    if t == CloseBrace {
      PopEmits(stack, EndObject);
    } else {
      var mid := Pop(stack) + [MidObject];
      SwapTop(stack, MidObject);
      KeyEventKeepsShape(mid, t);
      Rebase(mid, stack, KeyEvent(mid, t));
    }
  }

  /** Popping an open container's frame and returning an event that closes one keeps the shape. */
  lemma PopEmits(stack: seq<Frame>, e: Event)
    requires WellFormed(stack) && stack != [] && Top(stack) != KeyFrame && Delta(e) == -1
    ensures KeepsShape(stack, Emit(e, Pop(stack)))
  {
    PopKeepsShape(stack);
  }

  /** A `START` frame replaced by a `MID` frame: same shape, same depth. */
  lemma SwapTop(stack: seq<Frame>, f: Frame)
    requires WellFormed(stack) && stack != [] && (Top(stack) == StartArrayFrame || Top(stack) == StartObjectFrame)
    requires f == MidArray || f == MidObject
    ensures WellFormed(Pop(stack) + [f]) && Top(Pop(stack) + [f]) == f
    ensures Depth(Pop(stack) + [f]) == Depth(stack)
  {
    PopKeepsShape(stack);
    PushKeepsShape(Pop(stack), f);
  }

  lemma Rebase(from: seq<Frame>, to: seq<Frame>, o: Outcome)
    requires Depth(from) == Depth(to) && KeepsShape(from, o)
    ensures KeepsShape(to, o)
  {
  }

  /**
   * Every call that returns (with an event or an exception) leaves a well
   * formed stack, and the depth moves exactly by the returned event's delta.
   */
  lemma ParseStepKeepsShape(stack: seq<Frame>, s: seq<CodeUnit>, p: nat)
    requires WellFormed(stack) && p <= |s|
    ensures var r := ParseStep(stack, s, p);
            !r.Diverges? ==> WellFormed(r.stack) && Depth(r.stack) == Depth(stack) + StepDelta(r)
  {
    if NextToken(s, p).Scanned? {
      var t := NextToken(s, p).token;
      match Dispatch(stack, t)
      case Reply(o) => DispatchReplyShape(stack, t);
      case ValueNext(st) =>
        DispatchNextShape(stack, t);
        SecondTokenShape(st, s, NextToken(s, p).next, true);
      case KeyNext(st) =>
        DispatchNextShape(stack, t);
        SecondTokenShape(st, s, NextToken(s, p).next, false);
    }
  }

  /** The second token of a call keeps the invariants, given the stack `getValue` or `getKey` expects. */
  lemma SecondTokenShape(stack: seq<Frame>, s: seq<CodeUnit>, p: nat, value: bool)
    requires p <= |s| && WellFormed(stack)
    requires value ==> stack == [] || Top(stack) == MidArray || Top(stack) == MidObject
    requires !value ==> stack != [] && Top(stack) == MidObject
    ensures var r := SecondToken(stack, s, p, value);
            !r.Diverges? ==> WellFormed(r.stack) && Depth(r.stack) == Depth(stack) + StepDelta(r)
  {
    if NextToken(s, p).Scanned? {
      if value {
        ValueEventKeepsShape(stack, NextToken(s, p).token);
      } else {
        KeyEventKeepsShape(stack, NextToken(s, p).token);
      }
    }
  }

  // ------------------------------------------------------------ the parser

  class StreamingJsonParser {
    const tokenReader: TokenReader
    /** The state stack, top last. */
    var states: seq<Frame>
    /** The events returned so far. */
    ghost var emitted: seq<Event>

    ghost predicate Valid()
      reads this, tokenReader
    {
      && tokenReader.Valid()
      && WellFormed(states)
      && Balance(emitted) == Depth(states)
    }

    constructor (tokenReader: TokenReader)
      requires tokenReader.Valid()
      ensures Valid()
      ensures this.tokenReader == tokenReader && states == [] && emitted == []
    {
      this.tokenReader := tokenReader;
      states := [];
      emitted := [];
    }

    /** `getValue(token)` */
    method GetValue(t: Token) returns (o: Outcome)
      modifies this
      ensures o == ValueEvent(old(states), t) && states == o.stack
      ensures unchanged(this`emitted)
    {
      if t == OpenBrace {
        states := states + [StartObjectFrame];
        o := Emit(StartObject, states);
      } else if t == OpenBracket {
        states := states + [StartArrayFrame];
        o := Emit(StartArray, states);
      } else if t == NullLiteral {
        o := Emit(Null, states);
      } else if t == FalseLiteral {
        o := Emit(False, states);
      } else if t == TrueLiteral {
        o := Emit(True, states);
      } else if t.StringLiteral? {
        o := Emit(String(t.text), states);
      } else if t.NumberLiteral? {
        o := Emit(Number(t.text), states);
      } else {
        o := Reject(states);
      }
    }

    /** `getKey(token)` */
    method GetKey(t: Token) returns (o: Outcome)
      modifies this
      ensures o == KeyEvent(old(states), t) && states == o.stack
      ensures unchanged(this`emitted)
    {
      if t.StringLiteral? {
        states := states + [KeyFrame];
        o := Emit(Key(t.text), states);
      } else {
        o := Reject(states);
      }
    }

    /** Reads the token after `:` or `,` and hands it to `getValue` or `getKey`. */
    method ReadSecond(value: bool) returns (r: Step)
      requires tokenReader.Valid()
      modifies this, tokenReader
      ensures tokenReader.Valid()
      ensures r == SecondToken(old(states), tokenReader.input, old(tokenReader.pos), value)
      ensures r.Parsed? ==> tokenReader.pos == r.next
      ensures !r.Diverges? ==> states == r.stack
      ensures unchanged(this`emitted)
    {
      var u := tokenReader.ReadNext();
      if u.Hang? {
        return Diverges;
      } else if u.Malformed? {
        return LexError(states, u.at);
      }
      var o;
      if value {
        o := GetValue(u.token);
      } else {
        o := GetKey(u.token);
      }
      r := Finish(o, u.next);
    }

    /** `readNext()` */
    method ReadNext() returns (r: Step)
      requires Valid()
      modifies this, tokenReader
      ensures r == ParseStep(old(states), tokenReader.input, old(tokenReader.pos))
      ensures !r.Diverges? ==> Valid() && states == r.stack
      ensures r.Parsed? ==> tokenReader.pos == r.next && emitted == old(emitted) + [r.event]
      ensures r.SyntaxError? || r.LexError? ==> emitted == old(emitted)
    {
      ParseStepKeepsShape(states, tokenReader.input, tokenReader.pos);
      var t := tokenReader.ReadNext();
      if t.Hang? {
        return Diverges;
      } else if t.Malformed? {
        return LexError(states, t.at);
      }
      r := Respond(t.token, t.next);
      if r.Parsed? {
        emitted := emitted + [r.event];
        assert Balance(emitted) == Balance(old(emitted)) + Delta(r.event);
      }
    }

    /** The body of `readNext()` after its first token `token`, which ended at `next`. */
    method Respond(token: Token, next: nat) returns (r: Step)
      requires tokenReader.Valid() && tokenReader.pos == next <= |tokenReader.input|
      modifies this, tokenReader
      ensures tokenReader.Valid()
      ensures r == Reaction(old(states), token, tokenReader.input, next)
      ensures !r.Diverges? ==> states == r.stack
      ensures r.Parsed? ==> tokenReader.pos == r.next
      ensures unchanged(this`emitted)
    {
      if states == [] {
        if token == OpenBrace {
          states := [StartObjectFrame];
          r := Parsed(StartObject, states, next);
        } else if token == OpenBracket {
          states := [StartArrayFrame];
          r := Parsed(StartArray, states, next);
        } else if token == EndOfInput {
          r := Parsed(End, states, next);
        } else {
          r := SyntaxError(states, next);
        }
        return;
      }
      var state := Top(states);
      if state == StartArrayFrame {
        states := Pop(states);
        if token == CloseBracket {
          r := Parsed(EndArray, states, next);
        } else {
          states := states + [MidArray];
          var o := GetValue(token);
          r := Finish(o, next);
        }
      } else if state == StartObjectFrame {
        states := Pop(states);
        if token == CloseBrace {
          r := Parsed(EndObject, states, next);
        } else {
          states := states + [MidObject];
          var o := GetKey(token);
          r := Finish(o, next);
        }
      } else if state == KeyFrame {
        if token == Colon {
          states := Pop(states);
          r := ReadSecond(true);
        } else {
          r := SyntaxError(states, next);
        }
      } else if state == MidArray {
        if token == Comma {
          r := ReadSecond(true);
        } else if token == CloseBracket {
          states := Pop(states);
          r := Parsed(EndArray, states, next);
        } else {
          r := SyntaxError(states, next);
        }
      } else {
        if token == Comma {
          r := ReadSecond(false);
        } else if token == CloseBrace {
          states := Pop(states);
          r := Parsed(EndObject, states, next);
        } else {
          r := SyntaxError(states, next);
        }
      }
    }
  }
}
