/**
 * The event buffer of `StreamingJsonReader`, without its thread. The source
 * runs the parser on a thread of its own that appends events to a bounded
 * list, while `next()` removes them from the front; both sides wait on the
 * reader's monitor when they cannot go on. Here the producer and the
 * consumer are methods of one object, and where a side would wait the model
 * says so instead: the producer's preconditions are the conditions under which
 * it would not wait, and `Next` returns `WouldBlock`.
 */
module Reader {
  import opened Chars
  import opened Wrappers
  import opened Lexer
  import opened Events
  import opened Parser

  /** What `next()` does: returns an event, throws `IllegalStateException`, or waits. */
  datatype Delivery = Delivered(event: Event) | Exhausted | WouldBlock

  /** The number of events the buffer holds at most: `eventsToBuffer`, but at least 1. */
  function Capacity(eventsToBuffer: int): (n: nat)
    ensures n >= 1 && n >= eventsToBuffer
    ensures n == eventsToBuffer || (n == 1 && eventsToBuffer <= 1)
  {
    if eventsToBuffer > 1 then eventsToBuffer else 1
  }

  /** `next()` on a buffer in the state `events`, `done`: what it returns and what it leaves. */
  function Take(events: seq<Event>, done: bool): (r: (Delivery, seq<Event>))
    ensures r.0.Delivered? <==> events != []
    ensures r.0.Delivered? ==> [r.0.event] + r.1 == events
    ensures r.0 == Exhausted <==> events == [] && done
    ensures !r.0.Delivered? ==> r.1 == events
  {
    if events != [] then (Delivered(events[0]), events[1..])
    else if done then (Exhausted, events)
    else (WouldBlock, events)
  }

  class StreamingJsonReader {
    const parser: StreamingJsonParser
    /** The buffer, oldest event first. */
    var events: seq<Event>
    const bufferSize: nat
    var done: bool
    /** Every event ever put into the buffer, and those `next()` has returned. */
    ghost var appended: seq<Event>
    ghost var delivered: seq<Event>

    ghost predicate Valid()
      reads this, parser, parser.tokenReader
    {
      && parser.Valid()
      && bufferSize >= 1
      && |events| <= bufferSize
      && appended == [Start] + parser.emitted
      && delivered + events == appended
      && (done <==> End in parser.emitted)
      && (End in parser.emitted ==> End !in parser.emitted[..|parser.emitted| - 1])
    }

    /** The constructor, without starting the thread: the buffer is seeded with `START`. */
    constructor (reader: TokenReader, eventsToBuffer: int)
      requires reader.Valid()
      ensures Valid() && fresh(parser)
      ensures parser.tokenReader == reader && parser.states == []
      ensures bufferSize == Capacity(eventsToBuffer)
      ensures events == [Start] && !done && delivered == []
    {
      parser := new StreamingJsonParser(reader);
      bufferSize := Capacity(eventsToBuffer);
      events := [Start];
      done := false;
      appended := [Start];
      delivered := [];
    }

    /**
     * One turn of the producer loop, when the buffer has room and `END` has
     * not been produced: the parser's next event is appended, and `done` is
     * set exactly when it is `END`. A parser exception escapes the loop and
     * leaves the buffer as it was.
     */
    method Produce() returns (r: Step)
      requires Valid() && !done && |events| < bufferSize
      modifies this, parser, parser.tokenReader
      ensures r == ParseStep(old(parser.states), parser.tokenReader.input, old(parser.tokenReader.pos))
      ensures !r.Diverges? ==> Valid()
      ensures r.Parsed? ==> events == old(events) + [r.event] && done == (r.event == End)
      ensures !r.Parsed? ==> events == old(events) && !done
      ensures delivered == old(delivered)
    {
      r := parser.ReadNext();
      if r.Parsed? {
        if r.event == End {
          done := true;
        }
        events := events + [r.event];
        appended := appended + [r.event];
        EndOnlyLast(old(parser.emitted), r.event);
      }
    }

    /**
     * The producer loop run until it would wait: it appends events until the
     * buffer is full or `END` has been appended, and stops early when the
     * parser throws (or never returns).
     */
    method Fill() returns (failure: Option<Step>)
      requires Valid()
      modifies this, parser, parser.tokenReader
      ensures failure.None? ==> Valid() && (done || |events| == bufferSize)
      ensures failure.Some? ==> !failure.value.Parsed? && !done
      ensures failure.Some? && !failure.value.Diverges? ==> Valid()
      ensures old(events) <= events && delivered == old(delivered)
    {
      while !done && |events| < bufferSize
        invariant Valid() && old(events) <= events && delivered == old(delivered)
        decreases bufferSize - |events|
      {
        var r := Produce();
        if !r.Parsed? {
          return Some(r);
        }
      }
      return None;
    }

    /** `next()`: the oldest buffered event, even after `done` is set; `IllegalStateException` only once the buffer is empty and `END` has been produced. */
    method Next() returns (r: Delivery)
      requires Valid()
      modifies this
      ensures Valid()
      ensures (r, events) == Take(old(events), done)
      ensures done == old(done)
      ensures r.Delivered? ==> delivered == old(delivered) + [r.event]
      ensures !r.Delivered? ==> delivered == old(delivered)
    {
      if |events| > 0 {
        r := Delivered(events[0]);
        delivered := delivered + [events[0]];
        events := events[1..];
      } else if done {
        r := Exhausted;
      } else {
        r := WouldBlock;
      }
    }
  }

  /** Appending to events without `END`: `END` is then in them exactly when it is the one appended, and last. */
  lemma EndOnlyLast(before: seq<Event>, e: Event)
    requires End !in before
    ensures End in before + [e] <==> e == End
    ensures (before + [e])[..|before + [e]| - 1] == before
  {
    assert (before + [e])[..|before|] == before;
  }

  /** The first event a consumer ever receives is `START`. */
  lemma StartComesFirst(reader: StreamingJsonReader)
    requires reader.Valid() && reader.delivered != []
    ensures reader.delivered[0] == Start
  {
    assert (reader.delivered + reader.events)[0] == reader.delivered[0];
  }

  /**
   * Everything delivered so far is `START` followed by the parser's results
   * in the order it produced them, and nothing is ever delivered after `END`.
   */
  lemma DeliveredInOrder(reader: StreamingJsonReader)
    requires reader.Valid()
    ensures reader.delivered <= [Start] + reader.parser.emitted
    ensures End in reader.delivered ==> reader.delivered[|reader.delivered| - 1] == End && reader.events == []
  {
  }
}
