/** Cutting a streamed text into events at blank lines, one decoded chunk at a time. */
module EventStreams {
  import opened Sequences
  import opened Entries
  import opened Projections

  // ---------- where an event ends ----------

  /** Length of a line end at `i`: LF, CR LF, or none. */
  function LineEnd(text: string, i: nat): (length: nat)
    ensures length > 0 ==> i + length <= |text|
    ensures length <= 2
  {
    if i < |text| && text[i] == '\n' then 1
    else if i + 1 < |text| && text[i] == '\r' && text[i + 1] == '\n' then 2
    else 0
  }

  /** Length of two line ends in a row at `i`, or zero. */
  function BlankLine(text: string, i: nat): (length: nat)
    ensures length > 0 ==> i + length <= |text| && 2 <= length <= 4
  {
    var first := LineEnd(text, i);
    if first == 0 then 0
    else
      var second := LineEnd(text, i + first);
      if second == 0 then 0 else first + second
  }

  datatype Boundary = Boundary(index: nat, length: nat)

  /** The leftmost match at or after `from`. */
  function FindFrom(text: string, from: nat): (found: Option<Boundary>)
    requires from <= |text|
    ensures found.Some? ==> found.value.length >= 2 && found.value.index + found.value.length <= |text|
    decreases |text| - from
  {
    if BlankLine(text, from) > 0 then Some(Boundary(from, BlankLine(text, from)))
    else if from == |text| then None
    else FindFrom(text, from + 1)
  }

  predicate NoneBetween(text: string, from: nat, end: nat) {
    forall i :: from <= i < end ==> BlankLine(text, i) == 0
  }

  lemma {:induction false} FoundIsLeftmost(text: string, from: nat)
    requires from <= |text|
    ensures match FindFrom(text, from)
            case Some(b) => from <= b.index && b.length == BlankLine(text, b.index) > 0 && NoneBetween(text, from, b.index)
            case None => NoneBetween(text, from, |text| + 1)
    decreases |text| - from
  {
    if BlankLine(text, from) == 0 && from < |text| { FoundIsLeftmost(text, from + 1); }
  }

  lemma {:induction false} LeftmostIsFound(text: string, from: nat, b: Boundary)
    requires from <= b.index && b.length == BlankLine(text, b.index) > 0 && NoneBetween(text, from, b.index)
    ensures from <= |text| && FindFrom(text, from) == Some(b)
    decreases b.index - from
  {
    if from < b.index { LeftmostIsFound(text, from + 1, b); }
  }

  lemma {:induction false} NothingIsFound(text: string, from: nat)
    requires from <= |text| && NoneBetween(text, from, |text| + 1)
    ensures FindFrom(text, from) == None
    decreases |text| - from
  {
    if from < |text| { NothingIsFound(text, from + 1); }
  }

  function FindEventBoundary(text: string): (found: Option<Boundary>)
    ensures found.Some? ==> found.value.length >= 2 && found.value.index + found.value.length <= |text|
  {
    FindFrom(text, 0)
  }

  /** A blank line that is there stays, with its length. */
  lemma {:induction false} BlankLineStays(text: string, more: string, i: nat)
    requires BlankLine(text, i) > 0
    ensures BlankLine(text + more, i) == BlankLine(text, i)
  {
    var first := LineEnd(text, i);
    assert LineEnd(text + more, i) == first;
    assert LineEnd(text + more, i + first) == LineEnd(text, i + first);
  }

  /** More text never completes a blank line in front of one that is already there. */
  lemma {:induction false} NoEarlierBlankLine(text: string, more: string, i: nat, j: nat)
    requires j < i && BlankLine(text, i) > 0 && BlankLine(text, j) == 0
    ensures BlankLine(text + more, j) == 0
  {
    var longer := text + more;
    var first := LineEnd(longer, j);
    if first > 0 && LineEnd(longer, j + first) > 0 {
      // The second line end starts at most two places behind j, and one stands at i already.
      LineEndsAgree(text, more, j, i);
      LineEndsAgree(text, more, j + first, i);
    }
  }

  /** In front of a blank line, or inside its first line end, more text changes no line end. */
  lemma {:induction false} LineEndsAgree(text: string, more: string, j: nat, i: nat)
    requires BlankLine(text, i) > 0 && j <= i + LineEnd(text, i)
    ensures LineEnd(text + more, j) == LineEnd(text, j)
  {
    var e := i + LineEnd(text, i);
    assert e < |text|;
    forall k | 0 <= k < |text| ensures (text + more)[k] == text[k] { }
  }

  /** Extending the buffer never changes a match that was found, nor creates an earlier one. */
  lemma {:induction false} BoundaryStays(text: string, more: string)
    requires FindEventBoundary(text).Some?
    ensures FindEventBoundary(text + more) == FindEventBoundary(text)
  {
    var b := FindEventBoundary(text).value;
    FoundIsLeftmost(text, 0);
    BlankLineStays(text, more, b.index);
    forall j | 0 <= j < b.index ensures BlankLine(text + more, j) == 0 {
      NoEarlierBlankLine(text, more, b.index, j);
    }
    LeftmostIsFound(text + more, 0, b);
  }

  // ---------- the events of a text ----------

  datatype Framing = Framing(events: seq<string>, rest: string)

  /** The reference: cut at the leftmost blank line, again and again. */
  function Frames(text: string): Framing
    decreases |text|
  {
    match FindEventBoundary(text)
    case None => Framing([], text)
    case Some(b) => Behind(text[..b.index], Frames(text[b.index + b.length..]))
  }

  function Behind(event: string, later: Framing): Framing {
    Framing([event] + later.events, later.rest)
  }

  function Then(before: Framing, now: Framing): Framing {
    Framing(before.events + now.events, now.rest)
  }

  lemma {:induction false} CutBehind(a: string, b: string, i: nat, k: nat)
    requires i <= k <= |a|
    ensures (a + b)[..i] == a[..i] && (a + b)[k..] == a[k..] + b
  {
  }

  lemma {:induction false} BehindThen(event: string, later: Framing, now: Framing)
    ensures Behind(event, Then(later, now)) == Then(Behind(event, later), now)
  {
    ConcatAssociates([event], later.events, now.events);
  }

  lemma {:induction false} ThenFirst(rest: string, now: Framing)
    ensures Then(Framing([], rest), now) == now
  {
  }

  lemma {:induction false} FramesStep(text: string, b: Boundary)
    requires FindEventBoundary(text) == Some(b)
    ensures Frames(text) == Behind(text[..b.index], Frames(text[b.index + b.length..]))
  {
  }

  lemma {:induction false} CutContinues(a: string, b: string, cut: Boundary)
    requires FindEventBoundary(a) == Some(cut)
    requires var later := Frames(a[cut.index + cut.length..]);
             Frames(a[cut.index + cut.length..] + b) == Then(later, Frames(later.rest + b))
    ensures Frames(a + b) == Then(Frames(a), Frames(Frames(a).rest + b))
  {
    var after := cut.index + cut.length;
    BoundaryStays(a, b);
    CutBehind(a, b, cut.index, after);
    FramesStep(a, cut);
    FramesStep(a + b, cut);
    BehindThen(a[..cut.index], Frames(a[after..]), Frames(Frames(a).rest + b));
  }

  /** Framing what is left over of a first part together with the second part continues the framing
      of the first. */
  lemma {:induction false} FramesContinue(a: string, b: string)
    ensures Frames(a + b) == Then(Frames(a), Frames(Frames(a).rest + b))
    decreases |a|
  {
    if FindEventBoundary(a).Some? {
      var cut := FindEventBoundary(a).value;
      FramesContinue(a[cut.index + cut.length..], b);
      CutContinues(a, b, cut);
    } else {
      ThenFirst(a, Frames(a + b));
    }
  }

  function Join(chunks: seq<string>): string {
    if chunks == [] then "" else Join(chunks[..|chunks| - 1]) + chunks[|chunks| - 1]
  }

  /** Feeding chunk by chunk, keeping only what is left over. */
  function Feed(chunks: seq<string>): Framing {
    if chunks == [] then Framing([], "")
    else
      var before := Feed(chunks[..|chunks| - 1]);
      Then(before, Frames(before.rest + chunks[|chunks| - 1]))
  }

  /** However a text is cut into chunks, the events are those of the whole text. */
  lemma {:induction false} ChunkingIsInvisible(chunks: seq<string>)
    ensures Feed(chunks) == Frames(Join(chunks))
  {
    if chunks == [] {
      assert FindEventBoundary("").None?;
    } else {
      var init, last := chunks[..|chunks| - 1], chunks[|chunks| - 1];
      ChunkingIsInvisible(init);
      FramesContinue(Join(init), last);
    }
  }

  /** What the loop hands out in the end: the left-over text counts unless it is blank. */
  function RawEvents(text: string, flushed: string): seq<string> {
    var framing := Frames(text);
    if Blank(framing.rest + flushed) then framing.events else framing.events + [framing.rest + flushed]
  }

  // ---------- nothing is lost ----------

  predicate IsBlankLine(separator: string) {
    separator == "\n\n" || separator == "\r\n\n" || separator == "\n\r\n" || separator == "\r\n\r\n"
  }

  function Interleave(events: seq<string>, separators: seq<string>, rest: string): string
    requires |events| == |separators|
  {
    if events == [] then rest
    else events[0] + separators[0] + Interleave(events[1..], separators[1..], rest)
  }

  lemma {:induction false} CutIsBlankLine(text: string, i: nat)
    requires BlankLine(text, i) > 0
    ensures IsBlankLine(text[i..i + BlankLine(text, i)])
  {
    var first := LineEnd(text, i);
    var second := LineEnd(text, i + first);
    var separator := text[i..i + first + second];
    assert forall k :: 0 <= k < first + second ==> separator[k] == text[i + k];
  }

  /** No event and no left-over text contains a blank line of its own. */
  lemma {:induction false} NoneInside(text: string, end: nat)
    requires end <= |text| && NoneBetween(text, 0, end)
    ensures FindEventBoundary(text[..end]).None?
  {
    var part := text[..end];
    forall j | 0 <= j <= end ensures BlankLine(part, j) == 0 {
      if BlankLine(part, j) > 0 {
        SplitAt(text, end);
        BlankLineStays(part, text[end..], j);
      }
    }
    NothingIsFound(part, 0);
  }

  predicate Reassembles(framing: Framing, separators: seq<string>, text: string) {
    && |separators| == |framing.events|
    && (forall i :: 0 <= i < |separators| ==> IsBlankLine(separators[i]))
    && Interleave(framing.events, separators, framing.rest) == text
  }

  lemma {:induction false} ReassembleBehind(event: string, separator: string, later: Framing, separators: seq<string>, text: string)
    requires Reassembles(later, separators, text) && IsBlankLine(separator)
    ensures Reassembles(Behind(event, later), [separator] + separators, event + separator + text)
  {
    assert Behind(event, later).events[1..] == later.events && ([separator] + separators)[1..] == separators;
  }

  lemma {:induction false} ThreeParts(text: string, i: nat, k: nat)
    requires i <= k <= |text|
    ensures text[..i] + text[i..k] + text[k..] == text
  {
  }

  /** One event, one blank line, and the rest of a text. */
  predicate Divides(text: string, cut: Boundary, event: string, separator: string, tail: string) {
    && FindEventBoundary(text) == Some(cut)
    && event == text[..cut.index] && separator == text[cut.index..cut.index + cut.length]
    && tail == text[cut.index + cut.length..]
  }

  lemma {:induction false} DividedText(text: string, cut: Boundary, event: string, separator: string, tail: string)
    requires Divides(text, cut, event, separator, tail)
    ensures IsBlankLine(separator) && event + separator + tail == text
    ensures Frames(text) == Behind(event, Frames(tail))
  {
    FoundIsLeftmost(text, 0);
    CutIsBlankLine(text, cut.index);
    ThreeParts(text, cut.index, cut.index + cut.length);
    FramesStep(text, cut);
  }

  lemma {:induction false} CutConserves(text: string, cut: Boundary, event: string, separator: string, tail: string, later: seq<string>)
    requires Divides(text, cut, event, separator, tail) && Reassembles(Frames(tail), later, tail)
    ensures Reassembles(Frames(text), [separator] + later, text)
  {
    DividedText(text, cut, event, separator, tail);
    ReassembleBehind(event, separator, Frames(tail), later, tail);
  }

  /** The text is its events with a blank line behind each, then the rest. */
  lemma {:induction false} FramingConserves(text: string) returns (separators: seq<string>)
    ensures Reassembles(Frames(text), separators, text)
    decreases |text|
  {
    if FindEventBoundary(text).None? {
      separators := [];
    } else {
      var cut := FindEventBoundary(text).value;
      var separator, tail := text[cut.index..cut.index + cut.length], text[cut.index + cut.length..];
      var later := FramingConserves(tail);
      CutConserves(text, cut, text[..cut.index], separator, tail, later);
      separators := [separator] + later;
    }
  }

  /** No event could have been cut earlier, and nothing in the rest is complete. */
  lemma {:induction false} EventsAreWhole(text: string)
    ensures forall i :: 0 <= i < |Frames(text).events| ==> FindEventBoundary(Frames(text).events[i]).None?
    ensures FindEventBoundary(Frames(text).rest).None?
    decreases |text|
  {
    if FindEventBoundary(text).Some? {
      var cut := FindEventBoundary(text).value;
      FoundIsLeftmost(text, 0);
      NoneInside(text, cut.index);
      FramesStep(text, cut);
      EventsAreWhole(text[cut.index + cut.length..]);
    }
  }

  // ---------- the read loop ----------

  /** Whether handling an event throws, given the events handled before it. */
  type Handler = (seq<string>, string) -> bool

  /** The events that are handled: all, or those up to the first whose handling throws. */
  function Handled(events: seq<string>, throws: Handler): seq<string> {
    if events == [] then []
    else
      var init, last := events[..|events| - 1], events[|events| - 1];
      if Stopped(init, throws) then Handled(init, throws) else init + [last]
  }

  predicate Stopped(events: seq<string>, throws: Handler) {
    events != [] &&
    var init, last := events[..|events| - 1], events[|events| - 1];
    Stopped(init, throws) || throws(init, last)
  }

  lemma {:induction false} RunningHandlesAll(events: seq<string>, throws: Handler)
    requires !Stopped(events, throws)
    ensures Handled(events, throws) == events
  {
    if events != [] { InitAndLast(events); }
  }

  lemma {:induction false} StoppedStays(events: seq<string>, more: seq<string>, throws: Handler)
    requires Stopped(events, throws)
    ensures Stopped(events + more, throws) && Handled(events + more, throws) == Handled(events, throws)
  {
    if more == [] {
      ConcatNothing(events);
    } else {
      ConcatSnoc(events, more);
      StoppedStays(events, more[..|more| - 1], throws);
    }
  }

  lemma {:induction false} HandleNext(events: seq<string>, event: string, throws: Handler)
    requires !Stopped(events, throws)
    ensures Stopped(events + [event], throws) == throws(events, event)
    ensures Handled(events + [event], throws) == events + [event]
  {
    Snoc(events, event);
  }

  /** What was handled and what the buffer still holds make up what was to be handled. */
  predicate Draining(all: seq<string>, handled: seq<string>, buffer: string) {
    all == handled + Frames(buffer).events
  }

  lemma {:induction false} DrainStep(all: seq<string>, handled: seq<string>, buffer: string, cut: Boundary, event: string, later: string)
    requires FindEventBoundary(buffer) == Some(cut) && Draining(all, handled, buffer)
    requires event == buffer[..cut.index] && later == buffer[cut.index + cut.length..]
    ensures Draining(all, handled + [event], later) && Frames(later).rest == Frames(buffer).rest
  {
    FramesStep(buffer, cut);
    ConcatAssociates(handled, [event], Frames(later).events);
  }

  /** Hands over every complete event of the buffer, until one throws. */
  method Drain(before: seq<string>, text: string, throws: Handler)
    returns (handled: seq<string>, buffer: string, threw: bool)
    requires !Stopped(before, throws)
    ensures Draining(before + Frames(text).events, handled, buffer) && Frames(buffer).rest == Frames(text).rest
    ensures !threw ==> FindEventBoundary(buffer).None? && !Stopped(handled, throws)
    ensures threw ==> Stopped(handled, throws) && Handled(handled, throws) == handled
  {
    handled, buffer, threw := before, text, false;
    ghost var all := before + Frames(text).events;
    var boundary := FindEventBoundary(buffer);
    while boundary.Some?
      invariant !Stopped(handled, throws) && boundary == FindEventBoundary(buffer)
      invariant Draining(all, handled, buffer) && Frames(text).rest == Frames(buffer).rest
      decreases |buffer|
    {
      var event := buffer[..boundary.value.index];
      var later := buffer[boundary.value.index + boundary.value.length..];
      HandleNext(handled, event, throws);
      DrainStep(all, handled, buffer, boundary.value, event, later);
      threw := throws(handled, event);
      handled, buffer := handled + [event], later;
      if threw { return; }
      boundary := FindEventBoundary(buffer);
    }
  }

  /** The handler gets the events of the whole text, in order, however the text was chunked. */
  method ReadEvents(chunks: seq<string>, flushed: string, throws: Handler)
    returns (handled: seq<string>, threw: bool)
    ensures threw == Stopped(RawEvents(Join(chunks), flushed), throws)
    ensures handled == Handled(RawEvents(Join(chunks), flushed), throws)
  {
    var buffer := "";
    handled, threw := [], false;
    for i := 0 to |chunks|
      invariant !Stopped(handled, throws)
      invariant Feed(chunks[..i]) == Framing(handled, buffer)
    {
      TakeOneMore(chunks, i);
      handled, buffer, threw := Drain(handled, buffer + chunks[i], throws);
      if threw {
        PrefixBehind(handled, Frames(buffer).events, |Frames(buffer).events|);
        StopsEarly(chunks, i, flushed, handled, throws);
        return;
      }
      ConcatNothing(handled);
    }
    TakeAll(chunks);
    ChunkingIsInvisible(chunks);
    RunningHandlesAll(handled, throws);
    if !Blank(buffer + flushed) {
      HandleNext(handled, buffer + flushed, throws);
      threw := throws(handled, buffer + flushed);
      handled := handled + [buffer + flushed];
    }
  }

  /** A handler that throws ends the reading, whatever is still to come. */
  lemma {:induction false} StopsEarly(chunks: seq<string>, i: nat, flushed: string, handled: seq<string>, throws: Handler)
    requires i < |chunks| && handled <= Feed(chunks[..i + 1]).events
    requires Stopped(handled, throws) && Handled(handled, throws) == handled
    ensures Stopped(RawEvents(Join(chunks), flushed), throws)
    ensures Handled(RawEvents(Join(chunks), flushed), throws) == handled
  {
    FeedGrows(chunks, i + 1);
    ChunkingIsInvisible(chunks);
    var all := RawEvents(Join(chunks), flushed);
    assert handled <= Feed(chunks).events <= all;
    assert handled + all[|handled|..] == all;
    StoppedStays(handled, all[|handled|..], throws);
  }

  lemma {:induction false} FeedGrows(chunks: seq<string>, i: nat)
    requires i <= |chunks|
    ensures Feed(chunks[..i]).events <= Feed(chunks).events
  {
    if i == |chunks| {
      TakeAll(chunks);
    } else {
      PrefixOfInit(chunks, i);
      FeedGrows(chunks[..|chunks| - 1], i);
    }
  }
}
