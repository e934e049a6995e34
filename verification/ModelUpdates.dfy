/** Incremental model updates: when the messages handed out after a previous head really
    continue the view at that head. */
module ModelUpdates {
  import opened Sequences
  import opened Entries
  import opened Projections
  import opened JournalPaths
  import opened Journals
  import opened Provenance

  // ---------- the shape of a replay without edits and compactions ----------

  /** Entries that place a message and therefore flush the buffered tool results first. */
  predicate Flushes(entry: Entry) {
    entry.payload.ModelLoadout? || (MessageOf(entry).Some? && !entry.payload.ToolExecution?)
  }

  predicate HasFlush(delta: seq<Entry>) {
    exists i :: 0 <= i < |delta| && Flushes(delta[i])
  }

  predicate Plain(entry: Entry) {
    !entry.payload.Edit? && !(entry.payload.Compaction? && entry.payload.view.Some?)
  }

  /** The tool results that join the buffer before anything flushes it. */
  function LeadingTools(delta: seq<Entry>): (tools: seq<Entry>)
    ensures OnlyTools(tools)
    ensures forall i :: 0 <= i < |tools| ==> tools[i] in delta
  {
    if delta == [] then []
    else
      var init, last := delta[..|delta| - 1], delta[|delta| - 1];
      LeadingTools(init) + if last.payload.ToolExecution? && !HasFlush(init) then [last] else []
  }

  function FramesOf(delta: seq<Entry>): seq<Frame> {
    if delta == [] then []
    else
      var init, last := delta[..|delta| - 1], delta[|delta| - 1];
      FramesOf(init) +
      if last.payload.AssistantFrame? && last.payload.frame.Some? then [last.payload.frame.value] else []
  }

  function Placed(before: Projection, delta: seq<Entry>): (placed: seq<Message>)
    requires OnlyTools(before.tools)
  {
    var pending := before.tools + LeadingTools(delta);
    OrderedToolsSorts(pending);
    before.timeline + ToolMessages(OrderedTools(pending))
  }

  /** After the buffer has been flushed: the old timeline, the sorted buffer, then what flushed it. */
  predicate FlushedShape(before: Projection, delta: seq<Entry>, after: Projection)
    requires OnlyTools(before.tools)
  {
    var placed := Placed(before, delta);
    placed < after.timeline && after.timeline[|placed|].id.Some? &&
    after.timeline[|placed|].id.value in EntryIds(delta)
  }

  predicate BufferedShape(before: Projection, delta: seq<Entry>, after: Projection) {
    after.timeline == before.timeline && after.tools == before.tools + LeadingTools(delta) &&
    after.frames == before.frames + FramesOf(delta)
  }

  predicate Shape(before: Projection, delta: seq<Entry>, after: Projection)
    requires OnlyTools(before.tools)
  {
    after.edits == before.edits &&
    if HasFlush(delta) then FlushedShape(before, delta, after) else BufferedShape(before, delta, after)
  }

  /** The message a flushing entry puts behind the flushed buffer. */
  lemma {:induction false} FlushingStep(projection: Projection, entry: Entry) returns (message: Message)
    requires OnlyTools(projection.tools) && Flushes(entry) && Apply(projection, entry).Ok?
    ensures message.id == Some(entry.id)
    ensures Apply(projection, entry).value.timeline ==
            projection.timeline + PendingMessages(projection) + [message]
    ensures Apply(projection, entry).value.edits == projection.edits
  {
    message := if entry.payload.ModelLoadout?
      then LoadoutMessage(entry.id, entry.payload.loadout.value, projection.loadout)
      else MessageOf(entry).value;
  }

  lemma {:induction false} BufferingStep(projection: Projection, entry: Entry)
    requires OnlyTools(projection.tools) && Plain(entry) && !Flushes(entry)
    ensures
      var after := Apply(projection, entry).value;
      && after.edits == projection.edits && after.timeline == projection.timeline
      && after.tools == projection.tools + (if entry.payload.ToolExecution? then [entry] else [])
      && after.frames == projection.frames + FramesOf([entry])
  {
    assert FramesOf([entry]) == FramesOf([]) +
      if entry.payload.AssistantFrame? && entry.payload.frame.Some? then [entry.payload.frame.value] else []
    by { assert [entry][..0] == []; }
  }

  lemma {:induction false} LongerByOne(a: seq<Message>, pending: seq<Message>, message: Message, longer: seq<Message>)
    requires longer == a + pending + [message]
    ensures a < longer && a + pending < longer && longer[|a + pending|] == message
  {
  }

  lemma {:induction false} HasFlushSnoc(delta: seq<Entry>)
    requires delta != []
    ensures HasFlush(delta) <==> HasFlush(delta[..|delta| - 1]) || Flushes(delta[|delta| - 1])
  {
    var init := delta[..|delta| - 1];
    if HasFlush(init) {
      var i :| 0 <= i < |init| && Flushes(init[i]);
      assert Flushes(delta[i]);
    }
    if HasFlush(delta) {
      var i :| 0 <= i < |delta| && Flushes(delta[i]);
      if i < |init| { assert Flushes(init[i]); }
    }
  }

  /** Once flushed, later growth of the timeline keeps the shape. */
  lemma {:induction false} FlushedShapeGrows(before: Projection, delta: seq<Entry>, middle: Projection, after: Projection)
    requires OnlyTools(before.tools) && delta != [] && HasFlush(delta[..|delta| - 1])
    requires FlushedShape(before, delta[..|delta| - 1], middle)
    requires middle.timeline <= after.timeline
    ensures FlushedShape(before, delta, after)
  {
    EntryIdsSnoc(delta);
    var init := delta[..|delta| - 1];
    assert LeadingTools(delta) == LeadingTools(init) + [] == LeadingTools(init);
    assert Placed(before, delta) == Placed(before, init);
    var placed := Placed(before, init);
    assert after.timeline[|placed|] == middle.timeline[|placed|];
    assert after.timeline[..|placed|] == middle.timeline[..|placed|];
  }

  lemma {:induction false} FlushedShapeBegins(before: Projection, delta: seq<Entry>, middle: Projection, after: Projection, message: Message)
    requires OnlyTools(before.tools) && OnlyTools(middle.tools) && delta != []
    requires BufferedShape(before, delta[..|delta| - 1], middle)
    requires Flushes(delta[|delta| - 1]) && message.id == Some(delta[|delta| - 1].id)
    requires after.timeline == middle.timeline + PendingMessages(middle) + [message]
    ensures FlushedShape(before, delta, after)
  {
    EntryIdsSnoc(delta);
    var init := delta[..|delta| - 1];
    assert LeadingTools(delta) == LeadingTools(init) + [] == LeadingTools(init);
    assert Placed(before, delta) == Placed(before, init);
    assert Placed(before, delta) == middle.timeline + PendingMessages(middle);
    LongerByOne(middle.timeline, PendingMessages(middle), message, after.timeline);
  }

  lemma {:induction false} ShapeStep(before: Projection, delta: seq<Entry>, middle: Projection, after: Projection)
    requires OnlyTools(before.tools) && OnlyTools(middle.tools) && delta != []
    requires Shape(before, delta[..|delta| - 1], middle)
    requires Plain(delta[|delta| - 1]) && Apply(middle, delta[|delta| - 1]) == Ok(after)
    ensures Shape(before, delta, after)
  {
    var init, last := delta[..|delta| - 1], delta[|delta| - 1];
    HasFlushSnoc(delta);
    if Flushes(last) {
      var message := FlushingStep(middle, last);
      LongerByOne(middle.timeline, PendingMessages(middle), message, after.timeline);
      if HasFlush(init) {
        FlushedShapeGrows(before, delta, middle, after);
      } else {
        FlushedShapeBegins(before, delta, middle, after, message);
      }
    } else {
      BufferingStep(middle, last);
      if HasFlush(init) {
        FlushedShapeGrows(before, delta, middle, after);
      } else {
        FramesSnoc(delta);
      }
    }
  }

  lemma {:induction false} FramesSnoc(delta: seq<Entry>)
    requires delta != []
    ensures FramesOf(delta) == FramesOf(delta[..|delta| - 1]) + FramesOf([delta[|delta| - 1]])
  {
    assert [delta[|delta| - 1]][..0] == [];
    assert FramesOf([]) == [];
  }

  lemma {:induction false} ReplayShape(before: Projection, delta: seq<Entry>)
    requires OnlyTools(before.tools) && FoldFrom(before, delta).Ok?
    requires forall i :: 0 <= i < |delta| ==> Plain(delta[i])
    ensures Shape(before, delta, FoldFrom(before, delta).value)
  {
    if delta != [] {
      ReplayShape(before, delta[..|delta| - 1]);
      ShapeStep(before, delta, FoldFrom(before, delta[..|delta| - 1]).value, FoldFrom(before, delta).value);
    }
  }

  // ---------- sorting a longer buffer ----------

  predicate NoneLarger(a: seq<Entry>, b: seq<Entry>) {
    forall i, j :: 0 <= i < |a| && 0 <= j < |b| ==> SourceKey(a[i]) <= SourceKey(b[j])
  }

  lemma {:induction false} InsertBehind(front: seq<Entry>, sorted: seq<Entry>, entry: Entry)
    requires NoneLarger(front, [entry])
    ensures Insert(front + sorted, entry) == front + Insert(sorted, entry)
  {
    if sorted == [] {
      assert front + sorted == front;
      assert front != [] ==> SourceKey(front[|front| - 1]) <= SourceKey([entry][0]);
    } else {
      InsertBehind(front, sorted[..|sorted| - 1], entry);
      assert (front + sorted)[..|front + sorted| - 1] == front + sorted[..|sorted| - 1];
    }
  }

  /** Results that sort no earlier than the buffer leave the order of the buffer alone. */
  lemma {:induction false} OrderedToolsAppend(a: seq<Entry>, b: seq<Entry>)
    requires NoneLarger(a, b)
    ensures OrderedTools(a + b) == OrderedTools(a) + OrderedTools(b)
  {
    if b == [] {
      assert a + b == a;
    } else {
      var init, last := b[..|b| - 1], b[|b| - 1];
      OrderedToolsAppend(a, init);
      assert (a + b)[..|a + b| - 1] == a + init;
      OrderedToolsSorts(a);
      forall i | 0 <= i < |OrderedTools(a)| ensures SourceKey(OrderedTools(a)[i]) <= SourceKey(last) {
        assert OrderedTools(a)[i] in a;
        assert last == b[|b| - 1];
      }
      InsertBehind(OrderedTools(a), OrderedTools(init), last);
    }
  }

  lemma {:induction false} NotInBoth(a: seq<Entry>, b: seq<Entry>, entry: Entry)
    requires DistinctIds(a + b)
    requires entry in b
    ensures entry !in a
  {
    var j :| 0 <= j < |b| && b[j] == entry;
    forall i | 0 <= i < |a| ensures a[i] != entry {
      assert (a + b)[i].id != (a + b)[|a| + j].id;
    }
  }

  /** And only those do. */
  lemma {:induction false} OrderedPrefixMeansNoneLarger(a: seq<Entry>, b: seq<Entry>)
    requires DistinctIds(a + b)
    requires OrderedTools(a) <= OrderedTools(a + b)
    ensures NoneLarger(a, b)
  {
    var short, long := OrderedTools(a), OrderedTools(a + b);
    OrderedToolsSorts(a);
    OrderedToolsSorts(a + b);
    forall i, j | 0 <= i < |a| && 0 <= j < |b| ensures SourceKey(a[i]) <= SourceKey(b[j]) {
      NotInBoth(a, b, b[j]);
      assert a[i] in short && (a + b)[|a| + j] == b[j] && b[j] in long;
      var k :| 0 <= k < |short| && short[k] == a[i];
      var l :| 0 <= l < |long| && long[l] == b[j];
      forall m | 0 <= m < |short| ensures long[m] != b[j] {
        assert long[m] == short[m] && short[m] in a;
      }
      assert long[k] == short[k];
    }
  }

  // ---------- edits on messages that were never edited ----------

  predicate Unedited(messages: seq<Message>, edits: map<Id, Option<Message>>) {
    forall i :: 0 <= i < |messages| && messages[i].id.Some? ==> messages[i].id.value !in edits
  }

  lemma {:induction false} UneditedStays(messages: seq<Message>, edits: map<Id, Option<Message>>)
    requires Unedited(messages, edits)
    ensures ProjectEdits(messages, edits) == messages
  {
    if messages != [] {
      UneditedStays(messages[..|messages| - 1], edits);
      InitAndLast(messages);
    }
  }

  lemma {:induction false} SplitUnedited(front: seq<Message>, all: seq<Message>, edits: map<Id, Option<Message>>)
    requires front <= all && Unedited(front, edits)
    ensures ProjectEdits(all, edits) == front + ProjectEdits(all[|front|..], edits)
  {
    UneditedStays(front, edits);
    ProjectEditsDistributes(front, all[|front|..], edits);
    assert all == front + all[|front|..];
  }

  lemma {:induction false} ToolsUnedited(tools: seq<Entry>, edits: map<Id, Option<Message>>)
    requires OnlyTools(tools) && EntryIds(tools) !! edits.Keys
    ensures OnlyTools(OrderedTools(tools))
    ensures Unedited(ToolMessages(OrderedTools(tools)), edits)
    ensures |OrderedTools(tools)| == |tools|
  {
    OrderedToolsSorts(tools);
    SameEntryIds(OrderedTools(tools), tools);
    var ordered := OrderedTools(tools);
    forall i | 0 <= i < |ordered| ensures ordered[i].id !in edits {
      assert ordered[i].id in EntryIds(ordered);
    }
  }

  // ---------- when an update continues the previous view ----------

  /** The guard a caller can evaluate on the entries: with no frames pending, no result that joins
      the buffer sorts before a buffered one; with frames pending, nothing is placed, no result
      joins, and the new frames rebuild the same unfinished message. */
  predicate Continues(before: Projection, delta: seq<Entry>) {
    if before.frames == [] then NoneLarger(before.tools, LeadingTools(delta))
    else
      && !HasFlush(delta) && LeadingTools(delta) == []
      && ReduceAssistantFrames(before.frames + FramesOf(delta)) == ReduceAssistantFrames(before.frames)
  }

  lemma {:induction false} PrefixProjects(a: seq<Message>, b: seq<Message>, edits: map<Id, Option<Message>>)
    requires a <= b
    ensures ProjectEdits(a, edits) <= ProjectEdits(b, edits)
  {
    ProjectEditsDistributes(a, b[|a|..], edits);
    assert b == a + b[|a|..];
  }

  lemma {:induction false} ShownIsPlaced(before: Projection, delta: seq<Entry>)
    requires OnlyTools(before.tools) && before.frames == []
    requires NoneLarger(before.tools, LeadingTools(delta))
    ensures before.timeline + Tail(before) <= Placed(before, delta)
  {
    var joined := LeadingTools(delta);
    OrderedToolsAppend(before.tools, joined);
    OrderedToolsSorts(before.tools + joined);
    ConcatNothing(PendingMessages(before));
    assert PendingMessages(before) <= ToolMessages(OrderedTools(before.tools + joined));
  }

  lemma {:induction false} PlacedIsShown(before: Projection, delta: seq<Entry>, after: Projection)
    requires OnlyTools(before.tools) && OnlyTools(after.tools) && Shape(before, delta, after)
    ensures Placed(before, delta) <= after.timeline + Tail(after)
  {
    if !HasFlush(delta) {
      assert Placed(before, delta) == after.timeline + PendingMessages(after);
    }
  }

  /** With no frames pending and the order kept, what was visible stays in place. */
  lemma {:induction false} SettledContinues(before: Projection, delta: seq<Entry>, after: Projection)
    requires OnlyTools(before.tools) && OnlyTools(after.tools) && before.frames == []
    requires Shape(before, delta, after)
    requires NoneLarger(before.tools, LeadingTools(delta))
    ensures View(before) <= View(after)
  {
    ShownIsPlaced(before, delta);
    PlacedIsShown(before, delta, after);
    PrefixProjects(before.timeline + Tail(before), after.timeline + Tail(after), before.edits);
  }

  lemma {:induction false} FramedContinues(before: Projection, delta: seq<Entry>, after: Projection)
    requires OnlyTools(before.tools) && OnlyTools(after.tools) && before.frames != []
    requires Shape(before, delta, after) && Continues(before, delta)
    ensures View(before) == View(after)
  {
    ConcatNothing(before.tools);
  }

  /** What follows the old timeline in the new one. */
  function Rest(before: Projection, after: Projection): seq<Message>
    requires OnlyTools(after.tools)
    requires before.timeline <= after.timeline
  {
    after.timeline[|before.timeline|..] + Tail(after)
  }

  lemma {:induction false} StripPrefix(shared: seq<Message>, short: seq<Message>, long: seq<Message>)
    requires shared + short <= shared + long
    ensures short <= long
  {
    assert short == (shared + short)[|shared|..];
    assert long == (shared + long)[|shared|..];
    forall i | 0 <= i < |short| ensures short[i] == long[i] {
      assert (shared + short)[|shared| + i] == (shared + long)[|shared| + i];
    }
  }

  lemma {:induction false} StripProjected(shared: seq<Message>, short: seq<Message>, long: seq<Message>, edits: map<Id, Option<Message>>)
    requires ProjectEdits(shared + short, edits) <= ProjectEdits(shared + long, edits)
    ensures ProjectEdits(short, edits) <= ProjectEdits(long, edits)
  {
    ProjectEditsDistributes(shared, short, edits);
    ProjectEditsDistributes(shared, long, edits);
    StripPrefix(ProjectEdits(shared, edits), ProjectEdits(short, edits), ProjectEdits(long, edits));
  }

  /** A prefix relation between the views is one between what follows the common timeline. */
  lemma {:induction false} RestCompletes(before: Projection, after: Projection)
    requires OnlyTools(after.tools) && before.timeline <= after.timeline
    ensures after.timeline + Tail(after) == before.timeline + Rest(before, after)
  {
    var shared := after.timeline[..|before.timeline|];
    assert shared == before.timeline;
    SplitAt(after.timeline, |before.timeline|);
    ConcatAssociates(shared, after.timeline[|before.timeline|..], Tail(after));
  }

  lemma {:induction false} ComparesBeyondTimeline(before: Projection, after: Projection)
    requires OnlyTools(before.tools) && OnlyTools(after.tools)
    requires before.timeline <= after.timeline && before.edits == after.edits
    requires View(before) <= View(after)
    ensures ProjectEdits(Tail(before), before.edits) <= ProjectEdits(Rest(before, after), before.edits)
  {
    RestCompletes(before, after);
    StripProjected(before.timeline, Tail(before), Rest(before, after), before.edits);
  }

  /** Whatever happened, the old timeline is followed by the joined buffer, sorted. */
  lemma {:induction false} RestBegins(before: Projection, delta: seq<Entry>, after: Projection)
    requires OnlyTools(before.tools) && OnlyTools(after.tools)
    requires Shape(before, delta, after)
    ensures OnlyTools(OrderedTools(before.tools + LeadingTools(delta)))
    ensures before.timeline <= after.timeline
    ensures ToolMessages(OrderedTools(before.tools + LeadingTools(delta))) <= Rest(before, after)
  {
    var joined := before.tools + LeadingTools(delta);
    OrderedToolsSorts(joined);
    if HasFlush(delta) {
      PrefixSplit(before.timeline, ToolMessages(OrderedTools(joined)), after.timeline, Tail(after));
    } else {
      BufferedRest(before, delta, after);
    }
  }

  lemma {:induction false} BufferedRest(before: Projection, delta: seq<Entry>, after: Projection)
    requires OnlyTools(before.tools) && OnlyTools(after.tools) && BufferedShape(before, delta, after)
    ensures PendingMessages(after) <= Rest(before, after)
  {
    var nothing := after.timeline[|before.timeline|..];
    assert nothing == [];
    ConcatNothing(Tail(after));
  }

  lemma {:induction false} PrefixSplit(a: seq<Message>, b: seq<Message>, longer: seq<Message>, tail: seq<Message>)
    requires a + b <= longer
    ensures a <= longer && b <= longer[|a|..] + tail
  {
    assert a + b == longer[..|a + b|];
    assert a == longer[..|a|] by {
      forall i | 0 <= i < |a| ensures a[i] == longer[i] { assert (a + b)[i] == longer[i]; }
    }
    forall i | 0 <= i < |b| ensures b[i] == (longer[|a|..] + tail)[i] {
      assert (a + b)[|a| + i] == longer[|a| + i];
    }
  }

  lemma {:induction false} PrefixOfMessages(a: seq<Entry>, b: seq<Entry>, x: seq<Message>)
    requires OnlyTools(a) && OnlyTools(b) && |a| <= |b|
    requires ToolMessages(a) <= ToolMessages(b) + x
    requires forall i, j :: 0 <= i < |a| && 0 <= j < |b| && a[i].id == b[j].id ==> a[i] == b[j]
    ensures a <= b
  {
    forall i | 0 <= i < |a| ensures a[i] == b[i] {
      assert ToolMessages(a)[i] == (ToolMessages(b) + x)[i];
    }
  }

  lemma {:induction false} SameIdSameEntry(a: seq<Entry>, b: seq<Entry>, all: seq<Entry>)
    requires DistinctIds(all)
    requires (forall entry :: entry in a ==> entry in all) && (forall entry :: entry in b ==> entry in all)
    ensures forall i, j :: 0 <= i < |a| && 0 <= j < |b| && a[i].id == b[j].id ==> a[i] == b[j]
  {
    forall i, j | 0 <= i < |a| && 0 <= j < |b| && a[i].id == b[j].id ensures a[i] == b[j] {
      assert a[i] in all && b[j] in all;
    }
  }

  /** Nothing that was buffered or arrives can have been edited. */
  predicate Untouched(before: Projection, delta: seq<Entry>) {
    && EntryIds(before.tools) !! before.edits.Keys
    && EntryIds(delta) !! before.edits.Keys
    && DistinctIds(before.tools + LeadingTools(delta))
  }

  lemma {:induction false} JoinedUnedited(before: Projection, delta: seq<Entry>)
    requires OnlyTools(before.tools) && Untouched(before, delta)
    ensures EntryIds(before.tools + LeadingTools(delta)) !! before.edits.Keys
  {
    EntryIdsConcat(before.tools, LeadingTools(delta));
    var joined := LeadingTools(delta);
    forall i | 0 <= i < |joined| ensures joined[i].id in EntryIds(delta) {
      assert joined[i] in delta;
    }
  }

  /** The unedited buffer at the previous head is a prefix of the joined buffer and what follows. */
  lemma {:induction false} BuffersCompare(before: Projection, delta: seq<Entry>, after: Projection) returns (beyond: seq<Message>)
    requires OnlyTools(before.tools) && OnlyTools(after.tools)
    requires Shape(before, delta, after) && Untouched(before, delta)
    requires View(before) <= View(after)
    ensures OnlyTools(OrderedTools(before.tools + LeadingTools(delta)))
    ensures
      var placed := ToolMessages(OrderedTools(before.tools + LeadingTools(delta)));
      && placed <= Rest(before, after)
      && beyond == ProjectEdits(Rest(before, after)[|placed|..], before.edits)
      && PendingMessages(before) + PartialMessages(before) <= placed + beyond
  {
    RestBegins(before, delta, after);
    ComparesBeyondTimeline(before, after);
    var placed := ToolMessages(OrderedTools(before.tools + LeadingTools(delta)));
    beyond := ProjectEdits(Rest(before, after)[|placed|..], before.edits);
    TailUnedited(before, delta);
    PlacedUnedited(before, delta, Rest(before, after));
  }

  lemma {:induction false} TailUnedited(before: Projection, delta: seq<Entry>)
    requires OnlyTools(before.tools) && Untouched(before, delta)
    ensures ProjectEdits(Tail(before), before.edits) == PendingMessages(before) + PartialMessages(before)
  {
    ToolsUnedited(before.tools, before.edits);
    UneditedStays(Tail(before), before.edits);
  }

  lemma {:induction false} PlacedUnedited(before: Projection, delta: seq<Entry>, rest: seq<Message>)
    requires OnlyTools(before.tools) && Untouched(before, delta)
    requires OnlyTools(OrderedTools(before.tools + LeadingTools(delta)))
    requires ToolMessages(OrderedTools(before.tools + LeadingTools(delta))) <= rest
    ensures
      var placed := ToolMessages(OrderedTools(before.tools + LeadingTools(delta)));
      ProjectEdits(rest, before.edits) == placed + ProjectEdits(rest[|placed|..], before.edits)
  {
    var joined := before.tools + LeadingTools(delta);
    JoinedUnedited(before, delta);
    ToolsUnedited(joined, before.edits);
    SplitUnedited(ToolMessages(OrderedTools(joined)), rest, before.edits);
  }

  lemma {:induction false} SettledNeedsOrder(before: Projection, delta: seq<Entry>, after: Projection)
    requires OnlyTools(before.tools) && OnlyTools(after.tools) && before.frames == []
    requires Shape(before, delta, after) && Untouched(before, delta)
    requires View(before) <= View(after)
    ensures NoneLarger(before.tools, LeadingTools(delta))
  {
    var beyond := BuffersCompare(before, delta, after);
    var joined := before.tools + LeadingTools(delta);
    OrderedToolsSorts(before.tools);
    OrderedToolsSorts(joined);
    var short, long := OrderedTools(before.tools), OrderedTools(joined);
    assert PendingMessages(before) + PartialMessages(before) == ToolMessages(short);
    SameIdSameEntry(short, long, joined);
    PrefixOfMessages(short, long, beyond);
    OrderedPrefixMeansNoneLarger(before.tools, LeadingTools(delta));
  }

  /** The message that flushed the buffer is visible and identified. */
  lemma {:induction false} FlusherIsIdentified(before: Projection, delta: seq<Entry>, after: Projection)
    requires OnlyTools(before.tools) && OnlyTools(after.tools) && HasFlush(delta)
    requires Shape(before, delta, after) && Untouched(before, delta)
    ensures OnlyTools(OrderedTools(before.tools + LeadingTools(delta)))
    ensures before.timeline <= after.timeline
    ensures
      var count := |ToolMessages(OrderedTools(before.tools + LeadingTools(delta)))|;
      count <= |Rest(before, after)| &&
      var beyond := ProjectEdits(Rest(before, after)[count..], before.edits);
      beyond != [] && beyond[0].id.Some?
  {
    RestBegins(before, delta, after);
    var count := |ToolMessages(OrderedTools(before.tools + LeadingTools(delta)))|;
    FlusherFollows(before, delta, after);
    var beyond := Rest(before, after)[count..];
    assert beyond[0] == Rest(before, after)[count];
    SplitUnedited([beyond[0]], beyond, before.edits);
  }

  lemma {:induction false} FlusherFollows(before: Projection, delta: seq<Entry>, after: Projection)
    requires OnlyTools(before.tools) && OnlyTools(after.tools) && FlushedShape(before, delta, after)
    requires OnlyTools(OrderedTools(before.tools + LeadingTools(delta)))
    requires before.timeline <= after.timeline
    ensures
      var count := |ToolMessages(OrderedTools(before.tools + LeadingTools(delta)))|;
      && count < |Rest(before, after)| && Rest(before, after)[count].id.Some?
      && Rest(before, after)[count].id.value in EntryIds(delta)
  {
    var count := |ToolMessages(OrderedTools(before.tools + LeadingTools(delta)))|;
    assert |Placed(before, delta)| == |before.timeline| + count;
    assert Rest(before, after)[count] == after.timeline[|before.timeline| + count];
  }

  /** A message without an identity cannot stand where a tool result would. */
  lemma {:induction false} NamelessComesLater(short: seq<Message>, nameless: Message, long: seq<Message>, beyond: seq<Message>)
    requires short + [nameless] <= long + beyond && |short| <= |long| && nameless.id.None?
    requires forall i :: 0 <= i < |long| ==> long[i].id.Some?
    ensures |long| == |short| && beyond != [] && beyond[0] == nameless
  {
    assert (short + [nameless])[|short|] == nameless;
    assert (long + beyond)[|short|] == nameless;
  }

  /** With frames pending the partial message follows the buffered results, so nothing joined them. */
  lemma {:induction false} PartialStays(before: Projection, delta: seq<Entry>, after: Projection)
    returns (beyond: seq<Message>)
    requires OnlyTools(before.tools) && OnlyTools(after.tools) && before.frames != []
    requires Shape(before, delta, after) && Untouched(before, delta)
    requires View(before) <= View(after)
    ensures LeadingTools(delta) == []
    ensures beyond != [] && beyond[0] == ReduceAssistantFrames(before.frames).value
    ensures OnlyTools(OrderedTools(before.tools)) && before.timeline <= after.timeline
    ensures PendingMessages(before) <= Rest(before, after)
    ensures beyond == ProjectEdits(Rest(before, after)[|PendingMessages(before)|..], before.edits)
  {
    RestBegins(before, delta, after);
    beyond := BuffersCompare(before, delta, after);
    var joined := before.tools + LeadingTools(delta);
    OrderedToolsSorts(before.tools);
    OrderedToolsSorts(joined);
    NamelessComesLater(PendingMessages(before), ReduceAssistantFrames(before.frames).value,
                       ToolMessages(OrderedTools(joined)), beyond);
    ConcatNothing(before.tools);
  }

  lemma {:induction false} FramedNeedsSilence(before: Projection, delta: seq<Entry>, after: Projection)
    requires OnlyTools(before.tools) && OnlyTools(after.tools) && before.frames != []
    requires Shape(before, delta, after) && Untouched(before, delta)
    requires View(before) <= View(after)
    ensures Continues(before, delta)
  {
    var beyond := PartialStays(before, delta, after);
    ConcatNothing(before.tools);
    if HasFlush(delta) {
      FlusherIsIdentified(before, delta, after);
      assert false;
    }
    SamePartial(before, delta, after, beyond);
  }

  lemma {:induction false} SamePartial(before: Projection, delta: seq<Entry>, after: Projection, beyond: seq<Message>)
    requires OnlyTools(before.tools) && OnlyTools(after.tools) && before.frames != []
    requires BufferedShape(before, delta, after) && LeadingTools(delta) == []
    requires |PendingMessages(before)| <= |Rest(before, after)|
    requires beyond == ProjectEdits(Rest(before, after)[|PendingMessages(before)|..], before.edits)
    requires beyond != [] && beyond[0] == ReduceAssistantFrames(before.frames).value
    ensures ReduceAssistantFrames(before.frames + FramesOf(delta)) == ReduceAssistantFrames(before.frames)
  {
    ConcatNothing(before.tools);
    assert Rest(before, after)[|PendingMessages(before)|..] == PartialMessages(after);
    UneditedStays(PartialMessages(after), before.edits);
  }

  lemma {:induction false} LeadingToolsDistinct(delta: seq<Entry>)
    requires DistinctIds(delta)
    ensures DistinctIds(LeadingTools(delta))
  {
    if delta != [] {
      var init, last := delta[..|delta| - 1], delta[|delta| - 1];
      LeadingToolsDistinct(init);
      var joined := LeadingTools(init);
      forall i | 0 <= i < |joined| ensures joined[i].id != last.id {
        assert joined[i] in init;
      }
    }
  }

  lemma {:induction false} DistinctSplit(a: seq<Entry>, b: seq<Entry>)
    requires DistinctIds(a + b)
    ensures DistinctIds(a) && DistinctIds(b) && EntryIds(a) !! EntryIds(b)
  {
    forall i, j | 0 <= i < |a| && 0 <= j < |b| ensures a[i].id != b[j].id {
      assert (a + b)[i].id != (a + b)[|a| + j].id;
    }
    forall i, j | 0 <= i < j < |a| ensures a[i].id != a[j].id {
      assert (a + b)[i].id != (a + b)[j].id;
    }
    forall i, j | 0 <= i < j < |b| ensures b[i].id != b[j].id {
      assert (a + b)[|a| + i].id != (a + b)[|a| + j].id;
    }
  }

  lemma {:induction false} JoinDistinct(a: seq<Entry>, b: seq<Entry>)
    requires DistinctIds(a) && DistinctIds(b) && EntryIds(a) !! EntryIds(b)
    ensures DistinctIds(a + b)
  {
    forall i, j | 0 <= i < j < |a + b| ensures (a + b)[i].id != (a + b)[j].id {
      if i < |a| <= j {
        assert a[i].id in EntryIds(a) && b[j - |a|].id in EntryIds(b);
      }
    }
  }

  lemma {:induction false} UntouchedOnPath(past: seq<Entry>, delta: seq<Entry>)
    requires DistinctIds(past + delta) && Apart(past + delta)
    requires Fold(past).Ok?
    ensures Untouched(Fold(past).value, delta)
  {
    DistinctSplit(past, delta);
    ApartPrefix(past, delta);
    FoldIsSourced(past);
    var joined := LeadingTools(delta);
    forall i | 0 <= i < |joined| ensures joined[i].id in EntryIds(delta) {
      assert joined[i] in delta;
    }
    LeadingToolsDistinct(delta);
    JoinDistinct(Fold(past).value.tools, joined);
  }

  /** View prefix, exactly characterised, for one replay continuing another. */
  lemma {:induction false} PrefixExactly(before: Projection, delta: seq<Entry>)
    requires OnlyTools(before.tools) && FoldFrom(before, delta).Ok?
    requires forall i :: 0 <= i < |delta| ==> Plain(delta[i])
    requires Untouched(before, delta)
    ensures View(before) <= View(FoldFrom(before, delta).value) <==> Continues(before, delta)
  {
    var after := FoldFrom(before, delta).value;
    ReplayShape(before, delta);
    if Continues(before, delta) {
      if before.frames == [] {
        SettledContinues(before, delta, after);
      } else {
        FramedContinues(before, delta, after);
      }
    }
    if View(before) <= View(after) {
      if before.frames == [] {
        SettledNeedsOrder(before, delta, after);
      } else {
        FramedNeedsSilence(before, delta, after);
      }
    }
  }

  /** The head's projection is the previous head's, continued over the entries in between. */
  lemma {:induction false} ReplayContinues(index: Index, head: Option<Id>, previous: Option<Id>, delta: seq<Entry>)
    requires ValidIndex(index) && PathAfter(index, previous, head) == Path(delta)
    requires Replay(index, previous).Ok? && Replay(index, head).Ok?
    requires Apart(PathAfter(index, None, head).entries)
    ensures FoldFrom(Replay(index, previous).value, delta) == Replay(index, head)
    ensures Untouched(Replay(index, previous).value, delta)
  {
    RootIsAlwaysReached(index, previous, {});
    PathsSplitAtAncestor(index, previous, head);
    RootedPathsAreChains(index, head);
    var past := PathAfter(index, None, previous).entries;
    FoldConcat(EMPTY, past, delta);
    UntouchedOnPath(past, delta);
  }

  lemma {:induction false} UpdateSlices(index: Index, head: Option<Id>, previous: Option<Id>, delta: seq<Entry>, length: nat)
    requires PathAfter(index, previous, head) == Path(delta) && !NeedsReset(index, previous, delta)
    requires Replay(index, head).Ok?
    ensures
      var update, view := GetUpdate(index, head, Some(previous), length), View(Replay(index, head).value);
      && update.Ok? && !update.value.reset && update.value.totalMessageCount == |view|
      && update.value.messages == SliceFrom(view, length)
  {
  }

  lemma {:induction false} SliceContinues(shown: seq<Message>, view: seq<Message>)
    ensures shown <= view <==> shown + SliceFrom(view, |shown|) == view
  {
  }

  lemma {:induction false} PlainBetween(index: Index, previous: Option<Id>, delta: seq<Entry>)
    requires !NeedsReset(index, previous, delta)
    ensures forall i :: 0 <= i < |delta| ==> Plain(delta[i])
  {
    forall i | 0 <= i < |delta| ensures Plain(delta[i]) {
      assert !ForcesReset(index, previous, delta[i]);
    }
  }

  /** An update that is not a reset continues what the caller saw at the previous head exactly
      when the entries in between pass the guard `Continues`. */
  lemma {:induction false} UpdateContinuesExactly(index: Index, head: Option<Id>, previous: Option<Id>, delta: seq<Entry>)
    requires ValidIndex(index)
    requires PathAfter(index, previous, head) == Path(delta) && !NeedsReset(index, previous, delta)
    requires Replay(index, previous).Ok? && Replay(index, head).Ok?
    requires Apart(PathAfter(index, None, head).entries)
    ensures
      var before, after := Replay(index, previous).value, Replay(index, head).value;
      var update := GetUpdate(index, head, Some(previous), |View(before)|);
      && update.Ok? && !update.value.reset && update.value.totalMessageCount == |View(after)|
      && (View(before) + update.value.messages == View(after) <==> Continues(before, delta))
  {
    var before, after := Replay(index, previous).value, Replay(index, head).value;
    ReplayContinues(index, head, previous, delta);
    UpdateSlices(index, head, previous, delta, |View(before)|);
    PlainBetween(index, previous, delta);
    PrefixExactly(before, delta);
    SliceContinues(View(before), View(after));
  }

  /** The documented situation: no frames pending, and any buffered result is the previous head
      itself. Then the reset rule is enough. */
  lemma {:induction false} UpdateContinuesView(index: Index, head: Option<Id>, previous: Option<Id>, delta: seq<Entry>)
    requires ValidIndex(index)
    requires PathAfter(index, previous, head) == Path(delta) && !NeedsReset(index, previous, delta)
    requires Replay(index, previous).Ok? && Replay(index, head).Ok?
    requires Apart(PathAfter(index, None, head).entries)
    requires Replay(index, previous).value.frames == []
    requires Replay(index, previous).value.tools == [] || EndsInTool(index, previous)
    ensures
      var shown := View(Replay(index, previous).value);
      var update := GetUpdate(index, head, Some(previous), |shown|);
      update.Ok? && shown + update.value.messages == View(Replay(index, head).value)
  {
    UpdateContinuesExactly(index, head, previous, delta);
    if EndsInTool(index, previous) {
      forall i | 0 <= i < |delta| ensures !delta[i].payload.ToolExecution? {
        assert !ForcesReset(index, previous, delta[i]);
      }
      NoToolsJoin(delta);
    }
  }

  lemma {:induction false} NoToolsJoin(delta: seq<Entry>)
    requires forall i :: 0 <= i < |delta| ==> !delta[i].payload.ToolExecution?
    ensures LeadingTools(delta) == []
  {
    if delta != [] {
      NoToolsJoin(delta[..|delta| - 1]);
    }
  }

  /** What a caller shows after taking an update in: a reset replaces, anything else is appended. */
  function Shown(earlier: seq<Message>, update: ModelUpdate): seq<Message> {
    if update.reset then update.messages else earlier + update.messages
  }

  /** For every pair of heads: a caller who showed the view at the previous head and takes the update
      in shows the view at the new head, exactly when the update resets or the entries in between
      pass the guard. */
  lemma {:induction false} UpdateBringsUpToDate(index: Index, head: Option<Id>, previous: Option<Id>)
    requires ValidIndex(index) && Replay(index, previous).Ok? && Replay(index, head).Ok?
    requires Apart(PathAfter(index, None, head).entries)
    ensures
      var earlier, view := View(Replay(index, previous).value), View(Replay(index, head).value);
      var update := GetUpdate(index, head, Some(previous), |earlier|);
      && update.Ok? && update.value.totalMessageCount == |view|
      && (Shown(earlier, update.value) == view <==>
            update.value.reset ||
            Continues(Replay(index, previous).value, PathAfter(index, previous, head).entries))
  {
    match PathAfter(index, previous, head)
    case Failed(_) => FailureIsIndependentOfGoal(index, previous, head, {});
    case Unreachable =>
    case Path(delta) =>
      if !NeedsReset(index, previous, delta) { UpdateContinuesExactly(index, head, previous, delta); }
  }

  // ---------- the reset rule alone is not enough ----------

  const SLOW := Entry("slow", 3, Some("note"), ToolExecution(Json("slow", false), Some(0)))
  const FAST := Entry("fast", 1, None, ToolExecution(Json("fast", false), Some(1)))
  const NOTE := Entry("note", 2, Some("fast"), Bookkeeping("operation_settlement"))

  const REORDERED: Index := map["fast" := FAST, "note" := NOTE, "slow" := SLOW]

  lemma {:induction false} ReorderedPaths()
    ensures PathAfter(REORDERED, None, Some("note")) == Path([FAST, NOTE])
    ensures PathAfter(REORDERED, None, Some("slow")) == Path([FAST, NOTE, SLOW])
    ensures PathAfter(REORDERED, Some("note"), Some("slow")) == Path([SLOW])
  {
    var short, long := [FAST, NOTE], [FAST, NOTE, SLOW];
    assert short[..0] == [] && short[..1] == [FAST];
    assert long[..0] == [] && long[..1] == [FAST] && long[..2] == short;
    assert [SLOW][..0] == [];
    WalkFollowsRootedChain(REORDERED, short);
    WalkFollowsRootedChain(REORDERED, long);
    WalkFollowsChain(REORDERED, Some("note"), [SLOW], {});
  }

  lemma {:induction false} ReorderedReplays()
    ensures Fold([FAST, NOTE]) == Ok(EMPTY.(tools := [FAST]))
    ensures Fold([FAST, NOTE, SLOW]) == Ok(EMPTY.(tools := [FAST, SLOW]))
    ensures Apart([FAST, NOTE, SLOW])
    ensures LeadingTools([SLOW]) == [SLOW]
  {
    var short, long := [FAST, NOTE], [FAST, NOTE, SLOW];
    assert [FAST][..0] == [] && short[..1] == [FAST] && long[..2] == short && [SLOW][..0] == [];
    assert Fold([]) == Ok(EMPTY);
    assert Fold([FAST]) == Ok(EMPTY.(tools := [FAST])) by { assert EMPTY.tools + [FAST] == [FAST]; }
    assert Fold(short) == Ok(EMPTY.(tools := [FAST]));
    assert Fold(long) == Ok(EMPTY.(tools := [FAST, SLOW])) by { assert [FAST] + [SLOW] == [FAST, SLOW]; }
    assert SummaryIds([]) == {} && SummaryIds([FAST]) == {} && SummaryIds(short) == {};
    assert LeadingTools([]) == [];
  }

  /** A settlement recorded between two results of one turn hides the first result from the reset
      rule: the second one sorts before it, so the update does not continue the view. */
  lemma {:induction false} ResetRuleMissesReordering()
    ensures ValidIndex(REORDERED)
    ensures
      var index, previous, head := REORDERED, Some("note"), Some("slow");
      && Replay(index, previous).Ok? && Replay(index, head).Ok?
      && var shown := View(Replay(index, previous).value);
      && var update := GetUpdate(index, head, Some(previous), |shown|);
      && update.Ok? && !update.value.reset
      && shown + update.value.messages != View(Replay(index, head).value)
  {
    ReorderedPaths();
    ReorderedReplays();
    assert !ForcesReset(REORDERED, Some("note"), SLOW);
    assert SourceKey([FAST][0]) > SourceKey([SLOW][0]);
    UpdateContinuesExactly(REORDERED, Some("slow"), Some("note"), [SLOW]);
  }

  // ---------- when an update is a reset ----------

  /** What a caller cannot simply append: an edit, a compaction, a moved head, or a tool result behind a
      head that is itself one. */
  predicate Disturbs(index: Index, previous: Option<Id>, entry: Entry) {
    match entry.payload
    case Edit(_) => true
    case Compaction(_) => true
    case CustomEntry(_, contextHead) => contextHead
    case ToolExecution(_, _) =>
      previous.Some? && previous.value != "" && previous.value in index && index[previous.value].payload.ToolExecution?
    case _ => false
  }

  lemma {:induction false} DisturbersForceReset(index: Index, previous: Option<Id>, entry: Entry)
    ensures ForcesReset(index, previous, entry) <==> Disturbs(index, previous, entry)
  {
  }

  lemma {:induction false} ResetNeededExactly(index: Index, previous: Option<Id>, delta: seq<Entry>)
    ensures NeedsReset(index, previous, delta) <==> exists i :: 0 <= i < |delta| && Disturbs(index, previous, delta[i])
  {
    forall i | 0 <= i < |delta| ensures ForcesReset(index, previous, delta[i]) <==> Disturbs(index, previous, delta[i]) {
      DisturbersForceReset(index, previous, delta[i]);
    }
  }

  /** A caller who names a head gets a reset exactly if that head is no ancestor or something came since
      that disturbs. Nothing else that grows a branch costs a caller what it has. */
  lemma {:induction false} ResetExactly(index: Index, head: Option<Id>, previous: Option<Id>, previousLength: nat)
    requires GetUpdate(index, head, Some(previous), previousLength).Ok?
    ensures
      var walked := PathAfter(index, previous, head);
      GetUpdate(index, head, Some(previous), previousLength).value.reset <==>
        walked.Unreachable? || exists i :: 0 <= i < |walked.entries| && Disturbs(index, previous, walked.entries[i])
  {
    var walked := PathAfter(index, previous, head);
    if walked.Path? { ResetNeededExactly(index, previous, walked.entries); }
  }

  /** How much an update hands over: everything on a reset, else what the caller does not have yet, which is
      nothing if it claims to have more than there is. */
  lemma {:induction false} UpdateHandsOver(index: Index, head: Option<Id>, previous: Option<Option<Id>>, previousLength: nat)
    requires GetUpdate(index, head, previous, previousLength).Ok?
    ensures ContextAt(index, head).Ok?
    ensures
      var update, shown := GetUpdate(index, head, previous, previousLength).value, ContextAt(index, head).value.messages;
      && update.headId == head && update.totalMessageCount == |shown| && (previous.None? ==> update.reset)
      && (update.reset ==> update.messages == shown)
      && (!update.reset && previousLength <= |shown| ==> shown[..previousLength] + update.messages == shown)
      && (!update.reset && previousLength > |shown| ==> update.messages == [])
  {
    var shown := ContextAt(index, head).value.messages;
    if previousLength <= |shown| { SplitAt(shown, previousLength); }
  }
}
