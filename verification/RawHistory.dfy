/** The raw transcript: what edits, loadouts and compactions never take away. */
module RawHistory {
  import opened Sequences
  import opened Entries
  import opened Projections
  import opened JournalPaths
  import opened Provenance

  /** Entries behind which earlier tool results are settled. */
  predicate Barrier(entry: Entry) {
    YieldsMessage(entry) || entry.payload.ModelLoadout? || entry.payload.Edit? ||
    (entry.payload.Compaction? && entry.payload.view.Some?)
  }

  /** The tool results since the last barrier, in journal order. */
  function OpenRun(path: seq<Entry>): (run: seq<Entry>)
    ensures OnlyTools(run)
  {
    if path == [] || Barrier(path[|path| - 1]) then []
    else OpenRun(path[..|path| - 1]) + if path[|path| - 1].payload.ToolExecution? then [path[|path| - 1]] else []
  }

  /** The path up to and including its last barrier. */
  function Settled(path: seq<Entry>): (settled: seq<Entry>)
    ensures |settled| <= |path|
    ensures settled != [] ==> Barrier(settled[|settled| - 1])
  {
    if path == [] || Barrier(path[|path| - 1]) then path else Settled(path[..|path| - 1])
  }

  function SortedRun(run: seq<Entry>): seq<Message>
    requires OnlyTools(run)
  {
    OrderedToolsSorts(run);
    ToolMessages(OrderedTools(run))
  }

  function OwnMessage(entry: Entry): seq<Message> {
    if YieldsMessage(entry) then [MessageOf(entry).value] else []
  }

  /** The reference: runs of tool results, each stably sorted, between the messages of the
      barriers. It reads nothing but the barriers, so no edit, loadout or compaction can alter
      or drop a message. */
  function Transcript(path: seq<Entry>): seq<Message>
    decreases |path|
  {
    var settled := Settled(path);
    if settled == [] then SortedRun(OpenRun(path))
    else
      var init, barrier := settled[..|settled| - 1], settled[|settled| - 1];
      Transcript(init) + OwnMessage(barrier) + SortedRun(OpenRun(path))
  }

  function SummaryUsage(entry: Entry): Usage {
    match entry.payload
    case Compaction(Some(view)) => UsageOf(view.summary)
    case AgentTurn(_, usage) => if usage.Some? then usage.value else NO_USAGE
    case _ => NO_USAGE
  }

  /** Every assistant message of the path and every compaction summary, once each. */
  function TotalUsage(path: seq<Entry>): Usage {
    if path == [] then NO_USAGE else TotalUsage(path[..|path| - 1]).Plus(SummaryUsage(path[|path| - 1]))
  }

  /** A barrier places the pending results, then its own message, and counts its usage. */
  predicate Placing(projection: Projection, entry: Entry, after: Projection)
    requires OnlyTools(projection.tools)
  {
    && after.tools == []
    && after.raw == projection.raw + PendingMessages(projection) + OwnMessage(entry)
    && after.usage == projection.usage.Plus(SummaryUsage(entry))
  }

  lemma {:induction false} PushedRaw(projection: Projection, entry: Entry, after: Projection)
    requires OnlyTools(projection.tools) && Apply(projection, entry) == Ok(after) && Barrier(entry)
    ensures Placing(projection, entry, after)
  {
    if YieldsMessage(entry) {
      MessageRaw(projection, entry, after);
    } else if entry.payload.ModelLoadout? {
      LoadoutRaw(projection, entry, after);
    } else if entry.payload.Edit? {
      EditRaw(projection, entry, after);
    } else {
      CompactionRaw(projection, entry, entry.payload.view.value, after);
    }
  }

  lemma {:induction false} MessageRaw(projection: Projection, entry: Entry, after: Projection)
    requires OnlyTools(projection.tools) && Apply(projection, entry) == Ok(after) && YieldsMessage(entry)
    requires !entry.payload.ToolExecution?
    ensures Placing(projection, entry, after)
  {
    assert after == Push(Flush(projection), entry, MessageOf(entry).value);
  }

  lemma {:induction false} LoadoutRaw(projection: Projection, entry: Entry, after: Projection)
    requires OnlyTools(projection.tools) && entry.payload.ModelLoadout?
    requires ApplyLoadout(projection, entry, entry.payload.loadout) == Ok(after)
    ensures Placing(projection, entry, after)
  {
    ConcatNothing(projection.raw + PendingMessages(projection));
  }

  lemma {:induction false} EditRaw(projection: Projection, entry: Entry, after: Projection)
    requires OnlyTools(projection.tools) && entry.payload.Edit?
    requires ApplyEdit(projection, entry.payload.edit) == Ok(after)
    ensures Placing(projection, entry, after)
  {
    ConcatNothing(projection.raw + PendingMessages(projection));
  }

  lemma {:induction false} CompactionRaw(projection: Projection, entry: Entry, view: CompactionView, after: Projection)
    requires OnlyTools(projection.tools)
    requires entry.payload == Compaction(Some(view)) && ApplyCompaction(projection, entry, view) == Ok(after)
    ensures Placing(projection, entry, after)
  {
    CompactionKeepsRaw(projection, entry, view, after);
    ConcatNothing(projection.raw + PendingMessages(projection));
    assert OwnMessage(entry) == [] && SummaryUsage(entry) == UsageOf(view.summary);
  }

  lemma {:induction false} CompactionKeepsRaw(projection: Projection, entry: Entry, view: CompactionView, after: Projection)
    requires OnlyTools(projection.tools) && ApplyCompaction(projection, entry, view) == Ok(after)
    ensures after.tools == [] && after.raw == projection.raw + PendingMessages(projection)
    ensures after.usage == projection.usage.Plus(UsageOf(view.summary))
  {
  }

  lemma {:induction false} BufferedRaw(projection: Projection, entry: Entry, after: Projection)
    requires OnlyTools(projection.tools) && Apply(projection, entry) == Ok(after) && !Barrier(entry)
    ensures after.raw == projection.raw && after.usage == projection.usage.Plus(SummaryUsage(entry))
    ensures after.tools == projection.tools + if entry.payload.ToolExecution? then [entry] else []
  {
  }

  /** What the projection has placed, by the reference. */
  function PlacedTranscript(path: seq<Entry>): seq<Message> {
    var settled := Settled(path);
    if settled == [] then []
    else Transcript(settled[..|settled| - 1]) + OwnMessage(settled[|settled| - 1])
  }

  lemma {:induction false} ReplayIsTranscript(path: seq<Entry>)
    requires Fold(path).Ok?
    ensures Fold(path).value.tools == OpenRun(path)
    ensures Fold(path).value.raw == PlacedTranscript(path)
    ensures Fold(path).value.usage == TotalUsage(path)
  {
    if path != [] {
      var init, last := path[..|path| - 1], path[|path| - 1];
      ReplayIsTranscript(init);
      var before, after := Fold(init).value, Fold(path).value;
      if Barrier(last) {
        PushedRaw(before, last, after);
        TranscriptSplits(init);
      } else {
        BufferedRaw(before, last, after);
      }
    }
  }

  lemma {:induction false} TranscriptSplits(path: seq<Entry>)
    ensures Transcript(path) == PlacedTranscript(path) + SortedRun(OpenRun(path))
  {
  }

  /** A reader's raw history is the reference transcript, followed only by the unfinished message. */
  lemma {:induction false} RawHistoryIsTranscript(head: Option<Id>, path: seq<Entry>)
    requires Fold(path).Ok?
    ensures
      var context := ContextOf(head, Fold(path).value);
      && context.raw == Transcript(path) + PartialMessages(Fold(path).value)
      && context.usage == TotalUsage(path)
  {
    ReplayIsTranscript(path);
    TranscriptSplits(path);
    var projection := Fold(path).value;
    assert projection.raw + Tail(projection) ==
           (projection.raw + PendingMessages(projection)) + PartialMessages(projection);
  }

  // ---------- what was used ----------

  datatype Measure = InputTokens | OutputTokens | TotalTokens

  function Amount(usage: Usage, measure: Measure): int {
    match measure
    case InputTokens => usage.inputTokens
    case OutputTokens => usage.outputTokens
    case TotalTokens => usage.totalTokens
  }

  /** What an entry used: an assistant message as it says, a compaction as its summary says. */
  function Used(entry: Entry, measure: Measure): int {
    match entry.payload
    case AgentTurn(_, Some(usage)) => Amount(usage, measure)
    case Compaction(Some(view)) =>
      if view.summary.AssistantMessage? && view.summary.usage.Some? then Amount(view.summary.usage.value, measure) else 0
    case _ => 0
  }

  function AllUsed(path: seq<Entry>, measure: Measure): int {
    if path == [] then 0 else AllUsed(path[..|path| - 1], measure) + Used(path[|path| - 1], measure)
  }

  /** Each of the three totals is the sum over the path. */
  lemma {:induction false} TotalsAddUp(path: seq<Entry>, measure: Measure)
    ensures Amount(TotalUsage(path), measure) == AllUsed(path, measure)
  {
    if path != [] {
      var init, last := path[..|path| - 1], path[|path| - 1];
      TotalsAddUp(init, measure);
      AmountsAdd(TotalUsage(init), SummaryUsage(last), measure);
      UsedIsUsage(last, measure);
    }
  }

  lemma {:induction false} AmountsAdd(a: Usage, b: Usage, measure: Measure)
    ensures Amount(a.Plus(b), measure) == Amount(a, measure) + Amount(b, measure)
  {
  }

  lemma {:induction false} UsedIsUsage(entry: Entry, measure: Measure)
    ensures Amount(SummaryUsage(entry), measure) == Used(entry, measure)
  {
  }

  // ---------- nothing is lost, and only tool results move ----------

  function MessagesOf(path: seq<Entry>): seq<Message> {
    if path == [] then []
    else
      var message := MessageOf(path[|path| - 1]);
      MessagesOf(path[..|path| - 1]) + if message.Some? then [message.value] else []
  }

  function Turns(messages: seq<Message>): seq<Message> {
    if messages == [] then []
    else
      var last := messages[|messages| - 1];
      Turns(messages[..|messages| - 1]) + if last.ToolResultMessage? then [] else [last]
  }

  lemma {:induction false} TurnsConcat(a: seq<Message>, b: seq<Message>)
    ensures Turns(a + b) == Turns(a) + Turns(b)
  {
    if b == [] {
      assert a + b == a;
    } else {
      TurnsConcat(a, b[..|b| - 1]);
      assert (a + b)[..|a + b| - 1] == a + b[..|b| - 1];
    }
  }

  lemma {:induction false} NoTurns(messages: seq<Message>)
    requires forall i :: 0 <= i < |messages| ==> messages[i].ToolResultMessage?
    ensures Turns(messages) == []
  {
    if messages != [] { NoTurns(messages[..|messages| - 1]); }
  }

  lemma {:induction false} InsertConserves(sorted: seq<Entry>, entry: Entry)
    requires OnlyTools(sorted) && entry.payload.ToolExecution?
    ensures OnlyTools(Insert(sorted, entry))
    ensures multiset(ToolMessages(Insert(sorted, entry))) == multiset(ToolMessages(sorted)) + multiset{ToolMessage(entry)}
  {
    if sorted == [] || SourceKey(sorted[|sorted| - 1]) <= SourceKey(entry) {
      ToolMessagesSnoc(sorted, entry);
    } else {
      var init, last := sorted[..|sorted| - 1], sorted[|sorted| - 1];
      InsertConserves(init, entry);
      ToolMessagesSnoc(Insert(init, entry), last);
      ToolMessagesSnoc(init, last);
      InitAndLast(sorted);
    }
  }

  lemma {:induction false} OrderedToolsConserve(run: seq<Entry>)
    requires OnlyTools(run)
    ensures OnlyTools(OrderedTools(run))
    ensures multiset(ToolMessages(OrderedTools(run))) == multiset(ToolMessages(run))
  {
    if run != [] {
      var init, last := run[..|run| - 1], run[|run| - 1];
      OrderedToolsConserve(init);
      InsertConserves(OrderedTools(init), last);
      ToolMessagesSnoc(init, last);
      InitAndLast(run);
    }
  }

  lemma {:induction false} SortedRunConserves(run: seq<Entry>)
    requires OnlyTools(run)
    ensures multiset(SortedRun(run)) == multiset(ToolMessages(run))
    ensures Turns(SortedRun(run)) == []
  {
    OrderedToolsConserve(run);
    NoTurns(SortedRun(run));
  }

  /** A path's messages are those up to its last barrier and then the open run. */
  lemma {:induction false} MessagesSplit(path: seq<Entry>)
    ensures MessagesOf(path) == MessagesOf(Settled(path)) + ToolMessages(OpenRun(path))
  {
    if path == [] || Barrier(path[|path| - 1]) {
      assert MessagesOf(path) == MessagesOf(Settled(path)) + [];
    } else {
      var init, last := path[..|path| - 1], path[|path| - 1];
      MessagesSplit(init);
      if last.payload.ToolExecution? {
        assert ToolMessages(OpenRun(path)) == ToolMessages(OpenRun(init)) + [ToolMessage(last)];
      } else {
        assert OpenRun(path) == OpenRun(init);
      }
    }
  }

  /** Conservation: the transcript holds exactly the path's messages, and everything but tool
      results stays in journal order. */
  lemma {:induction false} TranscriptConserves(path: seq<Entry>)
    ensures multiset(Transcript(path)) == multiset(MessagesOf(path))
    ensures Turns(Transcript(path)) == Turns(MessagesOf(path))
    decreases |path|
  {
    var settled, run := Settled(path), OpenRun(path);
    MessagesSplit(path);
    SortedRunConserves(run);
    NoTurns(ToolMessages(run));
    TurnsConcat(MessagesOf(settled), ToolMessages(run));
    if settled == [] {
      assert MessagesOf(path) == ToolMessages(run);
    } else {
      var init, barrier := settled[..|settled| - 1], settled[|settled| - 1];
      TranscriptConserves(init);
      assert MessagesOf(settled) == MessagesOf(init) + OwnMessage(barrier);
      TurnsConcat(Transcript(init), OwnMessage(barrier));
      TurnsConcat(MessagesOf(init), OwnMessage(barrier));
      TurnsConcat(Transcript(init) + OwnMessage(barrier), SortedRun(run));
    }
  }

  // ---------- the order within a run ----------

  /** The index a tool result names, if it names one. */
  function NamedIndex(entry: Entry): Option<int> {
    match entry.payload
    case ToolExecution(_, index) => index
    case _ => None
  }

  /** Results come in the order of the indices they name; those that name none come last. */
  lemma {:induction false} IndicesAscend(run: seq<Entry>, i: nat, j: nat)
    requires OnlyTools(run) && i < j < |OrderedTools(run)|
    ensures
      var first, second := NamedIndex(OrderedTools(run)[i]), NamedIndex(OrderedTools(run)[j]);
      && (first.Some? && second.Some? ==> first.value <= second.value)
      && (first.None? && second.Some? ==> second.value >= 9007199254740991)
  {
    OrderedToolsSorts(run);
    assert SourceKey(OrderedTools(run)[i]) <= SourceKey(OrderedTools(run)[j]);
  }

  function WithKey(entries: seq<Entry>, key: int): seq<Entry> {
    if entries == [] then []
    else
      var last := entries[|entries| - 1];
      WithKey(entries[..|entries| - 1], key) + if SourceKey(last) == key then [last] else []
  }

  lemma {:induction false} WithKeySnoc(entries: seq<Entry>, last: Entry, key: int)
    ensures WithKey(entries + [last], key) == WithKey(entries, key) + if SourceKey(last) == key then [last] else []
  {
    Snoc(entries, last);
  }

  lemma {:induction false} InsertIsStable(sorted: seq<Entry>, entry: Entry, key: int)
    requires Ascending(sorted)
    ensures WithKey(Insert(sorted, entry), key) == WithKey(sorted + [entry], key)
  {
    WithKeySnoc(sorted, entry, key);
    if sorted != [] && SourceKey(sorted[|sorted| - 1]) > SourceKey(entry) {
      var init, last := sorted[..|sorted| - 1], sorted[|sorted| - 1];
      InsertIsStable(init, entry, key);
      WithKeySnoc(init, entry, key);
      WithKeySnoc(Insert(init, entry), last, key);
      WithKeySnoc(init, last, key);
      InitAndLast(sorted);
      ConcatNothing(WithKey(init, key));
      ConcatNothing(WithKey(init, key) + [entry]);
      ConcatNothing(WithKey(init, key) + [last]);
    }
  }

  /** Results with the same source index keep their journal order. With the order by index and
      the permutation property this determines the sort. */
  lemma {:induction false} SortIsStable(run: seq<Entry>, key: int)
    ensures WithKey(OrderedTools(run), key) == WithKey(run, key)
  {
    if run != [] {
      var init, last := run[..|run| - 1], run[|run| - 1];
      SortIsStable(init, key);
      OrderedToolsPermutes(init);
      InsertIsStable(OrderedTools(init), last, key);
      WithKeySnoc(OrderedTools(init), last, key);
    }
  }
}
