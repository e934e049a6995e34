/** What a reader of a branch is shown, said from the entries of its path alone: no field of the
    projection that is extended step by step occurs in it. */
module Readings {
  import opened Sequences
  import opened Entries
  import opened Projections
  import opened JournalPaths
  import opened Provenance
  import opened RawHistory
  import opened Transcripts

  // ---------- the unfinished message ----------

  /** The stream frames since the last finished assistant message. */
  function OpenFrames(path: seq<Entry>): seq<Frame> {
    if path == [] then []
    else match path[|path| - 1].payload
      case AgentTurn(_, _) => []
      case AssistantFrame(Some(frame)) => OpenFrames(path[..|path| - 1]) + [frame]
      case _ => OpenFrames(path[..|path| - 1])
  }

  function Unfinished(path: seq<Entry>): seq<Message> {
    var partial := ReduceAssistantFrames(OpenFrames(path));
    if partial.Some? then [partial.value] else []
  }

  lemma {:induction false} MessageClosesFrames(before: Projection, entry: Entry, after: Projection)
    requires OnlyTools(before.tools) && Apply(before, entry) == Ok(after) && YieldsMessage(entry)
    ensures after.frames == if entry.payload.AgentTurn? then [] else before.frames
  {
    MessagePushes(before, entry);
  }

  lemma {:induction false} LoadoutKeepsFrames(before: Projection, entry: Entry, after: Projection)
    requires OnlyTools(before.tools) && entry.payload.ModelLoadout?
    requires ApplyLoadout(before, entry, entry.payload.loadout) == Ok(after)
    ensures after.frames == before.frames && after.edits == before.edits
  {
  }

  lemma {:induction false} EditKeepsFrames(before: Projection, entry: Entry, after: Projection)
    requires OnlyTools(before.tools) && entry.payload.Edit? && ApplyEdit(before, entry.payload.edit) == Ok(after)
    ensures after.frames == before.frames
  {
  }

  lemma {:induction false} CompactionKeepsFrames(before: Projection, entry: Entry, view: CompactionView, after: Projection)
    requires OnlyTools(before.tools) && ApplyCompaction(before, entry, view) == Ok(after)
    ensures after.frames == before.frames && after.edits == before.edits
  {
  }

  lemma {:induction false} SilentKeepsFrames(before: Projection, entry: Entry, after: Projection)
    requires OnlyTools(before.tools) && Apply(before, entry) == Ok(after) && Transparent(entry)
    ensures after.frames == if entry.payload.AssistantFrame? && entry.payload.frame.Some?
                            then before.frames + [entry.payload.frame.value] else before.frames
    ensures after.edits == before.edits
  {
  }

  lemma {:induction false} FramesStep(before: Projection, path: seq<Entry>, entry: Entry, after: Projection)
    requires OnlyTools(before.tools) && Apply(before, entry) == Ok(after) && before.frames == OpenFrames(path)
    ensures after.frames == OpenFrames(path + [entry])
  {
    Snoc(path, entry);
    if entry.payload.ToolExecution? {
    } else if YieldsMessage(entry) {
      MessageClosesFrames(before, entry, after);
    } else if entry.payload.ModelLoadout? {
      LoadoutKeepsFrames(before, entry, after);
    } else if entry.payload.Edit? {
      EditKeepsFrames(before, entry, after);
    } else if entry.payload.Compaction? && entry.payload.view.Some? {
      CompactionKeepsFrames(before, entry, entry.payload.view.value, after);
    } else {
      SilentKeepsFrames(before, entry, after);
    }
  }

  /** The pending frames of a replay are the frames since the last finished assistant message. */
  lemma {:induction false} FramesAreOpen(path: seq<Entry>)
    requires Fold(path).Ok?
    ensures Fold(path).value.frames == OpenFrames(path)
  {
    if path != [] {
      var init, last := path[..|path| - 1], path[|path| - 1];
      InitAndLast(path);
      FramesAreOpen(init);
      FramesStep(Fold(init).value, init, last, Fold(path).value);
    }
  }

  // ---------- edits ----------

  /** The last of these operations that targets the message. */
  function LastOperation(operations: seq<EditOperation>, id: Id): Option<EditOperation> {
    if operations == [] then None
    else if operations[|operations| - 1].messageId == id then Some(operations[|operations| - 1])
    else LastOperation(operations[..|operations| - 1], id)
  }

  /** The last operation anywhere on the path that targets the message. */
  function LatestEdit(path: seq<Entry>, id: Id): Option<EditOperation> {
    if path == [] then None
    else match path[|path| - 1].payload
      case Edit(Some(edit)) =>
        var own := LastOperation(edit.edits, id);
        if own.Some? then own else LatestEdit(path[..|path| - 1], id)
      case _ => LatestEdit(path[..|path| - 1], id)
  }

  /** A message as the path leaves it: gone, replaced under its own identity, or as it was. */
  function Edited(message: Message, path: seq<Entry>): seq<Message> {
    if !Identified(message) then [message]
    else match LatestEdit(path, message.id.value)
      case None => [message]
      case Some(EditOperation(id, Replace(other))) => [other.(id := Some(id))]
      case Some(_) => []
  }

  function AllEdited(messages: seq<Message>, path: seq<Entry>): seq<Message> {
    if messages == [] then []
    else AllEdited(messages[..|messages| - 1], path) + Edited(messages[|messages| - 1], path)
  }

  /** What the table of edits says of a message. */
  predicate Says(edits: map<Id, Option<Message>>, id: Id, operation: Option<EditOperation>) {
    match operation
    case None => id !in edits
    case Some(EditOperation(_, Replace(other))) => id in edits && edits[id] == Some(other.(id := Some(id)))
    case Some(_) => id in edits && edits[id] == None
  }

  lemma {:induction false} OperationsSay(edits: map<Id, Option<Message>>, operations: seq<EditOperation>, id: Id)
    ensures
      var last := LastOperation(operations, id);
      if last.Some? then last.value.messageId == id && Says(PutEdits(edits, operations), id, last)
      else (id in PutEdits(edits, operations) <==> id in edits) && (id in edits ==> PutEdits(edits, operations)[id] == edits[id])
  {
    if operations != [] { OperationsSay(edits, operations[..|operations| - 1], id); }
  }

  lemma {:induction false} OthersKeepEdits(before: Projection, entry: Entry, after: Projection)
    requires OnlyTools(before.tools) && Apply(before, entry) == Ok(after) && !entry.payload.Edit?
    ensures after.edits == before.edits
  {
    if entry.payload.ToolExecution? {
    } else if YieldsMessage(entry) {
      MessagePushes(before, entry);
      PushEdits(before, entry, MessageOf(entry).value);
    } else if entry.payload.ModelLoadout? {
      LoadoutKeepsFrames(before, entry, after);
    } else if entry.payload.Compaction? && entry.payload.view.Some? {
      CompactionKeepsFrames(before, entry, entry.payload.view.value, after);
    } else {
      SilentKeepsFrames(before, entry, after);
    }
  }

  lemma {:induction false} EditPutsEdits(before: Projection, entry: Entry, after: Projection)
    requires OnlyTools(before.tools) && Apply(before, entry) == Ok(after) && entry.payload.Edit?
    ensures entry.payload.edit.Some? && after.edits == PutEdits(before.edits, entry.payload.edit.value.edits)
  {
  }

  lemma {:induction false} EditsSayStep(before: Projection, path: seq<Entry>, entry: Entry, after: Projection, id: Id)
    requires OnlyTools(before.tools) && Apply(before, entry) == Ok(after)
    requires Says(before.edits, id, LatestEdit(path, id))
    ensures Says(after.edits, id, LatestEdit(path + [entry], id))
  {
    Snoc(path, entry);
    if entry.payload.Edit? {
      EditPutsEdits(before, entry, after);
      OperationsSay(before.edits, entry.payload.edit.value.edits, id);
    } else {
      OthersKeepEdits(before, entry, after);
    }
  }

  lemma {:induction false} EditsSay(path: seq<Entry>, id: Id)
    requires Fold(path).Ok?
    ensures Says(Fold(path).value.edits, id, LatestEdit(path, id))
  {
    if path != [] {
      var init, last := path[..|path| - 1], path[|path| - 1];
      InitAndLast(path);
      EditsSay(init, id);
      EditsSayStep(Fold(init).value, init, last, Fold(path).value, id);
    }
  }

  lemma {:induction false} LatestEditTargets(path: seq<Entry>, id: Id)
    ensures LatestEdit(path, id).Some? ==> LatestEdit(path, id).value.messageId == id
  {
    if path != [] {
      LatestEditTargets(path[..|path| - 1], id);
      if path[|path| - 1].payload.Edit? && path[|path| - 1].payload.edit.Some? {
        OperationsSay(map[], path[|path| - 1].payload.edit.value.edits, id);
      }
    }
  }

  lemma {:induction false} OneProjected(message: Message, path: seq<Entry>)
    requires Fold(path).Ok?
    ensures ProjectOne(message, Fold(path).value.edits) == Edited(message, path)
  {
    if Identified(message) {
      EditsSay(path, message.id.value);
      LatestEditTargets(path, message.id.value);
    }
  }

  lemma {:induction false} AllProjected(messages: seq<Message>, path: seq<Entry>)
    requires Fold(path).Ok?
    ensures ProjectEdits(messages, Fold(path).value.edits) == AllEdited(messages, path)
  {
    if messages != [] {
      AllProjected(messages[..|messages| - 1], path);
      OneProjected(messages[|messages| - 1], path);
    }
  }

  // ---------- what an edit may target ----------

  /** Every message the path has yielded or put in place of others, under its identity. */
  function Mentioned(path: seq<Entry>): map<Id, Message> {
    if path == [] then map[]
    else
      var before, last := Mentioned(path[..|path| - 1]), path[|path| - 1];
      if MessageOf(last).Some? then before[last.id := MessageOf(last).value]
      else match last.payload
        case Compaction(Some(view)) =>
          if view.summary.id.Some? then before[view.summary.id.value := view.summary] else before
        case _ => before
  }

  lemma {:induction false} PutToolsFinds(editable: map<Id, Message>, tools: seq<Entry>, id: Id)
    requires OnlyTools(tools)
    ensures
      var table := PutTools(editable, tools);
      if exists i :: 0 <= i < |tools| && tools[i].id == id
      then exists i :: 0 <= i < |tools| && tools[i].id == id && id in table && table[id] == ToolMessage(tools[i])
      else (id in table <==> id in editable) && (id in editable ==> table[id] == editable[id])
  {
    if tools != [] {
      var init, last := tools[..|tools| - 1], tools[|tools| - 1];
      PutToolsFinds(editable, init, id);
      if last.id != id && exists i :: 0 <= i < |tools| && tools[i].id == id {
        var i :| 0 <= i < |tools| && tools[i].id == id;
        assert init[i].id == id;
        var k :| 0 <= k < |init| && init[k].id == id && id in PutTools(editable, init) &&
                 PutTools(editable, init)[id] == ToolMessage(init[k]);
        assert tools[k] == init[k];
      }
    }
  }

  lemma {:induction false} OrderedKeepsId(tools: seq<Entry>, id: Id)
    requires OnlyTools(tools)
    ensures (exists i :: 0 <= i < |tools| && tools[i].id == id) <==>
            (exists k :: 0 <= k < |OrderedTools(tools)| && OrderedTools(tools)[k].id == id)
  {
    var ordered := OrderedTools(tools);
    OrderedToolsSorts(tools);
    if exists i :: 0 <= i < |tools| && tools[i].id == id {
      var i :| 0 <= i < |tools| && tools[i].id == id;
      assert tools[i] in ordered;
    }
    if exists k :: 0 <= k < |ordered| && ordered[k].id == id {
      var k :| 0 <= k < |ordered| && ordered[k].id == id;
      assert ordered[k] in tools;
    }
  }

  lemma {:induction false} BufferedIsFound(projection: Projection, i: nat)
    requires OnlyTools(projection.tools) && DistinctIds(projection.tools) && i < |projection.tools|
    ensures
      var entry := projection.tools[i];
      entry.id in Known(projection) && Known(projection)[entry.id] == ToolMessage(entry)
  {
    var tools, ordered, id := projection.tools, OrderedTools(projection.tools), projection.tools[i].id;
    OrderedToolsSorts(tools);
    OrderedKeepsId(tools, id);
    PutToolsFinds(projection.editable, ordered, id);
    var k :| 0 <= k < |ordered| && ordered[k].id == id && id in Known(projection) &&
             Known(projection)[id] == ToolMessage(ordered[k]);
    assert ordered[k] in tools;
    var m :| 0 <= m < |tools| && tools[m] == ordered[k];
    assert m == i;
  }

  lemma {:induction false} PlacedIsFound(projection: Projection, id: Id)
    requires OnlyTools(projection.tools) && forall i :: 0 <= i < |projection.tools| ==> projection.tools[i].id != id
    ensures id in Known(projection) <==> id in projection.editable
    ensures id in projection.editable ==> Known(projection)[id] == projection.editable[id]
  {
    OrderedToolsSorts(projection.tools);
    OrderedKeepsId(projection.tools, id);
    PutToolsFinds(projection.editable, OrderedTools(projection.tools), id);
  }

  /** The table of what is known knows a buffered result as the result it is. */
  lemma {:induction false} KnownFinds(projection: Projection, id: Id)
    requires OnlyTools(projection.tools) && DistinctIds(projection.tools)
    ensures
      var tools := projection.tools;
      && (forall i :: 0 <= i < |tools| && tools[i].id == id ==>
            id in Known(projection) && Known(projection)[id] == ToolMessage(tools[i]))
      && ((forall i :: 0 <= i < |tools| ==> tools[i].id != id) ==>
            (id in Known(projection) <==> id in projection.editable) &&
            (id in projection.editable ==> Known(projection)[id] == projection.editable[id]))
  {
    var tools := projection.tools;
    if forall i :: 0 <= i < |tools| ==> tools[i].id != id {
      PlacedIsFound(projection, id);
    } else {
      forall i | 0 <= i < |tools| && tools[i].id == id
        ensures id in Known(projection) && Known(projection)[id] == ToolMessage(tools[i])
      {
        BufferedIsFound(projection, i);
      }
    }
  }

  lemma {:induction false} BufferedIsKnown(before: Projection, entry: Entry, after: Projection)
    requires OnlyTools(before.tools) && DistinctIds(before.tools + [entry]) && entry.payload.ToolExecution?
    requires after == before.(tools := before.tools + [entry])
    ensures Known(after) == Known(before)[entry.id := ToolMessage(entry)]
  {
    assert DistinctIds(before.tools) by {
      forall i, j | 0 <= i < j < |before.tools| ensures before.tools[i].id != before.tools[j].id {
        assert (before.tools + [entry])[i].id != (before.tools + [entry])[j].id;
      }
    }
    forall id
      ensures id in Known(after) <==> id in Known(before)[entry.id := ToolMessage(entry)]
      ensures id in Known(after) ==> Known(after)[id] == Known(before)[entry.id := ToolMessage(entry)][id]
    {
      KnownFinds(before, id);
      KnownFinds(after, id);
      assert after.tools[|before.tools|] == entry;
      forall i | 0 <= i < |before.tools| ensures after.tools[i] == before.tools[i] && after.tools[i].id != entry.id {
      }
      if exists i :: 0 <= i < |before.tools| && before.tools[i].id == id {
        var i :| 0 <= i < |before.tools| && before.tools[i].id == id;
        assert after.tools[i].id == id;
      }
    }
  }

  lemma {:induction false} SettledKnown(projection: Projection)
    requires projection.tools == []
    ensures Known(projection) == projection.editable
  {
  }

  lemma {:induction false} MessageIsKnown(before: Projection, entry: Entry, after: Projection)
    requires OnlyTools(before.tools) && Apply(before, entry) == Ok(after) && YieldsMessage(entry)
    ensures after.tools == [] && Known(after) == Known(before)[entry.id := MessageOf(entry).value]
  {
    MessagePushes(before, entry);
    PushEdits(before, entry, MessageOf(entry).value);
    SettledKnown(after);
  }

  lemma {:induction false} SummaryIsKnown(before: Projection, entry: Entry, view: CompactionView, after: Projection)
    requires OnlyTools(before.tools) && Apply(before, entry) == Ok(after) && entry.payload == Compaction(Some(view))
    ensures view.summary.id.Some? && after.tools == []
    ensures Known(after) == Known(before)[view.summary.id.value := view.summary]
  {
    SettledKnown(after);
  }

  lemma {:induction false} EditKeepsKnown(before: Projection, entry: Entry, after: Projection)
    requires OnlyTools(before.tools) && entry.payload.Edit? && ApplyEdit(before, entry.payload.edit) == Ok(after)
    ensures Known(after) == Known(before)
  {
    SettledKnown(after);
  }

  lemma {:induction false} LoadoutKeepsKnown(before: Projection, entry: Entry, after: Projection)
    requires OnlyTools(before.tools) && entry.payload.ModelLoadout?
    requires ApplyLoadout(before, entry, entry.payload.loadout) == Ok(after)
    ensures Known(after) == Known(before)
  {
    SettledKnown(after);
  }

  lemma {:induction false} SilentKeepsKnown(before: Projection, entry: Entry, after: Projection)
    requires OnlyTools(before.tools) && OnlyTools(after.tools) && Apply(before, entry) == Ok(after) && Transparent(entry)
    ensures Known(after) == Known(before)
  {
    TransparentLeavesAlone(before, entry, after);
  }

  lemma {:induction false} OthersAreTransparent(entry: Entry)
    requires MessageOf(entry).None? && !entry.payload.Edit? && !entry.payload.ModelLoadout?
    requires !(entry.payload.Compaction? && entry.payload.view.Some?)
    ensures Transparent(entry)
  {
  }

  lemma {:induction false} OthersKeepKnown(before: Projection, entry: Entry, after: Projection)
    requires OnlyTools(before.tools) && OnlyTools(after.tools) && Apply(before, entry) == Ok(after)
    requires MessageOf(entry).None? && !(entry.payload.Compaction? && entry.payload.view.Some?)
    ensures Known(after) == Known(before)
  {
    match entry.payload
    case Edit(edit) =>
      AppliesEdit(before, entry);
      EditKeepsKnown(before, entry, after);
    case ModelLoadout(loadout) =>
      AppliesLoadout(before, entry);
      LoadoutKeepsKnown(before, entry, after);
    case _ =>
      OthersAreTransparent(entry);
      SilentKeepsKnown(before, entry, after);
  }

  /** An edit may target exactly what the path has yielded, each message under its identity, and the
      summaries of its compactions. */
  lemma {:induction false} KnownIsMentioned(path: seq<Entry>)
    requires DistinctIds(path) && Apart(path) && Fold(path).Ok?
    ensures Known(Fold(path).value) == Mentioned(path)
  {
    if path == [] {
      SettledKnown(EMPTY);
    } else {
      var init, last := path[..|path| - 1], path[|path| - 1];
      InitAndLast(path);
      ApartPrefix(init, [last]);
      KnownIsMentioned(init);
      var before, after := Fold(init).value, Fold(path).value;
      if last.payload.ToolExecution? {
        FoldIsSourced(path);
        BufferedIsKnown(before, last, after);
      } else if MessageOf(last).Some? {
        MessageIsKnown(before, last, after);
      } else if last.payload.Compaction? && last.payload.view.Some? {
        SummaryIsKnown(before, last, last.payload.view.value, after);
      } else {
        OthersKeepKnown(before, last, after);
      }
    }
  }

  // ---------- compactions ----------

  /** A compaction leaves the instructions, then the summary, then the messages that are kept: those
      that were shown last, in their order. */
  predicate CompactsTo(view: CompactionView, shown: seq<Message>, timeline: seq<Message>) {
    var instructions, count := Only(shown, System), |view.keptIds|;
    && |timeline| == |instructions| + 1 + count
    && timeline[..|instructions|] == instructions && timeline[|instructions|] == view.summary
    && forall i :: 0 <= i < count ==>
         timeline[|instructions| + 1 + i] in shown && timeline[|instructions| + 1 + i].id == Some(view.keptIds[i])
  }

  function Only(messages: seq<Message>, role: Role): seq<Message> {
    if messages == [] then []
    else
      var last := messages[|messages| - 1];
      Only(messages[..|messages| - 1], role) + if RoleOf(last) == role then [last] else []
  }

  lemma {:induction false} InstructionsAreSystem(messages: seq<Message>)
    ensures Instructions(messages) == Only(messages, System)
  {
    if messages != [] { InstructionsAreSystem(messages[..|messages| - 1]); }
  }

  lemma {:induction false} CompactionKeepsWhatItNames(view: CompactionView, shown: seq<Message>)
    requires KeepsTail(view, shown)
    ensures CompactsTo(view, shown, CompactedTimeline(view, shown))
  {
    InstructionsAreSystem(shown);
    KeptAreKnown(view, shown);
    var instructions, kept := Instructions(shown), KeptMessages(view.keptIds, ById(shown));
    assert CompactedTimeline(view, shown) == instructions + ([view.summary] + kept);
  }

  // ---------- the timeline ----------

  /** What an entry adds to the timeline itself. */
  function Placed(path: seq<Entry>, entry: Entry): seq<Message> {
    match entry.payload
    case ModelLoadout(Some(loadout)) => [LoadoutMessage(entry.id, loadout, LatestLoadout(path))]
    case _ => OwnMessage(entry)
  }

  /** The timeline behind a path is explained: messages and loadouts in journal order, each run of tool
      results by source index before the next barrier, and a compaction in place of what was shown. */
  ghost predicate Explained(path: seq<Entry>, timeline: seq<Message>)
    decreases |path|
  {
    if path == [] then timeline == []
    else
      var init, last := path[..|path| - 1], path[|path| - 1];
      if !Barrier(last) then Explained(init, timeline)
      else
        exists before :: Explained(init, before) && PlacedAfter(init, last, before, timeline)
  }

  ghost predicate PlacedAfter(path: seq<Entry>, entry: Entry, before: seq<Message>, timeline: seq<Message>) {
    var settled := before + SortedRun(OpenRun(path));
    if entry.payload.Compaction? && entry.payload.view.Some?
    then CompactsTo(entry.payload.view.value, AllEdited(settled, path), timeline)
    else timeline == settled + Placed(path, entry)
  }

  lemma {:induction false} BufferedKeepsTimeline(before: Projection, entry: Entry, after: Projection)
    requires OnlyTools(before.tools) && Apply(before, entry) == Ok(after) && !Barrier(entry)
    ensures after.timeline == before.timeline
  {
  }

  lemma {:induction false} MessageIsPlaced(before: Projection, entry: Entry, after: Projection)
    requires OnlyTools(before.tools) && Apply(before, entry) == Ok(after) && YieldsMessage(entry) && !entry.payload.ToolExecution?
    ensures after.timeline == before.timeline + PendingMessages(before) + OwnMessage(entry)
  {
    assert after == Push(Flush(before), entry, MessageOf(entry).value);
  }

  lemma {:induction false} LoadoutIsPlaced(before: Projection, entry: Entry, after: Projection)
    requires OnlyTools(before.tools) && Apply(before, entry) == Ok(after) && entry.payload.ModelLoadout?
    ensures entry.payload.loadout.Some?
    ensures after.timeline == before.timeline + PendingMessages(before) +
                              [LoadoutMessage(entry.id, entry.payload.loadout.value, before.loadout)]
  {
  }

  lemma {:induction false} EditPlacesPending(before: Projection, entry: Entry, after: Projection)
    requires OnlyTools(before.tools) && Apply(before, entry) == Ok(after) && entry.payload.Edit?
    ensures after.timeline == before.timeline + PendingMessages(before)
  {
  }

  lemma {:induction false} CompactionPlaces(before: Projection, entry: Entry, view: CompactionView, after: Projection)
    requires OnlyTools(before.tools) && Apply(before, entry) == Ok(after) && entry.payload == Compaction(Some(view))
    ensures CompactsTo(view, ProjectEdits(before.timeline + PendingMessages(before), before.edits), after.timeline)
  {
    CompactionKeepsWhatItNames(view, ProjectEdits(Flush(before).timeline, before.edits));
  }

  lemma {:induction false} BarrierPlaces(path: seq<Entry>, entry: Entry, before: Projection, after: Projection)
    requires Fold(path) == Ok(before) && Apply(before, entry) == Ok(after) && Barrier(entry) && !entry.payload.ToolExecution?
    ensures PlacedAfter(path, entry, before.timeline, after.timeline)
  {
    ReplayIsTranscript(path);
    ProjectedLoadoutIsLatest(path);
    var settled := before.timeline + PendingMessages(before);
    if YieldsMessage(entry) {
      MessageIsPlaced(before, entry, after);
    } else if entry.payload.ModelLoadout? {
      LoadoutIsPlaced(before, entry, after);
    } else if entry.payload.Edit? {
      EditPlacesPending(before, entry, after);
      ConcatNothing(settled);
    } else {
      CompactionPlaces(before, entry, entry.payload.view.value, after);
      AllProjected(settled, path);
    }
  }

  lemma {:induction false} TimelineIsExplained(path: seq<Entry>)
    requires Fold(path).Ok?
    ensures Explained(path, Fold(path).value.timeline)
  {
    if path != [] {
      var init, last := path[..|path| - 1], path[|path| - 1];
      TimelineIsExplained(init);
      if Barrier(last) {
        BarrierPlaces(init, last, Fold(init).value, Fold(path).value);
      } else {
        BufferedKeepsTimeline(Fold(init).value, last, Fold(path).value);
      }
    }
  }

  // ---------- what is shown ----------

  /** Main result: the context of a head is said by its path. The raw messages are the transcript and
      the unfinished message; the messages shown are an explained timeline, the open run of tool results
      and the unfinished message, as the edits of the path leave them; loadout and usage are the latest
      and the total. */
  lemma {:induction false} ContextSaysPath(head: Option<Id>, path: seq<Entry>)
    requires Fold(path).Ok?
    ensures
      var context := ContextOf(head, Fold(path).value);
      && context.headId == head && context.raw == Transcript(path) + Unfinished(path)
      && context.loadout == LatestLoadout(path) && context.usage == TotalUsage(path)
      && exists timeline :: Explained(path, timeline) &&
           context.messages == AllEdited(timeline + SortedRun(OpenRun(path)) + Unfinished(path), path)
  {
    FramesAreOpen(path);
    RawHistoryIsTranscript(head, path);
    ProjectedLoadoutIsLatest(path);
    ReplayIsTranscript(path);
    TimelineIsExplained(path);
    var projection := Fold(path).value;
    ConcatAssociates(projection.timeline, PendingMessages(projection), PartialMessages(projection));
    AllProjected(projection.timeline + SortedRun(OpenRun(path)) + Unfinished(path), path);
  }

  lemma {:induction false} FinishedRaw(head: Option<Id>, path: seq<Entry>)
    requires path != [] && path[|path| - 1].payload.AgentTurn? && Fold(path).Ok?
    ensures ContextOf(head, Fold(path).value).raw == Transcript(path)
  {
    NothingIsOpen(path);
    RawHistoryIsTranscript(head, path);
    ConcatNothing(Transcript(path));
  }

  /** Behind a finished assistant message nothing unfinished is shown, nor in the raw history, which
      ends with that message. */
  lemma {:induction false} FinishedShowsNothingUnfinished(head: Option<Id>, path: seq<Entry>)
    requires path != [] && path[|path| - 1].payload.AgentTurn? && Fold(path).Ok?
    ensures
      var raw := ContextOf(head, Fold(path).value).raw;
      && Fold(path).value.frames == [] && raw == Transcript(path)
      && raw != [] && raw[|raw| - 1] == MessageOf(path[|path| - 1]).value
  {
    NothingIsOpen(path);
    FinishedRaw(head, path);
    TranscriptEnds(path);
  }

  lemma {:induction false} NothingIsOpen(path: seq<Entry>)
    requires path != [] && path[|path| - 1].payload.AgentTurn? && Fold(path).Ok?
    ensures Fold(path).value.frames == [] && PartialMessages(Fold(path).value) == []
  {
    FramesAreOpen(path);
  }

  /** It is also what is shown last, unless an edit of the path targets it. */
  lemma {:induction false} FinishedIsShownLast(path: seq<Entry>)
    requires path != [] && path[|path| - 1].payload.AgentTurn? && Fold(path).Ok?
    requires LatestEdit(path, path[|path| - 1].id).None?
    ensures
      var view := View(Fold(path).value);
      view != [] && view[|view| - 1] == MessageOf(path[|path| - 1]).value
  {
    FramesAreOpen(path);
    TurnEndsTimeline(path);
    LastIsShown(Fold(path).value, path, MessageOf(path[|path| - 1]).value);
  }

  lemma {:induction false} TurnEndsTimeline(path: seq<Entry>)
    requires path != [] && path[|path| - 1].payload.AgentTurn? && Fold(path).Ok?
    ensures
      var projection := Fold(path).value;
      && projection.tools == [] && projection.timeline != []
      && projection.timeline[|projection.timeline| - 1] == MessageOf(path[|path| - 1]).value
  {
    var init, entry := path[..|path| - 1], path[|path| - 1];
    ReplayIsTranscript(path);
    assert YieldsMessage(entry) && Barrier(entry);
    MessageIsPlaced(Fold(init).value, entry, Fold(path).value);
    assert OwnMessage(entry) == [MessageOf(entry).value];
  }

  lemma {:induction false} TranscriptEnds(path: seq<Entry>)
    requires path != [] && path[|path| - 1].payload.AgentTurn?
    ensures Transcript(path) != [] && Transcript(path)[|Transcript(path)| - 1] == MessageOf(path[|path| - 1]).value
  {
    var entry := path[|path| - 1];
    assert YieldsMessage(entry) && Barrier(entry);
    assert RawHistory.Settled(path) == path && OpenRun(path) == [];
    assert SortedRun([]) == [];
    ConcatNothing(Transcript(path[..|path| - 1]) + OwnMessage(entry));
  }

  lemma {:induction false} LastIsShown(projection: Projection, path: seq<Entry>, last: Message)
    requires Fold(path) == Ok(projection) && projection.tools == [] && projection.frames == []
    requires projection.timeline != [] && projection.timeline[|projection.timeline| - 1] == last
    requires last.id.Some? && LatestEdit(path, last.id.value).None?
    ensures View(projection) != [] && View(projection)[|View(projection)| - 1] == last
  {
    SettledView(projection);
    LastProjected(projection.timeline, path, last);
  }

  lemma {:induction false} LastProjected(messages: seq<Message>, path: seq<Entry>, last: Message)
    requires Fold(path).Ok? && messages != [] && messages[|messages| - 1] == last
    requires last.id.Some? && LatestEdit(path, last.id.value).None?
    ensures
      var shown := ProjectEdits(messages, Fold(path).value.edits);
      shown != [] && shown[|shown| - 1] == last
  {
    OneProjected(last, path);
    assert Edited(last, path) == [last];
  }

  lemma {:induction false} SettledView(projection: Projection)
    requires projection.tools == [] && projection.frames == []
    ensures View(projection) == ProjectEdits(projection.timeline, projection.edits)
  {
    NothingPending(projection);
    ConcatNothing(projection.timeline);
  }

  lemma {:induction false} NothingPending(projection: Projection)
    requires projection.tools == [] && projection.frames == []
    ensures Tail(projection) == []
  {
    assert PendingMessages(projection) == [] && PartialMessages(projection) == [];
  }
}
