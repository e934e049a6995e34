/** Loadouts are persisted as differences. Replaying the differences that survive in a projected
    view rebuilds the latest loadout, whatever was edited or compacted in between. */
module Transcripts {
  import opened Sequences
  import opened Entries
  import opened Projections
  import opened JournalPaths
  import opened Journals
  import opened Provenance

  datatype Instructed = Instructed(sections: map<string, string>, tools: map<string, ToolDefinition>)

  const NOTHING := Instructed(map[], map[])

  function ChangeSections(sections: map<string, string>, changes: seq<SectionChange>): map<string, string> {
    if changes == [] then sections
    else
      var last := changes[|changes| - 1];
      var earlier := ChangeSections(sections, changes[..|changes| - 1]);
      if last.text.Some? then earlier[last.name := last.text.value] else earlier - {last.name}
  }

  function RemoveTools(tools: map<string, ToolDefinition>, names: seq<string>): map<string, ToolDefinition> {
    if names == [] then tools else RemoveTools(tools, names[..|names| - 1]) - {names[|names| - 1]}
  }

  function AddTools(tools: map<string, ToolDefinition>, added: seq<ToolDefinition>): map<string, ToolDefinition> {
    if added == [] then tools
    else AddTools(tools, added[..|added| - 1])[added[|added| - 1].name := added[|added| - 1]]
  }

  function OrEmpty<T>(items: Option<seq<T>>): seq<T> {
    if items.Some? then items.value else []
  }

  /** The effect of one message: only system messages carry changes; removals come first. */
  function Change(state: Instructed, message: Message): Instructed {
    if !message.SystemMessage? then state
    else Instructed(ChangeSections(state.sections, OrEmpty(message.sections)),
                    AddTools(RemoveTools(state.tools, OrEmpty(message.toolsRemoved)), OrEmpty(message.toolsAdded)))
  }

  function Decode(messages: seq<Message>): Instructed {
    if messages == [] then NOTHING else Change(Decode(messages[..|messages| - 1]), messages[|messages| - 1])
  }

  /** What a loadout says, directly. */
  function Meaning(loadout: Option<Loadout>): Instructed {
    match loadout
    case None => NOTHING
    case Some(current) =>
      Instructed(if current.systemPrompt == "" then map[] else map["instructions" := current.systemPrompt],
                 ToolTable(current.tools))
  }

  // ---------- one difference, decoded on top of its predecessor ----------

  predicate UniqueNames(tools: seq<ToolDefinition>) {
    forall i, j :: 0 <= i < j < |tools| ==> tools[i].name != tools[j].name
  }

  lemma {:induction false} RemovedNames(tools: map<string, ToolDefinition>, names: seq<string>)
    ensures forall name :: name in RemoveTools(tools, names) <==> name in tools && name !in names
    ensures forall name :: name in RemoveTools(tools, names) ==> RemoveTools(tools, names)[name] == tools[name]
  {
    if names != [] {
      RemovedNames(tools, names[..|names| - 1]);
      InitAndLast(names);
    }
  }

  lemma {:induction false} MissingNamesMembers(names: seq<string>, current: map<string, ToolDefinition>)
    ensures forall name :: name in MissingNames(names, current) <==> name in names && name !in current
  {
    if names != [] {
      MissingNamesMembers(names[..|names| - 1], current);
      InitAndLast(names);
    }
  }

  /** Adding the changed declarations on top of the unchanged ones gives the declared table. */
  lemma {:induction false} ChangedOnTop(base: map<string, ToolDefinition>, tools: seq<ToolDefinition>,
                                        prior: map<string, ToolDefinition>)
    requires UniqueNames(tools)
    requires forall i :: 0 <= i < |tools| && tools[i].name in prior ==>
               tools[i].name in base && base[tools[i].name] == prior[tools[i].name]
    ensures AddTools(base, ChangedTools(tools, prior)) == base + ToolTable(tools)
  {
    if tools == [] {
      assert base + map[] == base;
    } else {
      var init, last := tools[..|tools| - 1], tools[|tools| - 1];
      ChangedOnTop(base, init, prior);
      var changed, table := ChangedTools(init, prior), ToolTable(init);
      assert forall i :: 0 <= i < |init| ==> tools[i] == init[i];
      if last.name in prior && prior[last.name] == last {
        ConcatNothing(changed);
        assert last.name !in table;
        assert tools[|tools| - 1].name in base;
        OverlaySame(base, table, last);
      } else {
        assert (changed + [last])[..|changed + [last]| - 1] == changed;
        OverlayNew(base, table, last);
      }
    }
  }

  lemma {:induction false} OverlaySame(base: map<string, ToolDefinition>, table: map<string, ToolDefinition>, tool: ToolDefinition)
    requires tool.name in base && base[tool.name] == tool && tool.name !in table
    ensures base + table[tool.name := tool] == base + table
  {
  }

  lemma {:induction false} OverlayNew(base: map<string, ToolDefinition>, table: map<string, ToolDefinition>, tool: ToolDefinition)
    ensures base + table[tool.name := tool] == (base + table)[tool.name := tool]
  {
  }

  lemma {:induction false} ToolsTelescope(next: seq<ToolDefinition>, previous: seq<ToolDefinition>)
    requires UniqueNames(next)
    ensures
      var removed := MissingNames(ToolNames(previous), ToolTable(next));
      var added := ChangedTools(next, ToolTable(previous));
      AddTools(RemoveTools(ToolTable(previous), removed), added) == ToolTable(next)
  {
    var prior := ToolTable(previous);
    var removed := MissingNames(ToolNames(previous), ToolTable(next));
    MissingNamesMembers(ToolNames(previous), ToolTable(next));
    RemovedNames(prior, removed);
    var base := RemoveTools(prior, removed);
    ChangedOnTop(base, next, prior);
    OverlayAll(base, ToolTable(next));
  }

  lemma {:induction false} OverlayAll(base: map<string, ToolDefinition>, table: map<string, ToolDefinition>)
    requires forall name :: name in base ==> name in table
    ensures base + table == table
  {
  }

  lemma {:induction false} SectionsTelescope(id: Id, next: Loadout, previous: Option<Loadout>)
    ensures ChangeSections(Meaning(previous).sections, OrEmpty(LoadoutMessage(id, next, previous).sections)) ==
            Meaning(Some(next)).sections
  {
    var changes := OrEmpty(LoadoutMessage(id, next, previous).sections);
    if changes != [] {
      assert changes[..|changes| - 1] == [];
      assert ChangeSections(Meaning(previous).sections, []) == Meaning(previous).sections;
    }
  }

  /** The written difference takes the previous loadout's meaning to the next one's. */
  lemma {:induction false} DifferenceTelescopes(id: Id, next: Loadout, previous: Option<Loadout>)
    requires ValidLoadout(Some(next))
    ensures Change(Meaning(previous), LoadoutMessage(id, next, previous)) == Meaning(Some(next))
  {
    SectionsTelescope(id, next, previous);
    ToolsTelescope(next.tools, PriorTools(previous));
    assert Meaning(previous).tools == ToolTable(PriorTools(previous));
  }

  // ---------- messages that change nothing ----------

  predicate Inert(message: Message) {
    message.SystemMessage? ==>
      OrEmpty(message.sections) == [] && OrEmpty(message.toolsAdded) == [] && OrEmpty(message.toolsRemoved) == []
  }

  lemma {:induction false} InertChangesNothing(state: Instructed, message: Message)
    requires Inert(message)
    ensures Change(state, message) == state
  {
  }

  function LoadoutIds(path: seq<Entry>): set<Id> {
    set i | 0 <= i < |path| && path[i].payload.ModelLoadout? :: path[i].id
  }

  /** Either a written loadout difference, or a message without one. */
  predicate Classified(message: Message, loadouts: set<Id>) {
    if message.id.Some? && message.id.value in loadouts then message.SystemMessage? else Inert(message)
  }

  predicate AllClassified(messages: seq<Message>, loadouts: set<Id>) {
    forall i :: 0 <= i < |messages| ==> Classified(messages[i], loadouts)
  }

  predicate EditsInert(edits: map<Id, Option<Message>>, loadouts: set<Id>) {
    edits.Keys !! loadouts &&
    forall id :: id in edits && edits[id].Some? ==> Inert(edits[id].value) && edits[id].value.id == Some(id)
  }

  lemma {:induction false} DecodeConcatInert(a: seq<Message>, b: seq<Message>)
    requires forall i :: 0 <= i < |b| ==> Inert(b[i])
    ensures Decode(a + b) == Decode(a)
  {
    if b == [] {
      assert a + b == a;
    } else {
      DecodeConcatInert(a, b[..|b| - 1]);
      assert (a + b)[..|a + b| - 1] == a + b[..|b| - 1];
      InertChangesNothing(Decode(a), b[|b| - 1]);
    }
  }

  lemma {:induction false} DecodeSnoc(messages: seq<Message>, message: Message)
    ensures Decode(messages + [message]) == Change(Decode(messages), message)
  {
    Snoc(messages, message);
  }

  /** Edits never touch a written difference, so they never change what is decoded. */
  lemma {:induction false} EditsKeepDecoding(messages: seq<Message>, edits: map<Id, Option<Message>>, loadouts: set<Id>)
    requires AllClassified(messages, loadouts) && EditsInert(edits, loadouts)
    ensures Decode(ProjectEdits(messages, edits)) == Decode(messages)
    ensures AllClassified(ProjectEdits(messages, edits), loadouts)
  {
    if messages != [] {
      var init, last := messages[..|messages| - 1], messages[|messages| - 1];
      assert AllClassified(init, loadouts);
      EditsKeepDecoding(init, edits, loadouts);
      var earlier, one := ProjectEdits(init, edits), ProjectOne(last, edits);
      assert Classified(last, loadouts);
      if one == [last] {
        DecodeSnoc(earlier, last);
      } else {
        assert last.id.value in edits;
        DecodeConcatInert(earlier, one);
        InertChangesNothing(Decode(init), last);
      }
    }
  }

  lemma {:induction false} InstructionsDecode(messages: seq<Message>)
    ensures Decode(Instructions(messages)) == Decode(messages)
  {
    if messages != [] {
      var init, last := messages[..|messages| - 1], messages[|messages| - 1];
      InstructionsDecode(init);
      if last.SystemMessage? {
        DecodeSnoc(Instructions(init), last);
      } else {
        assert Instructions(messages) == Instructions(init) + [] == Instructions(init);
      }
    }
  }

  // ---------- the invariant of a replay ----------

  /** System messages of other origin, and replacements, carry no sections or tools. */
  predicate NoForeignChanges(entry: Entry) {
    (MessageOf(entry).Some? ==> Inert(MessageOf(entry).value)) &&
    (entry.payload.Edit? && entry.payload.edit.Some? ==> InertOperations(entry.payload.edit.value.edits))
  }

  predicate InertOperations(operations: seq<EditOperation>) {
    forall i :: 0 <= i < |operations| ==> EditValue(operations[i]).Some? ==> Inert(EditValue(operations[i]).value)
  }

  predicate Placeable(messages: seq<Message>, ids: set<Id>) {
    forall i :: 0 <= i < |messages| ==> messages[i].id.Some? && messages[i].id.value in ids
  }

  function Ids(path: seq<Entry>): set<Id> {
    EntryIds(path) + SummaryIds(path)
  }

  /** The timeline decodes to the latest loadout, and only loadout entries can change that. */
  predicate Written(projection: Projection, loadouts: set<Id>, ids: set<Id>)
    requires OnlyTools(projection.tools)
  {
    && AllClassified(projection.timeline, loadouts)
    && Placeable(projection.timeline, ids)
    && EditsInert(projection.edits, loadouts)
    && Known(projection).Keys <= ids - loadouts
    && Decode(projection.timeline) == Meaning(projection.loadout)
  }

  lemma {:induction false} PendingAreKnown(projection: Projection)
    requires OnlyTools(projection.tools)
    ensures OnlyTools(OrderedTools(projection.tools))
    ensures EntryIds(OrderedTools(projection.tools)) <= Known(projection).Keys
  {
    KnownKeys(projection);
    OrderedToolsSorts(projection.tools);
    SameEntryIds(OrderedTools(projection.tools), projection.tools);
  }

  lemma {:induction false} PendingAreInert(projection: Projection)
    requires OnlyTools(projection.tools)
    ensures
      var pending := PendingMessages(projection);
      forall i :: 0 <= i < |pending| ==>
        Inert(pending[i]) && pending[i].id.Some? && pending[i].id.value in Known(projection)
  {
    PendingAreKnown(projection);
    ToolMessagesIdentified(OrderedTools(projection.tools));
  }

  lemma {:induction false} ToolMessagesIdentified(tools: seq<Entry>)
    requires OnlyTools(tools)
    ensures forall i :: 0 <= i < |tools| ==>
              (Inert(ToolMessage(tools[i])) && ToolMessage(tools[i]).id.Some? &&
               ToolMessage(tools[i]).id.value in EntryIds(tools))
  {
    forall i | 0 <= i < |tools| ensures tools[i].id in EntryIds(tools) { }
  }

  lemma {:induction false} ClassifiedConcat(a: seq<Message>, b: seq<Message>, loadouts: set<Id>, ids: set<Id>)
    requires AllClassified(a, loadouts) && Placeable(a, ids)
    requires forall i :: 0 <= i < |b| ==> Inert(b[i]) && b[i].id.Some? && b[i].id.value in ids - loadouts
    ensures AllClassified(a + b, loadouts) && Placeable(a + b, ids)
  {
  }

  lemma {:induction false} FlushKeepsWritten(projection: Projection, loadouts: set<Id>, ids: set<Id>)
    requires OnlyTools(projection.tools) && Written(projection, loadouts, ids)
    ensures Written(Flush(projection), loadouts, ids)
  {
    PendingAreInert(projection);
    var flushed := Flush(projection);
    DecodeConcatInert(projection.timeline, PendingMessages(projection));
    ClassifiedConcat(projection.timeline, PendingMessages(projection), loadouts, ids);
    assert Known(flushed) == flushed.editable == Known(projection);
  }

  lemma {:induction false} LoadoutIdsLonger(path: seq<Entry>, entry: Entry)
    ensures Ids(path + [entry]) == Ids(path) + {entry.id} + SummaryId(entry)
    ensures LoadoutIds(path + [entry]) == LoadoutIds(path) + (if entry.payload.ModelLoadout? then {entry.id} else {})
    ensures LoadoutIds(path) <= EntryIds(path)
  {
    var longer := path + [entry];
    assert longer[..|longer| - 1] == path && longer[|longer| - 1] == entry;
    EntryIdsSnoc(longer);
    forall id | id in LoadoutIds(longer)
      ensures id in LoadoutIds(path) + (if entry.payload.ModelLoadout? then {entry.id} else {})
    {
      var i :| 0 <= i < |longer| && longer[i].payload.ModelLoadout? && longer[i].id == id;
      if i < |path| { assert path[i].payload.ModelLoadout?; }
    }
    forall i | 0 <= i < |path| && path[i].payload.ModelLoadout? ensures path[i].id in LoadoutIds(longer) {
      assert longer[i] == path[i];
    }
    if entry.payload.ModelLoadout? {
      assert longer[|path|] == entry;
    }
  }

  lemma {:induction false} ClassifiedWithMore(messages: seq<Message>, loadouts: set<Id>, ids: set<Id>, id: Id)
    requires AllClassified(messages, loadouts) && Placeable(messages, ids) && id !in ids
    ensures AllClassified(messages, loadouts + {id})
  {
  }

  lemma {:induction false} ClassifiedSnoc(messages: seq<Message>, message: Message, loadouts: set<Id>)
    requires AllClassified(messages, loadouts) && Classified(message, loadouts)
    ensures AllClassified(messages + [message], loadouts)
  {
  }

  lemma {:induction false} LoadoutKeepsWritten(flushed: Projection, entry: Entry, loadout: Loadout, loadouts: set<Id>, ids: set<Id>)
    requires flushed.tools == [] && Written(flushed, loadouts, ids) && entry.id !in ids
    requires flushed.edits.Keys <= flushed.editable.Keys
    requires ValidLoadout(Some(loadout))
    ensures Written(flushed.(timeline := flushed.timeline + [LoadoutMessage(entry.id, loadout, flushed.loadout)],
                             loadout := Some(loadout)), loadouts + {entry.id}, ids + {entry.id})
  {
    var message := LoadoutMessage(entry.id, loadout, flushed.loadout);
    ClassifiedWithMore(flushed.timeline, loadouts, ids, entry.id);
    ClassifiedSnoc(flushed.timeline, message, loadouts + {entry.id});
    DecodeSnoc(flushed.timeline, message);
    DifferenceTelescopes(entry.id, loadout, flushed.loadout);
  }

  lemma {:induction false} PushKeepsWritten(flushed: Projection, entry: Entry, message: Message, loadouts: set<Id>, ids: set<Id>)
    requires flushed.tools == [] && Written(flushed, loadouts, ids) && entry.id !in ids && loadouts <= ids
    requires message.id == Some(entry.id) && Inert(message)
    ensures Written(Push(flushed, entry, message), loadouts, ids + {entry.id})
  {
    ClassifiedSnoc(flushed.timeline, message, loadouts);
    DecodeSnoc(flushed.timeline, message);
    assert Push(flushed, entry, message).editable == flushed.editable[entry.id := message];
    assert Known(flushed) == flushed.editable;
  }

  lemma {:induction false} PutEditsInert(edits: map<Id, Option<Message>>, operations: seq<EditOperation>, loadouts: set<Id>)
    requires EditsInert(edits, loadouts) && InertOperations(operations)
    requires forall i :: 0 <= i < |operations| ==> operations[i].messageId !in loadouts
    ensures EditsInert(PutEdits(edits, operations), loadouts)
  {
    if operations != [] {
      var init, last := operations[..|operations| - 1], operations[|operations| - 1];
      assert InertOperations(init);
      PutEditsInert(edits, init, loadouts);
      assert last == operations[|operations| - 1];
    }
  }

  lemma {:induction false} EditKeepsWritten(flushed: Projection, edit: ContextEdit, loadouts: set<Id>, ids: set<Id>)
    requires flushed.tools == [] && Written(flushed, loadouts, ids)
    requires ValidEdit(Some(edit), flushed.editable) && InertOperations(edit.edits)
    ensures Written(flushed.(edits := PutEdits(flushed.edits, edit.edits)), loadouts, ids)
  {
    assert Known(flushed) == flushed.editable;
    forall i | 0 <= i < |edit.edits| ensures edit.edits[i].messageId !in loadouts {
      assert ValidOperation(edit.edits[i], flushed.editable);
    }
    PutEditsInert(flushed.edits, edit.edits, loadouts);
  }

  lemma {:induction false} ProjectedPlaceable(messages: seq<Message>, edits: map<Id, Option<Message>>,
                                              loadouts: set<Id>, ids: set<Id>)
    requires Placeable(messages, ids) && EditsInert(edits, loadouts)
    ensures Placeable(ProjectEdits(messages, edits), ids)
  {
    if messages != [] {
      ProjectedPlaceable(messages[..|messages| - 1], edits, loadouts, ids);
      assert messages[|messages| - 1].id.value in ids;
    }
  }

  /** A kept message is found by the identity of a conversation message, which is no loadout's. */
  lemma {:induction false} KeptAreInert(view: CompactionView, visible: seq<Message>, loadouts: set<Id>, ids: set<Id>)
    requires KeepsTail(view, visible) && AllClassified(visible, loadouts) && Placeable(visible, ids)
    ensures forall i :: 0 <= i < |view.keptIds| ==>
              view.keptIds[i] in ById(visible) && view.keptIds[i] in ids - loadouts &&
              Inert(ById(visible)[view.keptIds[i]])
  {
    KeptAreKnown(view, visible);
    HistoryMembers(visible);
    var history := History(visible);
    forall i | 0 <= i < |view.keptIds|
      ensures view.keptIds[i] in ids - loadouts && Inert(ById(visible)[view.keptIds[i]])
    {
      var message := history[|history| - |view.keptIds| + i];
      assert message in visible && message.id == Some(view.keptIds[i]) && !message.SystemMessage?;
      assert Classified(message, loadouts);
      var kept := ById(visible)[view.keptIds[i]];
      assert kept in visible && Classified(kept, loadouts);
    }
  }

  lemma {:induction false} InstructionsStayClassified(visible: seq<Message>, loadouts: set<Id>, ids: set<Id>)
    requires AllClassified(visible, loadouts) && Placeable(visible, ids)
    ensures AllClassified(Instructions(visible), loadouts) && Placeable(Instructions(visible), ids)
  {
    HistoryMembers(visible);
    var front := Instructions(visible);
    forall i | 0 <= i < |front| ensures Classified(front[i], loadouts) && front[i].id.Some? && front[i].id.value in ids {
      assert front[i] in visible;
    }
  }

  lemma {:induction false} TwoParts(a: seq<Message>, b: seq<Message>, loadouts: set<Id>, ids: set<Id>)
    requires AllClassified(a, loadouts) && Placeable(a, ids) && AllClassified(b, loadouts) && Placeable(b, ids)
    ensures AllClassified(a + b, loadouts) && Placeable(a + b, ids)
  {
  }

  lemma {:induction false} KeptTail(view: CompactionView, visible: seq<Message>, loadouts: set<Id>, ids: set<Id>)
    requires KeepsTail(view, visible) && view.summary.AssistantMessage?
    requires view.summary.id.Some? && view.summary.id.value !in loadouts
    requires AllClassified(visible, loadouts) && Placeable(visible, ids)
    ensures forall i :: 0 <= i < |view.keptIds| ==> view.keptIds[i] in ById(visible)
    ensures
      var tail := [view.summary] + KeptMessages(view.keptIds, ById(visible));
      && AllClassified(tail, loadouts) && Placeable(tail, ids + {view.summary.id.value})
      && forall i :: 0 <= i < |tail| ==> Inert(tail[i])
  {
    KeptAreInert(view, visible, loadouts, ids);
    var kept := KeptMessages(view.keptIds, ById(visible));
    assert forall i :: 0 <= i < |kept| ==> kept[i].id == Some(view.keptIds[i]);
  }

  lemma {:induction false} CompactedKeepsDecoding(view: CompactionView, visible: seq<Message>, loadouts: set<Id>, ids: set<Id>)
    requires KeepsTail(view, visible) && view.summary.AssistantMessage?
    requires view.summary.id.Some? && view.summary.id.value !in loadouts
    requires AllClassified(visible, loadouts) && Placeable(visible, ids)
    ensures
      var compacted := CompactedTimeline(view, visible);
      && AllClassified(compacted, loadouts) && Placeable(compacted, ids + {view.summary.id.value})
      && Decode(compacted) == Decode(visible)
  {
    var front, wider := Instructions(visible), ids + {view.summary.id.value};
    KeptTail(view, visible, loadouts, ids);
    var kept := KeptMessages(view.keptIds, ById(visible));
    InstructionsStayClassified(visible, loadouts, ids);
    InstructionsDecode(visible);
    ConcatAssociates(front, [view.summary], kept);
    TwoParts(front, [view.summary] + kept, loadouts, wider);
    DecodeConcatInert(front, [view.summary] + kept);
  }

  lemma {:induction false} CompactionKeepsWritten(flushed: Projection, view: CompactionView, loadouts: set<Id>, ids: set<Id>)
    requires flushed.tools == [] && Written(flushed, loadouts, ids) && loadouts <= ids
    requires ValidCompactionView(view, ProjectEdits(flushed.timeline, flushed.edits))
    requires view.summary.id.value !in loadouts
    ensures
      var visible := ProjectEdits(flushed.timeline, flushed.edits);
      Written(flushed.(timeline := CompactedTimeline(view, visible),
                       usage := flushed.usage.Plus(UsageOf(view.summary)),
                       editable := flushed.editable[view.summary.id.value := view.summary]),
              loadouts, ids + {view.summary.id.value})
  {
    var visible := ProjectEdits(flushed.timeline, flushed.edits);
    EditsKeepDecoding(flushed.timeline, flushed.edits, loadouts);
    ProjectedPlaceable(flushed.timeline, flushed.edits, loadouts, ids);
    CompactedKeepsDecoding(view, visible, loadouts, ids);
    assert Known(flushed) == flushed.editable;
  }

  lemma {:induction false} BufferKeepsWritten(projection: Projection, entry: Entry, loadouts: set<Id>, ids: set<Id>)
    requires OnlyTools(projection.tools) && Written(projection, loadouts, ids) && loadouts <= ids
    requires entry.payload.ToolExecution? && entry.id !in ids
    ensures Written(projection.(tools := projection.tools + [entry]), loadouts, ids + {entry.id})
  {
    var after := projection.(tools := projection.tools + [entry]);
    KnownKeys(projection);
    KnownKeys(after);
    Snoc(projection.tools, entry);
    EntryIdsSnoc(after.tools);
  }

  lemma {:induction false} WiderIds(projection: Projection, loadouts: set<Id>, ids: set<Id>, wider: set<Id>)
    requires OnlyTools(projection.tools) && Written(projection, loadouts, ids)
    requires ids <= wider
    ensures Written(projection, loadouts, wider)
  {
  }

  lemma {:induction false} LoadoutStep(projection: Projection, entry: Entry, after: Projection, loadouts: set<Id>, ids: set<Id>)
    requires OnlyTools(projection.tools) && Written(Flush(projection), loadouts, ids) && entry.id !in ids
    requires projection.edits.Keys <= Known(projection).Keys
    requires entry.payload.ModelLoadout? && Apply(projection, entry) == Ok(after)
    ensures after.tools == [] && Written(after, loadouts + {entry.id}, ids + {entry.id})
  {
    LoadoutKeepsWritten(Flush(projection), entry, entry.payload.loadout.value, loadouts, ids);
  }

  lemma {:induction false} EditStep(projection: Projection, entry: Entry, after: Projection, loadouts: set<Id>, ids: set<Id>)
    requires OnlyTools(projection.tools) && Written(Flush(projection), loadouts, ids)
    requires entry.payload.Edit? && NoForeignChanges(entry) && Apply(projection, entry) == Ok(after)
    ensures after.tools == [] && Written(after, loadouts, ids)
  {
    EditKeepsWritten(Flush(projection), entry.payload.edit.value, loadouts, ids);
  }

  lemma {:induction false} MessageStep(projection: Projection, entry: Entry, after: Projection, loadouts: set<Id>, ids: set<Id>)
    requires OnlyTools(projection.tools) && Written(Flush(projection), loadouts, ids)
    requires entry.id !in ids && loadouts <= ids
    requires YieldsMessage(entry) && NoForeignChanges(entry) && Apply(projection, entry) == Ok(after)
    ensures after.tools == [] && Written(after, loadouts, ids + {entry.id})
  {
    PushKeepsWritten(Flush(projection), entry, MessageOf(entry).value, loadouts, ids);
  }

  /** The situation of one replay step on a path. */
  predicate Stepping(projection: Projection, path: seq<Entry>, entry: Entry, after: Projection) {
    && OnlyTools(projection.tools) && OnlyTools(after.tools) && Apply(projection, entry) == Ok(after)
    && Written(projection, LoadoutIds(path), Ids(path)) && Sourced(projection, path)
    && Apart(path + [entry]) && entry.id !in EntryIds(path) && NoForeignChanges(entry)
  }

  lemma {:induction false} Prepared(projection: Projection, path: seq<Entry>, entry: Entry)
    requires OnlyTools(projection.tools) && Written(projection, LoadoutIds(path), Ids(path)) && Sourced(projection, path)
    requires Apart(path + [entry]) && entry.id !in EntryIds(path)
    ensures Written(Flush(projection), LoadoutIds(path), Ids(path)) && entry.id !in Ids(path)
    ensures LoadoutIds(path) <= Ids(path) && SummaryId(entry) !! LoadoutIds(path)
    ensures projection.edits.Keys <= Known(projection).Keys
    ensures Ids(path + [entry]) == Ids(path) + {entry.id} + SummaryId(entry)
    ensures LoadoutIds(path + [entry]) == LoadoutIds(path) + (if entry.payload.ModelLoadout? then {entry.id} else {})
  {
    LoadoutIdsLonger(path, entry);
    NewId(path, entry);
    FlushKeepsWritten(projection, LoadoutIds(path), Ids(path));
    KnownKeys(projection);
  }

  lemma {:induction false} PlacingStep(projection: Projection, path: seq<Entry>, entry: Entry, after: Projection)
    requires Stepping(projection, path, entry, after)
    requires entry.payload.ModelLoadout? || entry.payload.Edit? || YieldsMessage(entry)
    ensures Written(after, LoadoutIds(path + [entry]), Ids(path + [entry]))
  {
    Prepared(projection, path, entry);
    var loadouts, ids := LoadoutIds(path), Ids(path);
    if entry.payload.ModelLoadout? {
      LoadoutStep(projection, entry, after, loadouts, ids);
    } else if entry.payload.Edit? {
      EditStep(projection, entry, after, loadouts, ids);
    } else {
      MessageStep(projection, entry, after, loadouts, ids);
    }
  }

  lemma {:induction false} BufferingStep(projection: Projection, path: seq<Entry>, entry: Entry)
    requires OnlyTools(projection.tools) && Written(projection, LoadoutIds(path), Ids(path))
    requires entry.payload.ToolExecution? && Apart(path + [entry]) && entry.id !in EntryIds(path)
    ensures Written(projection.(tools := projection.tools + [entry]), LoadoutIds(path + [entry]), Ids(path + [entry]))
  {
    LoadoutIdsLonger(path, entry);
    NewId(path, entry);
    BufferKeepsWritten(projection, entry, LoadoutIds(path), Ids(path));
    WiderIds(projection.(tools := projection.tools + [entry]), LoadoutIds(path), Ids(path) + {entry.id}, Ids(path + [entry]));
  }

  lemma {:induction false} TransparentIds(path: seq<Entry>, entry: Entry)
    requires Transparent(entry)
    ensures LoadoutIds(path + [entry]) == LoadoutIds(path) && Ids(path) <= Ids(path + [entry])
  {
    LoadoutIdsLonger(path, entry);
  }

  lemma {:induction false} TransparentStep(projection: Projection, path: seq<Entry>, entry: Entry, after: Projection)
    requires OnlyTools(projection.tools) && OnlyTools(after.tools) && Apply(projection, entry) == Ok(after)
    requires Written(projection, LoadoutIds(path), Ids(path)) && Transparent(entry)
    ensures Written(after, LoadoutIds(path + [entry]), Ids(path + [entry]))
  {
    TransparentIds(path, entry);
    TransparentKeepsWritten(projection, entry, after, LoadoutIds(path), Ids(path));
    WiderIds(after, LoadoutIds(path), Ids(path), Ids(path + [entry]));
  }

  lemma {:induction false} CompactingStep(projection: Projection, path: seq<Entry>, entry: Entry, after: Projection)
    requires Stepping(projection, path, entry, after)
    requires entry.payload.Compaction? && entry.payload.view.Some?
    ensures Written(after, LoadoutIds(path + [entry]), Ids(path + [entry]))
  {
    Prepared(projection, path, entry);
    var view := entry.payload.view.value;
    CompactionStep(projection, entry, view, after, LoadoutIds(path), Ids(path));
    assert SummaryId(entry) == {view.summary.id.value};
    WiderIds(after, LoadoutIds(path), Ids(path) + {view.summary.id.value}, Ids(path + [entry]));
  }

  lemma {:induction false} StepKeepsWritten(projection: Projection, path: seq<Entry>, entry: Entry, after: Projection)
    requires Stepping(projection, path, entry, after)
    ensures Written(after, LoadoutIds(path + [entry]), Ids(path + [entry]))
  {
    if entry.payload.ToolExecution? {
      BufferingStep(projection, path, entry);
    } else if Transparent(entry) {
      TransparentStep(projection, path, entry, after);
    } else if entry.payload.Compaction? && entry.payload.view.Some? {
      CompactingStep(projection, path, entry, after);
    } else {
      PlacingStep(projection, path, entry, after);
    }
  }

  lemma {:induction false} NewId(path: seq<Entry>, entry: Entry)
    requires Apart(path + [entry]) && entry.id !in EntryIds(path)
    ensures entry.id !in Ids(path)
    ensures SummaryId(entry) !! LoadoutIds(path)
  {
    ApartPrefix(path, [entry]);
    assert entry.id in EntryIds([entry]) by { assert [entry][0] == entry; }
    var longer := path + [entry];
    assert longer[..|longer| - 1] == path;
    EntryIdsSnoc(longer);
    LoadoutIdsLonger(path, entry);
    assert SummaryId(entry) <= SummaryIds(longer);
  }

  lemma {:induction false} TransparentKeepsWritten(projection: Projection, entry: Entry, after: Projection, loadouts: set<Id>, ids: set<Id>)
    requires OnlyTools(projection.tools) && OnlyTools(after.tools) && Written(projection, loadouts, ids)
    requires Transparent(entry) && Apply(projection, entry) == Ok(after)
    ensures Written(after, loadouts, ids)
  {
    TransparentLeavesAlone(projection, entry, after);
  }

  lemma {:induction false} CompactionStep(projection: Projection, entry: Entry, view: CompactionView, after: Projection,
                       loadouts: set<Id>, ids: set<Id>)
    requires OnlyTools(projection.tools) && Written(Flush(projection), loadouts, ids) && loadouts <= ids
    requires entry.payload == Compaction(Some(view)) && ApplyCompaction(projection, entry, view) == Ok(after)
    requires SummaryId(entry) !! loadouts
    ensures Written(after, loadouts, ids + {view.summary.id.value})
  {
    assert view.summary.id.value in SummaryId(entry);
    CompactionKeepsWritten(Flush(projection), view, loadouts, ids);
  }

  lemma {:induction false} ReplayKeepsWritten(path: seq<Entry>)
    requires DistinctIds(path) && Apart(path) && Fold(path).Ok?
    requires forall i :: 0 <= i < |path| ==> NoForeignChanges(path[i])
    ensures Written(Fold(path).value, LoadoutIds(path), Ids(path))
  {
    if path == [] {
      assert Known(EMPTY) == map[];
    } else {
      var init, last := path[..|path| - 1], path[|path| - 1];
      InitAndLast(path);
      ApartPrefix(init, [last]);
      EntryIdsDistinct(init, last);
      assert forall i :: 0 <= i < |init| ==> NoForeignChanges(init[i]) by {
        forall i | 0 <= i < |init| ensures NoForeignChanges(init[i]) { assert init[i] == path[i]; }
      }
      ReplayKeepsWritten(init);
      FoldIsSourced(init);
      StepKeepsWritten(Fold(init).value, init, last, Fold(path).value);
    }
  }

  lemma {:induction false} EntryIdsDistinct(init: seq<Entry>, last: Entry)
    requires DistinctIds(init + [last])
    ensures DistinctIds(init) && last.id !in EntryIds(init)
  {
    forall i, j | 0 <= i < j < |init| ensures init[i].id != init[j].id {
      assert (init + [last])[i].id != (init + [last])[j].id;
    }
    forall i | 0 <= i < |init| ensures init[i].id != last.id {
      assert (init + [last])[i].id != (init + [last])[|init|].id;
    }
  }

  function LatestLoadout(path: seq<Entry>): Option<Loadout> {
    if path == [] then None
    else if path[|path| - 1].payload.ModelLoadout? then path[|path| - 1].payload.loadout
    else LatestLoadout(path[..|path| - 1])
  }

  lemma {:induction false} RemembersLoadout(projection: Projection, entry: Entry, after: Projection)
    requires OnlyTools(projection.tools) && Apply(projection, entry) == Ok(after)
    ensures after.loadout == if entry.payload.ModelLoadout? then entry.payload.loadout else projection.loadout
  {
  }

  lemma {:induction false} ProjectedLoadoutIsLatest(path: seq<Entry>)
    requires Fold(path).Ok?
    ensures Fold(path).value.loadout == LatestLoadout(path)
  {
    if path != [] {
      var init, last := path[..|path| - 1], path[|path| - 1];
      ProjectedLoadoutIsLatest(init);
      RemembersLoadout(Fold(init).value, last, Fold(path).value);
    }
  }

  /** Telescoping: whatever was sent, edited and compacted since, the view decodes to exactly the
      instructions and the tools of the latest loadout. */
  lemma {:induction false} ViewDecodesToLatestLoadout(path: seq<Entry>)
    requires DistinctIds(path) && Apart(path) && Fold(path).Ok?
    requires forall i :: 0 <= i < |path| ==> NoForeignChanges(path[i])
    ensures Decode(View(Fold(path).value)) == Meaning(LatestLoadout(path))
  {
    ReplayKeepsWritten(path);
    ProjectedLoadoutIsLatest(path);
    var projection := Fold(path).value;
    PendingAreInert(projection);
    var tail := Tail(projection);
    var all := projection.timeline + tail;
    DecodeConcatInert(projection.timeline, tail);
    forall i | 0 <= i < |tail| ensures Classified(tail[i], LoadoutIds(path)) {
      if i < |PendingMessages(projection)| {
        assert tail[i] == PendingMessages(projection)[i];
      } else {
        assert tail[i] == PartialMessages(projection)[0];
      }
    }
    EditsKeepDecoding(all, projection.edits, LoadoutIds(path));
  }

  lemma {:induction false} LastNameIsNew(tools: seq<ToolDefinition>, tool: ToolDefinition)
    requires UniqueNames(tools) && tools != [] && tool in tools[..|tools| - 1]
    ensures tool.name != tools[|tools| - 1].name
  {
    var i :| 0 <= i < |tools| - 1 && tools[i] == tool;
  }

  lemma {:induction false} TableFinds(tools: seq<ToolDefinition>, tool: ToolDefinition)
    requires UniqueNames(tools) && tool in tools
    ensures tool.name in ToolTable(tools) && ToolTable(tools)[tool.name] == tool
  {
    var init, last := tools[..|tools| - 1], tools[|tools| - 1];
    InitAndLast(tools);
    if tool != last {
      TableFinds(init, tool);
      LastNameIsNew(tools, tool);
    }
  }

  /** A valid loadout's tools and its table are the same set of declarations. */
  lemma {:induction false} TableHoldsEveryTool(tools: seq<ToolDefinition>)
    requires UniqueNames(tools)
    ensures forall tool :: tool in tools <==> tool.name in ToolTable(tools) && ToolTable(tools)[tool.name] == tool
  {
    forall tool | tool in tools ensures tool.name in ToolTable(tools) && ToolTable(tools)[tool.name] == tool {
      TableFinds(tools, tool);
    }
  }

  lemma {:induction false} ChangedMembers(tools: seq<ToolDefinition>, prior: map<string, ToolDefinition>, tool: ToolDefinition)
    ensures tool in ChangedTools(tools, prior) <==> tool in tools && !(tool.name in prior && prior[tool.name] == tool)
  {
    if tools != [] {
      ChangedMembers(tools[..|tools| - 1], prior, tool);
      InitAndLast(tools);
    }
  }

  /** A loadout is written as what has changed, and nothing else: the prompt if it differs, the tools that
      are new or declared differently, and the names that are gone. */
  lemma {:induction false} OnlyChangesAreWritten(id: Id, next: Loadout, previous: Option<Loadout>)
    requires previous.Some? ==> UniqueNames(previous.value.tools)
    ensures
      var message, prior := LoadoutMessage(id, next, previous), if previous.Some? then previous.value.tools else [];
      && message.toolsAdded.Some? && message.toolsRemoved.Some?
      && (message.sections.Some? <==> previous.None? || previous.value.systemPrompt != next.systemPrompt)
      && (forall tool :: tool in message.toolsAdded.value <==> tool in next.tools && tool !in prior)
      && (forall name :: name in message.toolsRemoved.value <==>
            (exists i :: 0 <= i < |prior| && prior[i].name == name) && !(exists i :: 0 <= i < |next.tools| && next.tools[i].name == name))
  {
    var message, prior := LoadoutMessage(id, next, previous), if previous.Some? then previous.value.tools else [];
    TableHoldsEveryTool(prior);
    forall tool ensures tool in message.toolsAdded.value <==> tool in next.tools && tool !in prior {
      ChangedMembers(next.tools, ToolTable(prior), tool);
    }
    MissingNamesMembers(ToolNames(prior), ToolTable(next.tools));
  }

  // ---------- the resolving loop ----------

  /** What the loop hands to an adapter when the caller overrides nothing. */
  datatype Resolution = Resolution(messages: seq<Message>, content: seq<string>, instructed: Instructed)

  predicate BearsChanges(message: Message) {
    message.SystemMessage? && (message.sections.Some? || message.toolsAdded.Some? || message.toolsRemoved.Some?)
  }

  function Texts(messages: seq<Message>): seq<string> {
    if messages == [] then []
    else
      var last := messages[|messages| - 1];
      Texts(messages[..|messages| - 1]) + if last.SystemMessage? && last.text != "" then [last.text] else []
  }

  predicate Unchanging(messages: seq<Message>) {
    forall i :: 0 <= i < |messages| ==> !BearsChanges(messages[i])
  }

  /** Without any recorded change the messages pass through untouched (None). */
  function Resolved(messages: seq<Message>): Option<Resolution> {
    if Unchanging(messages) then None else Some(Resolution(History(messages), Texts(messages), Decode(messages)))
  }

  lemma {:induction false} UnchangingDecodesEmpty(messages: seq<Message>)
    requires Unchanging(messages)
    ensures Decode(messages) == NOTHING
  {
    if messages != [] {
      var init, last := messages[..|messages| - 1], messages[|messages| - 1];
      forall i | 0 <= i < |init| ensures !BearsChanges(init[i]) { assert init[i] == messages[i]; }
      UnchangingDecodesEmpty(init);
      assert !BearsChanges(messages[|messages| - 1]);
    }
  }

  /** What an adapter is told for a whole branch: the meaning of its latest loadout. If nothing is
      resolved, that loadout says nothing. */
  lemma {:induction false} ResolvesToLatestLoadout(path: seq<Entry>)
    requires DistinctIds(path) && Apart(path) && Fold(path).Ok?
    requires forall i :: 0 <= i < |path| ==> NoForeignChanges(path[i])
    ensures match Resolved(View(Fold(path).value))
            case Some(resolution) => resolution.instructed == Meaning(LatestLoadout(path))
            case None => Meaning(LatestLoadout(path)) == NOTHING
  {
    ViewDecodesToLatestLoadout(path);
    var view := View(Fold(path).value);
    if Unchanging(view) { UnchangingDecodesEmpty(view); }
  }

  method ResolveModelTranscript(messages: seq<Message>) returns (resolved: Option<Resolution>)
    ensures resolved == Resolved(messages)
  {
    if Unchanging(messages) {
      return None;
    }
    var content: seq<string> := [];
    var sections: map<string, string> := map[];
    var tools: map<string, ToolDefinition> := map[];
    var conversation: seq<Message> := [];
    for i := 0 to |messages|
      invariant Instructed(sections, tools) == Decode(messages[..i])
      invariant content == Texts(messages[..i])
      invariant conversation == History(messages[..i])
    {
      var message := messages[i];
      TakeOneMore(messages, i);
      if !message.SystemMessage? {
        conversation := conversation + [message];
        continue;
      }
      if message.text != "" { content := content + [message.text]; }
      var changes := OrEmpty(message.sections);
      sections := ReplaySections(sections, changes);
      var removed := OrEmpty(message.toolsRemoved);
      var added := OrEmpty(message.toolsAdded);
      tools := ReplayTools(tools, removed, added);
    }
    TakeAll(messages);
    return Some(Resolution(conversation, content, Instructed(sections, tools)));
  }

  method ReplaySections(before: map<string, string>, changes: seq<SectionChange>) returns (sections: map<string, string>)
    ensures sections == ChangeSections(before, changes)
  {
    sections := before;
    for i := 0 to |changes|
      invariant sections == ChangeSections(before, changes[..i])
    {
      TakeOneMore(changes, i);
      if changes[i].text.None? {
        sections := sections - {changes[i].name};
      } else {
        sections := sections[changes[i].name := changes[i].text.value];
      }
    }
    TakeAll(changes);
  }

  method ReplayTools(before: map<string, ToolDefinition>, removed: seq<string>, added: seq<ToolDefinition>)
    returns (tools: map<string, ToolDefinition>)
    ensures tools == AddTools(RemoveTools(before, removed), added)
  {
    tools := before;
    for i := 0 to |removed|
      invariant tools == RemoveTools(before, removed[..i])
    {
      TakeOneMore(removed, i);
      tools := tools - {removed[i]};
    }
    TakeAll(removed);
    for i := 0 to |added|
      invariant tools == AddTools(RemoveTools(before, removed), added[..i])
    {
      TakeOneMore(added, i);
      tools := tools[added[i].name := added[i]];
    }
    TakeAll(added);
  }
}
