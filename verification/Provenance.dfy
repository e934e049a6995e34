/** Where the identities held by a projection come from. */
module Provenance {
  import opened Sequences
  import opened Entries
  import opened Projections
  import opened JournalPaths

  /** The identity of the summary an entry introduces, if it is a compaction with a model view. */
  function SummaryId(entry: Entry): set<Id> {
    match entry.payload
    case Compaction(Some(view)) => if view.summary.id.Some? then {view.summary.id.value} else {}
    case _ => {}
  }

  function SummaryIds(path: seq<Entry>): set<Id> {
    if path == [] then {} else SummaryIds(path[..|path| - 1]) + SummaryId(path[|path| - 1])
  }

  /** Identities drawn for summaries never coincide with entry identities: they are random UUIDs. */
  predicate Apart(path: seq<Entry>) {
    EntryIds(path) !! SummaryIds(path)
  }

  lemma {:induction false} EntryIdsConcat(a: seq<Entry>, b: seq<Entry>)
    ensures EntryIds(a + b) == EntryIds(a) + EntryIds(b)
  {
    forall id | id in EntryIds(a + b) ensures id in EntryIds(a) + EntryIds(b) {
      var i :| 0 <= i < |a + b| && (a + b)[i].id == id;
      if i < |a| { assert a[i].id == id; } else { assert b[i - |a|].id == id; }
    }
    forall i | 0 <= i < |a| ensures a[i].id in EntryIds(a + b) { assert (a + b)[i] == a[i]; }
    forall i | 0 <= i < |b| ensures b[i].id in EntryIds(a + b) { assert (a + b)[|a| + i] == b[i]; }
  }

  lemma {:induction false} SummaryIdsConcat(a: seq<Entry>, b: seq<Entry>)
    ensures SummaryIds(a + b) == SummaryIds(a) + SummaryIds(b)
  {
    if b == [] {
      assert a + b == a;
    } else {
      SummaryIdsConcat(a, b[..|b| - 1]);
      assert (a + b)[..|a + b| - 1] == a + b[..|b| - 1];
    }
  }

  lemma {:induction false} ApartPrefix(a: seq<Entry>, b: seq<Entry>)
    requires Apart(a + b)
    ensures Apart(a) && EntryIds(b) !! SummaryIds(a)
  {
    EntryIdsConcat(a, b);
    SummaryIdsConcat(a, b);
  }

  lemma {:induction false} PutToolsKeys(editable: map<Id, Message>, tools: seq<Entry>)
    requires OnlyTools(tools)
    ensures PutTools(editable, tools).Keys == editable.Keys + EntryIds(tools)
    ensures forall id :: id in PutTools(editable, tools) && id !in EntryIds(tools) ==>
              PutTools(editable, tools)[id] == editable[id]
  {
    if tools != [] {
      EntryIdsSnoc(tools);
      PutToolsKeys(editable, tools[..|tools| - 1]);
    }
  }

  lemma {:induction false} SameEntryIds(a: seq<Entry>, b: seq<Entry>)
    requires forall entry :: entry in a <==> entry in b
    ensures EntryIds(a) == EntryIds(b)
  {
    forall i | 0 <= i < |a| ensures a[i].id in EntryIds(b) {
      assert a[i] in b;
    }
    forall i | 0 <= i < |b| ensures b[i].id in EntryIds(a) {
      assert b[i] in a;
    }
  }

  lemma {:induction false} KnownKeys(projection: Projection)
    requires OnlyTools(projection.tools)
    ensures Known(projection).Keys == projection.editable.Keys + EntryIds(projection.tools)
  {
    OrderedToolsSorts(projection.tools);
    PutToolsKeys(projection.editable, OrderedTools(projection.tools));
    SameEntryIds(OrderedTools(projection.tools), projection.tools);
  }

  lemma {:induction false} PutEditsKeys(edits: map<Id, Option<Message>>, operations: seq<EditOperation>, allowed: set<Id>)
    requires edits.Keys <= allowed
    requires forall i :: 0 <= i < |operations| ==> operations[i].messageId in allowed
    ensures PutEdits(edits, operations).Keys <= allowed
  {
    if operations != [] {
      PutEditsKeys(edits, operations[..|operations| - 1], allowed);
    }
  }

  /** Editable messages are placed entries or summaries; only editable messages are edited; what
      is buffered has not been placed yet. */
  predicate Sourced(projection: Projection, path: seq<Entry>) {
    && projection.edits.Keys <= projection.editable.Keys
    && EntryIds(projection.tools) <= EntryIds(path) && DistinctIds(projection.tools)
    && projection.editable.Keys <= (EntryIds(path) - EntryIds(projection.tools)) + SummaryIds(path)
  }

  lemma {:induction false} BufferKeepsSourced(projection: Projection, path: seq<Entry>, entry: Entry)
    requires Sourced(projection, path)
    requires Apart(path + [entry]) && entry.id !in EntryIds(path)
    ensures Sourced(projection.(tools := projection.tools + [entry]), path + [entry])
  {
    var longer, tools := path + [entry], projection.tools + [entry];
    assert longer[..|longer| - 1] == path && tools[..|tools| - 1] == projection.tools;
    EntryIdsSnoc(longer);
    EntryIdsSnoc(tools);
    ApartPrefix(path, [entry]);
    assert entry.id in EntryIds([entry]) by { assert [entry][0] == entry; }
    assert SummaryIds(longer) == SummaryIds(path) + SummaryId(entry);
    forall i | 0 <= i < |projection.tools| ensures tools[i].id != entry.id {
      assert projection.tools[i].id in EntryIds(projection.tools);
    }
  }

  /** The effect on identities of an entry that flushes. */
  predicate Places(projection: Projection, entry: Entry, after: Projection)
    requires OnlyTools(projection.tools)
  {
    && after.tools == []
    && Known(projection).Keys <= after.editable.Keys
    && after.editable.Keys <= Known(projection).Keys + {entry.id} + SummaryId(entry)
    && after.edits.Keys <= after.editable.Keys + projection.edits.Keys
  }

  predicate LeavesAlone(projection: Projection, after: Projection) {
    after.tools == projection.tools && after.editable == projection.editable && after.edits == projection.edits
  }

  lemma {:induction false} EditPlaces(projection: Projection, entry: Entry, after: Projection)
    requires OnlyTools(projection.tools)
    requires entry.payload.Edit? && ApplyEdit(projection, entry.payload.edit) == Ok(after)
    ensures Places(projection, entry, after)
  {
    var known := Known(projection);
    assert after.editable == known;
    PutEditsKeys(projection.edits, entry.payload.edit.value.edits, known.Keys + projection.edits.Keys);
  }

  lemma {:induction false} CompactionPlaces(projection: Projection, entry: Entry, view: CompactionView, after: Projection)
    requires OnlyTools(projection.tools)
    requires entry.payload == Compaction(Some(view)) && ApplyCompaction(projection, entry, view) == Ok(after)
    ensures Places(projection, entry, after)
  {
    assert after.editable == Known(projection)[view.summary.id.value := view.summary];
    assert after.edits == projection.edits;
  }

  lemma {:induction false} LoadoutPlaces(projection: Projection, entry: Entry, after: Projection)
    requires OnlyTools(projection.tools)
    requires entry.payload.ModelLoadout? && ApplyLoadout(projection, entry, entry.payload.loadout) == Ok(after)
    ensures Places(projection, entry, after)
  {
    assert after.editable == Known(projection);
  }

  predicate YieldsMessage(entry: Entry) {
    MessageOf(entry).Some? && !entry.payload.ToolExecution?
  }

  /** An entry with a message of its own, tool results aside, flushes and pushes it. */
  lemma {:induction false} MessagePushes(projection: Projection, entry: Entry)
    requires OnlyTools(projection.tools) && YieldsMessage(entry)
    ensures Apply(projection, entry) == Ok(Push(Flush(projection), entry, MessageOf(entry).value))
    ensures SummaryId(entry) == {}
  {
  }

  lemma {:induction false} PushEdits(projection: Projection, entry: Entry, message: Message)
    requires OnlyTools(projection.tools)
    ensures Push(Flush(projection), entry, message).editable == Known(projection)[entry.id := message]
    ensures Push(Flush(projection), entry, message).tools == []
    ensures Push(Flush(projection), entry, message).edits == projection.edits
  {
  }

  lemma {:induction false} MessagePlaces(projection: Projection, entry: Entry, after: Projection)
    requires OnlyTools(projection.tools)
    requires YieldsMessage(entry) && Apply(projection, entry) == Ok(after)
    ensures Places(projection, entry, after)
  {
    MessagePushes(projection, entry);
    PushEdits(projection, entry, MessageOf(entry).value);
  }

  predicate Transparent(entry: Entry) {
    MessageOf(entry).None? && !entry.payload.ModelLoadout? && !entry.payload.Edit? &&
    !(entry.payload.Compaction? && entry.payload.view.Some?)
  }

  lemma {:induction false} TransparentLeavesAlone(projection: Projection, entry: Entry, after: Projection)
    requires OnlyTools(projection.tools)
    requires Transparent(entry) && Apply(projection, entry) == Ok(after)
    ensures LeavesAlone(projection, after)
  {
  }

  /** Every entry but a tool result flushes the buffer or leaves identities alone. */
  lemma {:induction false} PlacementEffect(projection: Projection, entry: Entry, after: Projection)
    requires OnlyTools(projection.tools)
    requires !entry.payload.ToolExecution? && Apply(projection, entry) == Ok(after)
    ensures Places(projection, entry, after) || LeavesAlone(projection, after)
  {
    if entry.payload.Edit? {
      EditPlaces(projection, entry, after);
    } else if entry.payload.ModelLoadout? {
      LoadoutPlaces(projection, entry, after);
    } else if YieldsMessage(entry) {
      MessagePlaces(projection, entry, after);
    } else if Transparent(entry) {
      TransparentLeavesAlone(projection, entry, after);
    } else {
      CompactionPlaces(projection, entry, entry.payload.view.value, after);
    }
  }

  lemma {:induction false} PlaceKeepsSourced(projection: Projection, path: seq<Entry>, entry: Entry, after: Projection)
    requires OnlyTools(projection.tools) && Sourced(projection, path)
    requires Places(projection, entry, after) || LeavesAlone(projection, after)
    ensures Sourced(after, path + [entry])
  {
    Snoc(path, entry);
    EntryIdsSnoc(path + [entry]);
    KnownKeys(projection);
    if after.tools == [] { assert EntryIds(after.tools) == {}; }
  }

  lemma {:induction false} ApplyKeepsSourced(projection: Projection, path: seq<Entry>, entry: Entry)
    requires OnlyTools(projection.tools) && Sourced(projection, path)
    requires Apart(path + [entry]) && entry.id !in EntryIds(path)
    requires Apply(projection, entry).Ok?
    ensures Sourced(Apply(projection, entry).value, path + [entry])
  {
    if entry.payload.ToolExecution? {
      BufferKeepsSourced(projection, path, entry);
    } else {
      PlacementEffect(projection, entry, Apply(projection, entry).value);
      PlaceKeepsSourced(projection, path, entry, Apply(projection, entry).value);
    }
  }

  lemma {:induction false} FoldIsSourced(path: seq<Entry>)
    requires DistinctIds(path) && Apart(path)
    requires Fold(path).Ok?
    ensures Sourced(Fold(path).value, path)
  {
    if path == [] {
    } else {
      var init, last := path[..|path| - 1], path[|path| - 1];
      InitAndLast(path);
      ApartPrefix(init, [last]);
      FoldIsSourced(init);
      ApplyKeepsSourced(Fold(init).value, init, last);
    }
  }
}
