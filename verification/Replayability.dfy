/** Admission implies replay: an entry checked against the view at the current head never makes a
    later replay of its branch throw, although replay checks it against another view. */
module Replayability {
  import opened Sequences
  import opened Entries
  import opened Projections
  import opened JournalPaths
  import opened Journals
  import opened Provenance

  // ---------- what may be edited only grows, and keeps its roles ----------

  predicate Remembers(earlier: map<Id, Message>, later: map<Id, Message>) {
    forall id :: id in earlier ==> id in later && RoleOf(later[id]) == RoleOf(earlier[id])
  }

  lemma {:induction false} BufferedAreResults(editable: map<Id, Message>, tools: seq<Entry>)
    requires OnlyTools(tools)
    ensures PutTools(editable, tools).Keys == editable.Keys + EntryIds(tools)
    ensures forall id :: id in EntryIds(tools) ==> PutTools(editable, tools)[id].ToolResultMessage?
  {
    PutToolsKeys(editable, tools);
    if tools != [] {
      EntryIdsSnoc(tools);
      BufferedAreResults(editable, tools[..|tools| - 1]);
    }
  }

  lemma {:induction false} KnownValues(projection: Projection)
    requires OnlyTools(projection.tools)
    ensures Known(projection).Keys == projection.editable.Keys + EntryIds(projection.tools)
    ensures forall id :: id in EntryIds(projection.tools) ==> Known(projection)[id].ToolResultMessage?
    ensures forall id :: id in Known(projection) && id !in EntryIds(projection.tools) ==>
              Known(projection)[id] == projection.editable[id]
  {
    OrderedToolsSorts(projection.tools);
    SameEntryIds(OrderedTools(projection.tools), projection.tools);
    PutToolsKeys(projection.editable, OrderedTools(projection.tools));
    BufferedAreResults(projection.editable, OrderedTools(projection.tools));
  }

  lemma {:induction false} BufferingRemembers(projection: Projection, entry: Entry)
    requires OnlyTools(projection.tools) && entry.payload.ToolExecution?
    requires entry.id !in Known(projection)
    ensures Remembers(Known(projection), Known(projection.(tools := projection.tools + [entry])))
  {
    var after := projection.(tools := projection.tools + [entry]);
    KnownValues(projection);
    KnownValues(after);
    assert after.tools[..|after.tools| - 1] == projection.tools;
    EntryIdsSnoc(after.tools);
  }

  /** What becomes editable when an entry flushes: everything known, the entry's own message, and
      the summary it introduces. */
  predicate Adds(known: map<Id, Message>, entry: Entry, after: map<Id, Message>) {
    (forall id :: id in known && id != entry.id && id !in SummaryId(entry) ==> id in after && after[id] == known[id]) &&
    (forall id :: id in SummaryId(entry) ==> id in after && after[id].AssistantMessage?) &&
    after.Keys <= known.Keys + {entry.id} + SummaryId(entry)
  }

  lemma {:induction false} NothingBuffered(projection: Projection)
    requires projection.tools == []
    ensures Known(projection) == projection.editable
  {
  }

  lemma {:induction false} PutAdds(known: map<Id, Message>, entry: Entry, message: Message)
    requires SummaryId(entry) == {}
    ensures Adds(known, entry, known[entry.id := message])
  {
  }

  lemma {:induction false} MessageAdds(projection: Projection, entry: Entry, after: Projection)
    requires OnlyTools(projection.tools)
    requires YieldsMessage(entry) && Apply(projection, entry) == Ok(after)
    ensures Adds(Known(projection), entry, Known(after))
  {
    MessagePushes(projection, entry);
    PushEdits(projection, entry, MessageOf(entry).value);
    NothingBuffered(after);
    PutAdds(Known(projection), entry, MessageOf(entry).value);
  }

  lemma {:induction false} LoadoutAdds(projection: Projection, entry: Entry, after: Projection)
    requires OnlyTools(projection.tools)
    requires entry.payload.ModelLoadout? && ApplyLoadout(projection, entry, entry.payload.loadout) == Ok(after)
    ensures Adds(Known(projection), entry, Known(after))
  {
    NothingBuffered(after);
    assert after.editable == Known(projection);
  }

  lemma {:induction false} EditAdds(projection: Projection, entry: Entry, after: Projection)
    requires OnlyTools(projection.tools)
    requires entry.payload.Edit? && ApplyEdit(projection, entry.payload.edit) == Ok(after)
    ensures Adds(Known(projection), entry, Known(after))
  {
    NothingBuffered(after);
    assert after.editable == Known(projection);
  }

  lemma {:induction false} CompactionAdds(projection: Projection, entry: Entry, view: CompactionView, after: Projection)
    requires OnlyTools(projection.tools)
    requires entry.payload == Compaction(Some(view)) && ApplyCompaction(projection, entry, view) == Ok(after)
    ensures Adds(Known(projection), entry, Known(after))
  {
    NothingBuffered(after);
    SummaryAdds(Known(projection), entry, view, after.editable);
  }

  lemma {:induction false} SummaryAdds(known: map<Id, Message>, entry: Entry, view: CompactionView, after: map<Id, Message>)
    requires entry.payload == Compaction(Some(view)) && view.summary.AssistantMessage? && view.summary.id.Some?
    requires after == known[view.summary.id.value := view.summary]
    ensures Adds(known, entry, after)
  {
    assert SummaryId(entry) == {view.summary.id.value};
  }

  /** One step of replay, seen from what may be edited. */
  lemma {:induction false} KnownStep(projection: Projection, entry: Entry, after: Projection)
    requires OnlyTools(projection.tools) && OnlyTools(after.tools) && Apply(projection, entry) == Ok(after)
    ensures
      || (after == projection.(tools := projection.tools + [entry]) && entry.payload.ToolExecution?)
      || (if Transparent(entry) then Known(after) == Known(projection) else Adds(Known(projection), entry, Known(after)))
  {
    if entry.payload.ToolExecution? {
    } else if entry.payload.ModelLoadout? {
      LoadoutAdds(projection, entry, after);
    } else if entry.payload.Edit? {
      EditAdds(projection, entry, after);
    } else if YieldsMessage(entry) {
      MessageAdds(projection, entry, after);
    } else if Transparent(entry) {
      TransparentLeavesAlone(projection, entry, after);
    } else {
      CompactionAdds(projection, entry, entry.payload.view.value, after);
    }
  }

  /** Summaries that may be edited are assistant messages, whatever else was placed. */
  predicate SummariesAreAssistants(projection: Projection, path: seq<Entry>)
    requires OnlyTools(projection.tools)
  {
    forall id :: id in SummaryIds(path) && id in Known(projection) ==> Known(projection)[id].AssistantMessage?
  }

  lemma {:induction false} SummaryStep(projection: Projection, path: seq<Entry>, entry: Entry, after: Projection)
    requires OnlyTools(projection.tools) && OnlyTools(after.tools) && Apply(projection, entry) == Ok(after)
    requires Sourced(projection, path) && SummariesAreAssistants(projection, path)
    requires Apart(path + [entry]) && entry.id !in EntryIds(path)
    ensures SummariesAreAssistants(after, path + [entry])
    ensures Remembers(Known(projection), Known(after))
  {
    KnownStep(projection, entry, after);
    if entry.payload.ToolExecution? && after == projection.(tools := projection.tools + [entry]) {
      EntryIdsLonger(path, entry);
      KnownKeys(projection);
      BufferingRemembers(projection, entry);
      BufferingSummaries(projection, path, entry, after);
    } else {
      KnownGrows(projection, path, entry, after);
    }
  }

  lemma {:induction false} EntryIdsLonger(path: seq<Entry>, entry: Entry)
    ensures EntryIds(path + [entry]) == EntryIds(path) + {entry.id}
    ensures SummaryIds(path + [entry]) == SummaryIds(path) + SummaryId(entry)
  {
    Snoc(path, entry);
    EntryIdsSnoc(path + [entry]);
  }

  lemma {:induction false} KnownGrows(projection: Projection, path: seq<Entry>, entry: Entry, after: Projection)
    requires OnlyTools(projection.tools) && OnlyTools(after.tools)
    requires if Transparent(entry) then Known(after) == Known(projection) else Adds(Known(projection), entry, Known(after))
    requires Sourced(projection, path) && SummariesAreAssistants(projection, path)
    requires Apart(path + [entry]) && entry.id !in EntryIds(path)
    ensures SummariesAreAssistants(after, path + [entry])
    ensures Remembers(Known(projection), Known(after))
  {
    EntryIdsLonger(path, entry);
    KnownKeys(projection);
    if Transparent(entry) {
      assert SummaryId(entry) == {};
    } else {
      AddingRemembers(Known(projection), EntryIds(path), SummaryIds(path), entry, Known(after));
    }
  }

  lemma {:induction false} AddingRemembers(known: map<Id, Message>, ids: set<Id>, summaries: set<Id>, entry: Entry, after: map<Id, Message>)
    requires Adds(known, entry, after) && known.Keys <= ids + summaries
    requires entry.id !in ids + summaries && ids !! SummaryId(entry) && entry.id !in SummaryId(entry)
    requires forall id :: id in summaries && id in known ==> known[id].AssistantMessage?
    ensures Remembers(known, after)
    ensures forall id :: id in summaries + SummaryId(entry) && id in after ==> after[id].AssistantMessage?
  {
  }

  lemma {:induction false} BufferingSummaries(projection: Projection, path: seq<Entry>, entry: Entry, after: Projection)
    requires OnlyTools(projection.tools) && OnlyTools(after.tools) && entry.payload.ToolExecution?
    requires after == projection.(tools := projection.tools + [entry])
    requires Sourced(projection, path) && SummariesAreAssistants(projection, path)
    requires Apart(path + [entry])
    ensures SummariesAreAssistants(after, path + [entry])
  {
    var longer := path + [entry];
    assert longer[..|longer| - 1] == path && after.tools[..|after.tools| - 1] == projection.tools;
    EntryIdsSnoc(longer);
    EntryIdsSnoc(after.tools);
    assert SummaryIds(longer) == SummaryIds(path);
    KnownValues(projection);
    KnownValues(after);
  }

  lemma {:induction false} FoldKeepsSummaries(path: seq<Entry>)
    requires DistinctIds(path) && Apart(path) && Fold(path).Ok?
    ensures SummariesAreAssistants(Fold(path).value, path)
  {
    if path != [] {
      var init, last := path[..|path| - 1], path[|path| - 1];
      InitAndLast(path);
      ApartPrefix(init, [last]);
      FoldKeepsSummaries(init);
      FoldIsSourced(init);
      NotAmong(init, last);
      SummaryStep(Fold(init).value, init, last, Fold(path).value);
    }
  }

  // ---------- a compaction is never admitted while an assistant message is unfinished ----------

  /** The last message that a compaction keeps has an identity, and it is the last there is. */
  lemma {:induction false} LastKeptIsNamed(view: CompactionView, messages: seq<Message>)
    requires KeepsTail(view, messages)
    ensures History(messages) != [] && History(messages)[|History(messages)| - 1].id.Some?
  {
    var history, last := History(messages), |view.keptIds| - 1;
    assert history[|history| - |view.keptIds| + last].id == Some(view.keptIds[last]);
  }

  lemma {:induction false} PartialBlocksCompaction(view: CompactionView, messages: seq<Message>, partial: Message)
    requires partial.id.None? && !partial.SystemMessage?
    ensures !ValidCompactionView(view, messages + [partial])
  {
    Snoc(messages, partial);
    assert History(messages + [partial]) == History(messages) + [partial];
    if KeepsTail(view, messages + [partial]) { LastKeptIsNamed(view, messages + [partial]); }
  }

  lemma {:induction false} ViewWithPartial(projection: Projection)
    requires OnlyTools(projection.tools)
    ensures View(projection) ==
            ProjectEdits(Flush(projection).timeline, projection.edits) + PartialMessages(projection)
  {
    var placed := projection.timeline + PendingMessages(projection);
    assert projection.timeline + Tail(projection) == placed + PartialMessages(projection);
    ProjectEditsDistributes(placed, PartialMessages(projection), projection.edits);
    assert ProjectEdits(PartialMessages(projection), projection.edits) == PartialMessages(projection) by {
      if projection.frames != [] {
        assert PartialMessages(projection)[..0] == [];
      }
    }
  }

  /** With frames pending at the head, every compaction is rejected. */
  lemma {:induction false} NoCompactionOverPartial(index: Index, head: Option<Id>, entry: Entry)
    requires entry.payload.Compaction? && entry.payload.view.Some?
    requires Replay(index, head).Ok? && Replay(index, head).value.frames != []
    ensures Admit(index, head, entry).Some?
  {
    var projection, view := Replay(index, head).value, entry.payload.view.value;
    ViewWithPartial(projection);
    PartialBlocksCompaction(view, ProjectEdits(Flush(projection).timeline, projection.edits),
                            ReduceAssistantFrames(projection.frames).value);
    if Admit(index, head, entry).None? { AdmittedCompaction(index, head, entry, view); }
  }

  // ---------- batches ----------

  /** A batch as admission sees it: new distinct ids, default placement, every check passed
      against the head before the batch. */
  predicate Admitted(index: Index, head: Option<Id>, batch: seq<Entry>) {
    && DistinctIds(batch)
    && forall k :: 0 <= k < |batch| ==>
         batch[k].id !in index && batch[k].parentId == NextParent(head, batch[..k]) &&
         Admit(index, head, batch[k]).None?
  }

  predicate DefaultPlacement(appends: seq<Append>) {
    forall i :: 0 <= i < |appends| ==> appends[i].parentId.None?
  }

  lemma {:induction false} StagedIsAdmitted(index: Index, logged: nat, head: Option<Id>, appends: seq<Append>)
    requires DefaultPlacement(appends) && Stage(index, logged, head, appends).Ok?
    ensures Admitted(index, head, Stage(index, logged, head, appends).value)
  {
    if appends != [] {
      var init := appends[..|appends| - 1];
      StagedIsAdmitted(index, logged, head, init);
      var staged := Stage(index, logged, head, init).value;
      var entry := EntryFor(appends[|appends| - 1], logged, head, staged);
      assert appends[|appends| - 1].parentId.None?;
      AdmittedSnoc(index, head, staged, entry);
    }
  }

  lemma {:induction false} AdmittedSnoc(index: Index, head: Option<Id>, staged: seq<Entry>, entry: Entry)
    requires Admitted(index, head, staged)
    requires entry.id !in index && !HasId(staged, entry.id)
    requires entry.parentId == NextParent(head, staged) && Admit(index, head, entry).None?
    ensures Admitted(index, head, staged + [entry])
  {
    var longer := staged + [entry];
    forall k | 0 <= k < |longer|
      ensures longer[k].id !in index && longer[k].parentId == NextParent(head, longer[..k])
      ensures Admit(index, head, longer[k]).None?
    {
      if k < |staged| { assert longer[..k] == staged[..k]; } else { assert longer[..k] == staged; }
    }
  }

  lemma {:induction false} AdmittedByPlacement(index: Index, head: Option<Id>, staged: seq<Entry>, committed: seq<Entry>)
    requires Admitted(index, head, staged) && |committed| == |staged|
    requires forall i :: 0 <= i < |staged| ==> SamePlacement(committed[i], staged[i])
    ensures Admitted(index, head, committed)
  {
    forall k | 0 <= k < |committed| ensures committed[k].parentId == NextParent(head, committed[..k]) {
      NextParentInside(head, committed, k);
      NextParentInside(head, staged, k);
    }
    forall k | 0 <= k < |committed| ensures Admit(index, head, committed[k]).None? {
      SamePlaceAdmits(index, head, committed[k], staged[k]);
    }
  }

  lemma {:induction false} SamePlaceAdmits(index: Index, head: Option<Id>, a: Entry, b: Entry)
    requires SamePlacement(a, b)
    ensures Admit(index, head, a) == Admit(index, head, b)
  {
  }

  lemma {:induction false} EditStillValid(edit: Option<ContextEdit>, earlier: map<Id, Message>, later: map<Id, Message>)
    requires ValidEdit(edit, earlier) && Remembers(earlier, later)
    ensures ValidEdit(edit, later)
  {
    forall i | 0 <= i < |edit.value.edits| ensures ValidOperation(edit.value.edits[i], later) {
      assert ValidOperation(edit.value.edits[i], earlier);
    }
  }

  /** An admitted entry replays on any projection that remembers the one it was checked against,
      and a compaction on that projection itself. */
  lemma {:induction false} AdmittedApplies(index: Index, head: Option<Id>, entry: Entry, checked: Projection, now: Projection)
    requires Replay(index, head) == Ok(checked) && OnlyTools(now.tools) && OnlyTools(checked.tools)
    requires Admit(index, head, entry).None?
    requires Remembers(Known(checked), Known(now))
    requires entry.payload.Compaction? && entry.payload.view.Some? ==> now == checked
    ensures Apply(now, entry).Ok?
  {
    if entry.payload.Edit? {
      AdmittedEdit(index, head, entry, checked);
      EditApplies(entry, checked, now);
    } else if entry.payload.Compaction? && entry.payload.view.Some? {
      AdmittedCompaction(index, head, entry, entry.payload.view.value);
      CompactionStillValid(entry, entry.payload.view.value, checked);
    } else if entry.payload.ModelLoadout? {
      LoadoutApplies(index, head, entry, now);
    } else {
      OthersApply(entry, now);
    }
  }

  lemma {:induction false} LoadoutApplies(index: Index, head: Option<Id>, entry: Entry, now: Projection)
    requires OnlyTools(now.tools) && entry.payload.ModelLoadout? && Admit(index, head, entry).None?
    ensures Apply(now, entry).Ok?
  {
  }

  lemma {:induction false} OthersApply(entry: Entry, now: Projection)
    requires OnlyTools(now.tools) && !entry.payload.ModelLoadout? && !entry.payload.Edit?
    requires !(entry.payload.Compaction? && entry.payload.view.Some?)
    ensures Apply(now, entry).Ok?
  {
  }

  lemma {:induction false} EditApplies(entry: Entry, checked: Projection, now: Projection)
    requires OnlyTools(now.tools) && OnlyTools(checked.tools)
    requires entry.payload.Edit? && ValidEdit(entry.payload.edit, Known(checked))
    requires Remembers(Known(checked), Known(now))
    ensures Apply(now, entry).Ok?
  {
    EditStillValid(entry.payload.edit, Known(checked), Known(now));
    ValidEditApplies(entry, now);
  }

  lemma {:induction false} AdmittedEdit(index: Index, head: Option<Id>, entry: Entry, checked: Projection)
    requires Replay(index, head) == Ok(checked) && entry.payload.Edit? && Admit(index, head, entry).None?
    ensures ValidEdit(entry.payload.edit, Known(checked))
  {
  }

  lemma {:induction false} ValidEditApplies(entry: Entry, now: Projection)
    requires OnlyTools(now.tools) && entry.payload.Edit? && ValidEdit(entry.payload.edit, Known(now))
    ensures Apply(now, entry).Ok?
  {
  }

  lemma {:induction false} AdmittedCompaction(index: Index, head: Option<Id>, entry: Entry, view: CompactionView)
    requires entry.payload == Compaction(Some(view)) && Replay(index, head).Ok?
    requires Admit(index, head, entry).None?
    ensures view.baseHeadId == entry.parentId
    ensures ValidCompactionView(view, View(Replay(index, head).value))
  {
  }

  lemma {:induction false} CompactionStillValid(entry: Entry, view: CompactionView, checked: Projection)
    requires OnlyTools(checked.tools) && entry.payload == Compaction(Some(view))
    requires view.baseHeadId == entry.parentId && ValidCompactionView(view, View(checked))
    ensures Apply(checked, entry).Ok?
  {
    AcceptedViewIsSettled(view, checked);
    ValidViewApplies(entry, view, checked);
  }

  /** The messages a compaction is checked against when it is replayed. */
  function Visible(projection: Projection): seq<Message>
    requires OnlyTools(projection.tools)
  {
    ProjectEdits(Flush(projection).timeline, projection.edits)
  }

  lemma {:induction false} AcceptedViewIsSettled(view: CompactionView, checked: Projection)
    requires OnlyTools(checked.tools) && ValidCompactionView(view, View(checked))
    ensures checked.frames == [] && View(checked) == Visible(checked)
  {
    ViewWithPartial(checked);
    ConcatNothing(Visible(checked));
    if checked.frames != [] {
      PartialBlocksCompaction(view, Visible(checked), ReduceAssistantFrames(checked.frames).value);
    }
  }

  lemma {:induction false} ValidViewApplies(entry: Entry, view: CompactionView, checked: Projection)
    requires OnlyTools(checked.tools) && entry.payload == Compaction(Some(view))
    requires view.baseHeadId == entry.parentId && ValidCompactionView(view, Visible(checked))
    ensures Apply(checked, entry).Ok?
  {
    assert ApplyCompaction(checked, entry, view).Ok?;
  }

  lemma {:induction false} RemembersChain(a: map<Id, Message>, b: map<Id, Message>, c: map<Id, Message>)
    requires Remembers(a, b) && Remembers(b, c)
    ensures Remembers(a, c)
  {
  }

  /** Every prefix of an admitted batch replays behind the head. */
  lemma {:induction false} BatchReplays(index: Index, head: Option<Id>, path: seq<Entry>, batch: seq<Entry>)
    requires ValidIndex(index) && PathAfter(index, None, head) == Path(path) && Fold(path).Ok?
    requires Admitted(index, head, batch)
    requires DistinctIds(path + batch) && Apart(path + batch)
    ensures Fold(path + batch).Ok?
    ensures Remembers(Known(Fold(path).value), Known(Fold(path + batch).value))
  {
    if batch == [] {
      ConcatNothing(path);
    } else {
      var init, last := batch[..|batch| - 1], batch[|batch| - 1];
      ConcatSnoc(path, batch);
      AdmittedPrefix(index, head, batch);
      DistinctPrefix(path + init, [last]);
      ApartPrefix(path + init, [last]);
      BatchReplays(index, head, path, init);
      if last.payload.Compaction? && last.payload.view.Some? {
        CompactionComesFirst(index, head, path, batch);
        ConcatNothing(path);
      }
      OneMoreReplays(index, head, path, path + init, last);
    }
  }

  lemma {:induction false} OneMoreReplays(index: Index, head: Option<Id>, path: seq<Entry>, before: seq<Entry>, last: Entry)
    requires PathAfter(index, None, head) == Path(path) && Fold(path).Ok? && Fold(before).Ok?
    requires Admit(index, head, last).None?
    requires DistinctIds(before + [last]) && Apart(before + [last])
    requires Remembers(Known(Fold(path).value), Known(Fold(before).value))
    requires last.payload.Compaction? && last.payload.view.Some? ==> before == path
    ensures Fold(before + [last]).Ok?
    ensures Remembers(Known(Fold(path).value), Known(Fold(before + [last]).value))
  {
    var checked, now := Fold(path).value, Fold(before).value;
    Snoc(before, last);
    FoldIsSourced(before);
    FoldKeepsSummaries(before);
    AdmittedApplies(index, head, last, checked, now);
    NotAmong(before, last);
    SummaryStep(now, before, last, Fold(before + [last]).value);
    RemembersChain(Known(checked), Known(now), Known(Fold(before + [last]).value));
  }

  lemma {:induction false} DistinctPrefix(a: seq<Entry>, b: seq<Entry>)
    requires DistinctIds(a + b)
    ensures DistinctIds(a)
  {
    forall i, j | 0 <= i < j < |a| ensures a[i].id != a[j].id {
      assert (a + b)[i].id != (a + b)[j].id;
    }
  }

  lemma {:induction false} AdmittedPrefix(index: Index, head: Option<Id>, batch: seq<Entry>)
    requires batch != [] && Admitted(index, head, batch)
    ensures Admitted(index, head, batch[..|batch| - 1])
  {
    var init := batch[..|batch| - 1];
    forall k | 0 <= k < |init| ensures init[..k] == batch[..k] && init[k] == batch[k] { PrefixOfInit(batch, k); }
  }

  /** Only the first entry of a batch can be a compaction: later ones have a parent that is not
      the head. */
  lemma {:induction false} CompactionComesFirst(index: Index, head: Option<Id>, path: seq<Entry>, batch: seq<Entry>)
    requires ValidIndex(index) && PathAfter(index, None, head) == Path(path)
    requires batch != [] && Admitted(index, head, batch)
    requires batch[|batch| - 1].payload.Compaction? && batch[|batch| - 1].payload.view.Some?
    ensures |batch| == 1
  {
    var k := |batch| - 1;
    NextParentInside(head, batch, k);
    assert head.Some? ==> head.value in index;
  }

  lemma {:induction false} NextParentInside(head: Option<Id>, batch: seq<Entry>, k: nat)
    requires k <= |batch|
    ensures NextParent(head, batch[..k]) == if k == 0 then head else Some(batch[k - 1].id)
  {
  }

  // ---------- whole journals ----------

  /** Every branch of the journal replays. */
  predicate AllReplay(index: Index) {
    forall id :: id in index ==> Replay(index, Some(id)).Ok?
  }

  /** No summary anywhere in the journal took the identity of an entry. */
  predicate IndexApart(index: Index) {
    forall a, b :: a in index && b in index ==> a !in SummaryId(index[b])
  }

  /** The path to the k-th entry of an adopted batch is the head's path and the batch up to it. */
  lemma {:induction false} AdoptedPaths(index: Index, head: Option<Id>, path: seq<Entry>, batch: seq<Entry>)
    requires ValidIndex(index) && PathAfter(index, None, head) == Path(path)
    requires Admitted(index, head, batch)
    ensures PathAfter(Adopted(index, batch), None, NextParent(head, batch)) == Path(path + batch)
  {
    if batch == [] {
      ConcatNothing(path);
    } else {
      var init, last := batch[..|batch| - 1], batch[|batch| - 1];
      AdmittedPrefix(index, head, batch);
      AdoptedPaths(index, head, path, init);
      AdoptedExtends(index, init);
      InitAndLast(batch);
      NotAmong(init, last);
      PathOfExtension(Adopted(index, init), NextParent(head, init), path + init, last);
      ConcatSnoc(path, batch);
    }
  }

  lemma {:induction false} SummaryIdOrigin(path: seq<Entry>, id: Id) returns (i: nat)
    requires id in SummaryIds(path)
    ensures i < |path| && id in SummaryId(path[i])
  {
    if id in SummaryId(path[|path| - 1]) {
      i := |path| - 1;
    } else {
      i := SummaryIdOrigin(path[..|path| - 1], id);
    }
  }

  lemma {:induction false} PathsAreApart(index: Index, head: Option<Id>)
    requires ValidIndex(index) && IndexApart(index) && PathAfter(index, None, head).Path?
    ensures Apart(PathAfter(index, None, head).entries)
    ensures DistinctIds(PathAfter(index, None, head).entries)
  {
    RootedPathsAreChains(index, head);
    var path := PathAfter(index, None, head).entries;
    forall id | id in SummaryIds(path) ensures id !in EntryIds(path) {
      var i := SummaryIdOrigin(path, id);
      assert path[i].id in index && index[path[i].id] == path[i];
      forall j | 0 <= j < |path| ensures path[j].id != id {
        assert path[j].id in index;
      }
    }
  }

  lemma {:induction false} EarlierReplaysStay(earlier: Index, later: Index)
    requires ValidIndex(earlier) && Extends(earlier, later) && AllReplay(earlier)
    ensures forall id :: id in earlier ==> Replay(later, Some(id)).Ok?
  {
    forall id | id in earlier ensures Replay(later, Some(id)).Ok? {
      RootIsAlwaysReached(earlier, Some(id), {});
      assert Replay(earlier, Some(id)).Ok?;
      ContextsAreStable(earlier, later, Some(id));
    }
  }

  lemma {:induction false} ApartBefore(earlier: Index, later: Index)
    requires Extends(earlier, later) && IndexApart(later)
    ensures IndexApart(earlier)
  {
    forall a, b | a in earlier && b in earlier ensures a !in SummaryId(earlier[b]) {
      assert later[b] == earlier[b];
    }
  }

  /** A default-placed batch that passes admission leaves a journal in which every branch still
      replays: no later projection throws. */
  lemma {:induction false} AdmissionImpliesReplay(index: Index, head: Option<Id>, batch: seq<Entry>)
    requires ValidIndex(index) && AllReplay(index) && (head.Some? ==> head.value in index)
    requires Admitted(index, head, batch)
    requires IndexApart(Adopted(index, batch))
    ensures AllReplay(Adopted(index, batch))
  {
    if batch != [] {
      var init := batch[..|batch| - 1];
      AdmittedPrefix(index, head, batch);
      AdoptedStep(index, batch);
      ApartBefore(Adopted(index, init), Adopted(index, batch));
      AdmissionImpliesReplay(index, head, init);
      EarlierReplaysStay(Adopted(index, init), Adopted(index, batch));
      LastReplays(index, head, batch);
      AllReplayStep(Adopted(index, init), batch[|batch| - 1]);
    }
  }

  /** The same for what a context does: stage a batch, let the writer store it, adopt it. */
  lemma {:induction false} CommittedBatchReplays(entries: seq<Entry>, head: Option<Id>, appends: seq<Append>, committed: seq<Entry>)
    requires AllReplay(IndexOf(entries)) && (head.Some? ==> head.value in IndexOf(entries))
    requires DefaultPlacement(appends)
    requires Stage(IndexOf(entries), |entries|, head, appends).Ok?
    requires SameBatch(committed, Stage(IndexOf(entries), |entries|, head, appends).value)
    requires IndexApart(IndexOf(entries + committed))
    ensures AllReplay(IndexOf(entries + committed))
  {
    var index := IndexOf(entries);
    StagedIsAdmitted(index, |entries|, head, appends);
    AdmittedByPlacement(index, head, Stage(index, |entries|, head, appends).value, committed);
    AdoptionIndexes(entries, committed);
    AdmissionImpliesReplay(index, head, committed);
  }

  lemma {:induction false} AdoptedStep(index: Index, batch: seq<Entry>)
    requires ValidIndex(index) && DistinctIds(batch) && batch != []
    requires forall i :: 0 <= i < |batch| ==> batch[i].id !in index
    ensures ValidIndex(Adopted(index, batch[..|batch| - 1]))
    ensures Extends(Adopted(index, batch[..|batch| - 1]), Adopted(index, batch))
  {
    var init, last := batch[..|batch| - 1], batch[|batch| - 1];
    AdoptedExtends(index, init);
    InitAndLast(batch);
    NotAmong(init, last);
  }

  lemma {:induction false} AllReplayStep(earlier: Index, last: Entry)
    requires forall id :: id in earlier ==> Replay(earlier[last.id := last], Some(id)).Ok?
    requires Replay(earlier[last.id := last], Some(last.id)).Ok?
    ensures AllReplay(earlier[last.id := last])
  {
  }

  lemma {:induction false} LastReplays(index: Index, head: Option<Id>, batch: seq<Entry>)
    requires ValidIndex(index) && AllReplay(index) && (head.Some? ==> head.value in index)
    requires batch != [] && Admitted(index, head, batch)
    requires IndexApart(Adopted(index, batch))
    ensures Replay(Adopted(index, batch), Some(batch[|batch| - 1].id)).Ok?
  {
    RootIsAlwaysReached(index, head, {});
    assert head.None? ==> Replay(index, head) == Ok(EMPTY);
    var path := PathAfter(index, None, head).entries;
    AdoptedExtends(index, batch);
    AdoptedPaths(index, head, path, batch);
    PathsAreApart(Adopted(index, batch), NextParent(head, batch));
    BatchReplays(index, head, path, batch);
  }

  // ---------- explicit parents ----------

  const OPENING := Entry("opening", 1, None, UserInput(Json("hello", false)))
  const RETRACTION := Append(Some("retraction"), "", Edit(Some(
    ContextEdit(1, true, [EditOperation("opening", Exclude)]))), Some(None))

  const GREETED: Index := map["opening" := OPENING]
  const GREETING := UserMessage(Some("opening"), Settled(Json("hello", false)))
  const OPENED := Projection([GREETING], [GREETING], map["opening" := GREETING], map[], [], [], None, NO_USAGE)

  lemma {:induction false} OpeningReplays()
    ensures Replay(GREETED, Some("opening")) == Ok(OPENED) && AllReplay(GREETED)
  {
    WalkFollowsRootedChain(GREETED, [OPENING]);
    Snoc([], OPENING);
    ConcatNothing([OPENING]);
    ConcatNothing([GREETING]);
    assert Fold([]) == Ok(EMPTY) && Known(EMPTY) == map[];
    assert Flush(EMPTY) == EMPTY;
    assert Fold([OPENING]) == Ok(Push(EMPTY, OPENING, GREETING));
  }

  lemma {:induction false} RetractionIsAdmitted()
    ensures Stage(GREETED, 1, Some("opening"), [RETRACTION]) == Ok([EntryFor(RETRACTION, 1, Some("opening"), [])])
  {
    OpeningReplays();
    var appends, entry := [RETRACTION], EntryFor(RETRACTION, 1, Some("opening"), []);
    assert Known(OPENED) == OPENED.editable;
    assert !Blank("opening") by { assert !IsSpace("opening"[0]); }
    assert ValidOperation(entry.payload.edit.value.edits[0], Known(OPENED));
    assert entry.id !in GREETED by { assert |"retraction"| != |"opening"|; }
    assert appends[..|appends| - 1] == [];
    assert Stage(GREETED, 1, Some("opening"), []) == Ok([]);
    assert [] + [entry] == [entry];
  }

  /** With an explicit parent the check looks at the wrong branch: the edit of a message at the
      head is admitted, but placed at a root it edits a message that is not on its path. */
  lemma {:induction false} ExplicitParentsCanBreakReplay()
    ensures AllReplay(GREETED) && Stage(GREETED, 1, Some("opening"), [RETRACTION]).Ok?
    ensures
      var batch := Stage(GREETED, 1, Some("opening"), [RETRACTION]).value;
      Replay(Adopted(GREETED, batch), Some("retraction")) == Err(InvalidEdit)
  {
    OpeningReplays();
    RetractionIsAdmitted();
    var batch := [EntryFor(RETRACTION, 1, Some("opening"), [])];
    assert batch[..0] == [] && Adopted(GREETED, []) == GREETED;
    WalkFollowsRootedChain(Adopted(GREETED, batch), batch);
    assert Known(EMPTY) == map[];
    assert Fold([]) == Ok(EMPTY) && batch[..|batch| - 1] == [];
    assert Fold(batch) == Apply(EMPTY, batch[0]);
  }
}
