/** Batches with explicit parents: exactly when every branch of the journal still replays. */
module ExplicitParents {
  import opened Sequences
  import opened Entries
  import opened Projections
  import opened JournalPaths
  import opened Journals
  import opened Provenance
  import opened Replayability

  // ---------- the guards of replay ----------

  /** What replay demands of an entry on top of the projection of its parent. */
  predicate Fits(projection: Projection, entry: Entry)
    requires OnlyTools(projection.tools)
  {
    match entry.payload
    case ModelLoadout(loadout) => ValidLoadout(loadout)
    case Edit(edit) => ValidEdit(edit, Known(projection))
    case Compaction(Some(view)) => view.baseHeadId == entry.parentId && ValidCompactionView(view, Visible(projection))
    case _ => true
  }

  lemma {:induction false} EditFits(projection: Projection, edit: Option<ContextEdit>)
    requires OnlyTools(projection.tools)
    ensures ApplyEdit(projection, edit).Ok? <==> ValidEdit(edit, Known(projection))
  {
  }

  lemma {:induction false} LoadoutFits(projection: Projection, entry: Entry, loadout: Option<Loadout>)
    requires OnlyTools(projection.tools)
    ensures ApplyLoadout(projection, entry, loadout).Ok? <==> ValidLoadout(loadout)
  {
  }

  lemma {:induction false} CompactionFits(projection: Projection, entry: Entry, view: CompactionView)
    requires OnlyTools(projection.tools)
    ensures ApplyCompaction(projection, entry, view).Ok? <==>
            view.baseHeadId == entry.parentId && ValidCompactionView(view, Visible(projection))
  {
  }

  lemma {:induction false} FitsExactly(projection: Projection, entry: Entry)
    requires OnlyTools(projection.tools)
    ensures Apply(projection, entry).Ok? <==> Fits(projection, entry)
  {
    if entry.payload.Edit? {
      EditFits(projection, entry.payload.edit);
    } else if entry.payload.ModelLoadout? {
      LoadoutFits(projection, entry, entry.payload.loadout);
    } else if entry.payload.Compaction? && entry.payload.view.Some? {
      CompactionFits(projection, entry, entry.payload.view.value);
    } else {
      OthersApply(entry, projection);
    }
  }

  // ---------- the path of an entry ----------

  /** Following parent pointers from the entry's parent reaches the root: no parent is missing, and
      none leads back to the entry. */
  predicate Anchored(index: Index, entry: Entry) {
    PathAfter(index, None, entry.parentId).Path?
  }

  /** An entry that leads back to itself through its parents has no path. */
  lemma {:induction false} AnchoredAvoidsItself(index: Index, entry: Entry)
    requires ValidIndex(index) && entry.id in index && index[entry.id] == entry && Anchored(index, entry)
    ensures entry.id !in EntryIds(PathAfter(index, None, entry.parentId).entries)
  {
    var path := PathAfter(index, None, entry.parentId).entries;
    RootedPathsAreChains(index, entry.parentId);
    forall i | 0 <= i < |path| ensures path[i].id != entry.id {
      if path[i].id == entry.id { LoopIsImpossible(index, path, i); }
    }
  }

  lemma {:induction false} LoopIsImpossible(index: Index, path: seq<Entry>, i: nat)
    requires Chain(index, None, path) && DistinctIds(path) && i < |path|
    ensures path[i].parentId != EndOf(None, path)
  {
    if i > 0 { assert path[..i][i - 1] == path[i - 1]; }
  }

  /** An entry has a path exactly when it is anchored: its parent's path and itself. */
  lemma {:induction false} PathThroughParent(index: Index, entry: Entry)
    requires ValidIndex(index) && entry.id in index && index[entry.id] == entry
    ensures PathAfter(index, None, Some(entry.id)).Path? <==> Anchored(index, entry)
    ensures Anchored(index, entry) ==>
              PathAfter(index, None, Some(entry.id)).entries == PathAfter(index, None, entry.parentId).entries + [entry]
  {
    if Anchored(index, entry) { AnchoredHasPath(index, entry); }
    if PathAfter(index, None, Some(entry.id)).Path? { PathAnchors(index, entry); }
  }

  lemma {:induction false} AnchoredHasPath(index: Index, entry: Entry)
    requires ValidIndex(index) && entry.id in index && index[entry.id] == entry && Anchored(index, entry)
    ensures PathAfter(index, None, Some(entry.id)) == Path(PathAfter(index, None, entry.parentId).entries + [entry])
  {
    var path := PathAfter(index, None, entry.parentId).entries;
    RootedPathsAreChains(index, entry.parentId);
    assert Chain(index, EndOf(None, path), [entry]) by { assert [entry][..0] == []; }
    ChainConcat(index, path, [entry]);
    WalkFollowsRootedChain(index, path + [entry]);
  }

  lemma {:induction false} PathAnchors(index: Index, entry: Entry)
    requires ValidIndex(index) && entry.id in index && index[entry.id] == entry
    requires PathAfter(index, None, Some(entry.id)).Path?
    ensures Anchored(index, entry)
  {
    var path := PathAfter(index, None, Some(entry.id)).entries;
    RootedPathsAreChains(index, Some(entry.id));
    ChainPrefix(index, None, path);
    WalkFollowsRootedChain(index, path[..|path| - 1]);
  }

  /** One entry, exactly: it replays when it is anchored, its parent replays, and it fits there. */
  lemma {:induction false} ReplaysExactly(index: Index, entry: Entry)
    requires ValidIndex(index) && entry.id in index && index[entry.id] == entry
    ensures Replay(index, Some(entry.id)).Ok? <==>
            Anchored(index, entry) && Replay(index, entry.parentId).Ok? && Fits(Replay(index, entry.parentId).value, entry)
  {
    PathThroughParent(index, entry);
    if Anchored(index, entry) {
      Snoc(PathAfter(index, None, entry.parentId).entries, entry);
      if Replay(index, entry.parentId).Ok? { FitsExactly(Replay(index, entry.parentId).value, entry); }
    }
  }

  // ---------- whole batches ----------

  /** New entries with distinct ids, wherever their parents point. */
  predicate NewEntries(index: Index, batch: seq<Entry>) {
    DistinctIds(batch) && forall k :: 0 <= k < |batch| ==> batch[k].id !in index
  }

  lemma {:induction false} BatchIsFound(index: Index, batch: seq<Entry>, k: nat)
    requires ValidIndex(index) && NewEntries(index, batch) && k < |batch|
    ensures batch[k].id in Adopted(index, batch) && Adopted(index, batch)[batch[k].id] == batch[k]
  {
    if k < |batch| - 1 { BatchIsFound(index, batch[..|batch| - 1], k); }
  }

  /** The entry is anchored, and fits wherever its parent replays. */
  predicate Grounded(index: Index, entry: Entry) {
    Anchored(index, entry) &&
    (Replay(index, entry.parentId).Ok? ==> Fits(Replay(index, entry.parentId).value, entry))
  }

  lemma {:induction false} MembersOfAdopted(index: Index, batch: seq<Entry>, id: Id) returns (k: nat)
    requires ValidIndex(index) && NewEntries(index, batch)
    requires id in Adopted(index, batch) && id !in index
    ensures k < |batch| && batch[k].id == id
  {
    AdoptedExtends(index, batch);
    assert id in EntryIds(batch);
    k :| k < |batch| && batch[k].id == id;
  }

  lemma {:induction false} GroundedReplays(index: Index, batch: seq<Entry>, id: Id)
    requires ValidIndex(index) && AllReplay(index) && NewEntries(index, batch)
    requires forall k :: 0 <= k < |batch| ==> Grounded(Adopted(index, batch), batch[k])
    requires id in Adopted(index, batch) && PathAfter(Adopted(index, batch), None, Some(id)).Path?
    ensures Replay(Adopted(index, batch), Some(id)).Ok?
    decreases |PathAfter(Adopted(index, batch), None, Some(id)).entries|
  {
    var after := Adopted(index, batch);
    AdoptedExtends(index, batch);
    if id in index {
      EarlierReplaysStay(index, after);
    } else {
      var k := MembersOfAdopted(index, batch, id);
      BatchIsFound(index, batch, k);
      PathThroughParent(after, batch[k]);
      if batch[k].parentId.Some? {
        PathsEndInside(after, batch[k].parentId.value);
        GroundedReplays(index, batch, batch[k].parentId.value);
      }
      ReplaysExactly(after, batch[k]);
    }
  }

  lemma {:induction false} PathsEndInside(index: Index, id: Id)
    requires ValidIndex(index) && PathAfter(index, None, Some(id)).Path?
    ensures id in index
  {
    RootedPathsAreChains(index, Some(id));
  }

  /** Exactly: every branch still replays when each new entry is anchored and fits on its own branch,
      whether its parent is old, earlier, later, missing, or the entry itself. */
  lemma {:induction false} BatchReplaysExactly(index: Index, batch: seq<Entry>)
    requires ValidIndex(index) && AllReplay(index) && NewEntries(index, batch)
    ensures AllReplay(Adopted(index, batch)) <==>
            forall k :: 0 <= k < |batch| ==> Grounded(Adopted(index, batch), batch[k])
  {
    var after := Adopted(index, batch);
    AdoptedExtends(index, batch);
    if AllReplay(after) {
      forall k | 0 <= k < |batch| ensures Grounded(after, batch[k]) {
        BatchIsFound(index, batch, k);
        ReplaysExactly(after, batch[k]);
      }
    }
    if forall k :: 0 <= k < |batch| ==> Grounded(after, batch[k]) {
      EarlierReplaysStay(index, after);
      forall k | 0 <= k < |batch| ensures Replay(after, Some(batch[k].id)).Ok? {
        BatchIsFound(index, batch, k);
        PathThroughParent(after, batch[k]);
        GroundedReplays(index, batch, batch[k].id);
      }
      forall id | id in after && id !in index ensures Replay(after, Some(id)).Ok? {
        var k := MembersOfAdopted(index, batch, id);
        assert Replay(after, Some(batch[k].id)).Ok?;
      }
    }
  }

  // ---------- staged batches ----------

  lemma {:induction false} StagedAdmits(index: Index, logged: nat, head: Option<Id>, appends: seq<Append>)
    requires Stage(index, logged, head, appends).Ok?
    ensures
      var staged := Stage(index, logged, head, appends).value;
      forall k :: 0 <= k < |staged| ==> Admit(index, head, staged[k]).None?
  {
    if appends != [] {
      StagedAdmits(index, logged, head, appends[..|appends| - 1]);
    }
  }

  /** What the checks at append leave open: the parents, and for an edit whether its messages are known
      on the entry's own branch. */
  predicate EditsKnown(index: Index, entry: Entry) {
    entry.payload.Edit? && Replay(index, entry.parentId).Ok? ==>
      ValidEdit(entry.payload.edit, Known(Replay(index, entry.parentId).value))
  }

  lemma {:induction false} AdmittedFits(index: Index, after: Index, head: Option<Id>, entry: Entry)
    requires ValidIndex(index) && Extends(index, after) && AllReplay(index) && (head.Some? ==> head.value in index)
    requires Admit(index, head, entry).None? && Replay(after, entry.parentId).Ok?
    ensures Fits(Replay(after, entry.parentId).value, entry) <==> EditsKnown(after, entry)
  {
    if entry.payload.Compaction? && entry.payload.view.Some? {
      AdmittedCompactionFits(index, after, head, entry, entry.payload.view.value);
    }
  }

  lemma {:induction false} AdmittedCompactionFits(index: Index, after: Index, head: Option<Id>, entry: Entry, view: CompactionView)
    requires ValidIndex(index) && Extends(index, after) && AllReplay(index) && (head.Some? ==> head.value in index)
    requires entry.payload == Compaction(Some(view)) && Admit(index, head, entry).None?
    requires Replay(after, entry.parentId).Ok?
    ensures Fits(Replay(after, entry.parentId).value, entry)
  {
    assert Replay(index, head).Ok? by { if head.None? { RootReplays(index); } }
    AdmittedCompaction(index, head, entry, view);
    CompactionParent(index, head, entry, view);
    ContextsAreStable(index, after, head);
    AcceptedViewIsSettled(view, Replay(index, head).value);
  }

  lemma {:induction false} RootReplays(index: Index)
    ensures Replay(index, None) == Ok(EMPTY)
  {
  }

  lemma {:induction false} CompactionParent(index: Index, head: Option<Id>, entry: Entry, view: CompactionView)
    requires entry.payload == Compaction(Some(view)) && Admit(index, head, entry).None?
    ensures entry.parentId == head
  {
  }

  /** For a batch that passed the checks, explicit parents or not: every branch still replays if and
      only if each entry is anchored and each edit names messages known on its own branch. */
  lemma {:induction false} StagedBatchReplaysExactly(index: Index, logged: nat, head: Option<Id>, appends: seq<Append>)
    requires ValidIndex(index) && AllReplay(index) && (head.Some? ==> head.value in index)
    requires Stage(index, logged, head, appends).Ok?
    ensures
      var batch := Stage(index, logged, head, appends).value;
      var after := Adopted(index, batch);
      AllReplay(after) <==> forall k :: 0 <= k < |batch| ==> Anchored(after, batch[k]) && EditsKnown(after, batch[k])
  {
    var batch := Stage(index, logged, head, appends).value;
    var after := Adopted(index, batch);
    StagedAreNew(index, logged, head, appends);
    StagedAdmits(index, logged, head, appends);
    AdoptedExtends(index, batch);
    BatchReplaysExactly(index, batch);
    forall k | 0 <= k < |batch|
      ensures Grounded(after, batch[k]) <==> Anchored(after, batch[k]) && EditsKnown(after, batch[k])
    {
      if Replay(after, batch[k].parentId).Ok? { AdmittedFits(index, after, head, batch[k]); }
    }
  }
}
