/** What a journal means: the context of each head, and which batches it admits. */
module Journals {
  import opened Sequences
  import opened Entries
  import opened Projections
  import opened JournalPaths

  /** The last entry under each id, as the constructor and every adoption index them. */
  function IndexOf(entries: seq<Entry>): (index: Index)
    ensures ValidIndex(index) && index.Keys == EntryIds(entries)
  {
    if entries == [] then map[]
    else
      EntryIdsSnoc(entries);
      IndexOf(entries[..|entries| - 1])[entries[|entries| - 1].id := entries[|entries| - 1]]
  }

  function LastId(entries: seq<Entry>): Option<Id> {
    if entries == [] then None else Some(entries[|entries| - 1].id)
  }

  lemma {:induction false} RootIsAlwaysReached(index: Index, current: Option<Id>, seen: set<Id>)
    ensures !Walk(index, None, current, seen).Unreachable?
    decreases |index.Keys - seen|
  {
    if current.Some? && current.value !in seen && current.value in index {
      var grown := seen + {current.value};
      assert index.Keys - grown < index.Keys - seen by { assert current.value in index.Keys - seen; }
      SmallerSet(index.Keys - grown, index.Keys - seen);
      RootIsAlwaysReached(index, index[current.value].parentId, grown);
    }
  }

  /** The reference: replay the whole root-to-head path from scratch. */
  function Replay(index: Index, head: Option<Id>): (result: Result<Projection>)
    ensures result.Ok? ==> OnlyTools(result.value.tools)
  {
    match PathAfter(index, None, head)
    case Path(path) => Fold(path)
    case Failed(reason) => Err(reason)
    case Unreachable => RootIsAlwaysReached(index, head, {}); assert false; Err(InvalidLoadout)
  }

  function ContextAt(index: Index, head: Option<Id>): Result<ModelContext> {
    match Replay(index, head)
    case Ok(projection) => Ok(ContextOf(head, projection))
    case Err(reason) => Err(reason)
  }

  // ---------- admission ----------

  /** `parentId` is absent unless the caller places the entry itself; `generatedId` is the random
      identity drawn when the caller gives none. */
  datatype Append = Append(id: Option<Id>, generatedId: Id, payload: Payload, parentId: Option<Option<Id>>)

  function IdOf(append: Append): Id {
    if append.id.Some? then append.id.value else append.generatedId
  }

  predicate HasId(entries: seq<Entry>, id: Id) {
    exists i :: 0 <= i < |entries| && entries[i].id == id
  }

  /** The checks made before anything is written, all against the view at the current head. */
  function Admit(index: Index, head: Option<Id>, entry: Entry): Option<Failure> {
    match entry.payload
    case ModelLoadout(loadout) => if ValidLoadout(loadout) then None else Some(InvalidLoadout)
    case Edit(edit) => (
      match Replay(index, head)
      case Err(reason) => Some(reason)
      case Ok(projection) => if ValidEdit(edit, Known(projection)) then None else Some(InvalidEdit))
    case Compaction(Some(view)) =>
      if view.baseHeadId != head || entry.parentId != head then Some(CutPointMismatch)
      else (
        match ContextAt(index, head)
        case Err(reason) => Some(reason)
        case Ok(context) => if ValidCompactionView(view, context.messages) then None else Some(InvalidCompaction))
    case _ => None
  }

  function NextParent(head: Option<Id>, staged: seq<Entry>): Option<Id> {
    if staged == [] then head else Some(staged[|staged| - 1].id)
  }

  function EntryFor(append: Append, logged: nat, head: Option<Id>, staged: seq<Entry>): Entry {
    Entry(IdOf(append), logged + |staged| + 1,
          if append.parentId.Some? then append.parentId.value else NextParent(head, staged), append.payload)
  }

  /** The entries a batch would add, or the reason it is rejected. */
  function Stage(index: Index, logged: nat, head: Option<Id>, appends: seq<Append>): (result: Result<seq<Entry>>)
    ensures result.Ok? ==> |result.value| == |appends|
  {
    if appends == [] then Ok([])
    else match Stage(index, logged, head, appends[..|appends| - 1])
      case Err(reason) => Err(reason)
      case Ok(staged) =>
        var entry := EntryFor(appends[|appends| - 1], logged, head, staged);
        if entry.id in index || HasId(staged, entry.id) then Err(DuplicateId(entry.id))
        else match Admit(index, head, entry)
          case Some(reason) => Err(reason)
          case None => Ok(staged + [entry])
  }

  /** Staged entries bring new, mutually distinct ids. */
  lemma {:induction false} StagedAreNew(index: Index, logged: nat, head: Option<Id>, appends: seq<Append>)
    requires Stage(index, logged, head, appends).Ok?
    ensures
      var staged := Stage(index, logged, head, appends).value;
      DistinctIds(staged) && forall i :: 0 <= i < |staged| ==> staged[i].id !in index
  {
    if appends != [] {
      StagedAreNew(index, logged, head, appends[..|appends| - 1]);
    }
  }

  /** Adding a new entry leaves every complete path and every context unchanged. */
  lemma {:induction false} ContextsAreStable(earlier: Index, later: Index, head: Option<Id>)
    requires ValidIndex(earlier) && Extends(earlier, later)
    requires ContextAt(earlier, head).Ok?
    ensures ContextAt(later, head) == ContextAt(earlier, head)
    ensures Replay(later, head) == Replay(earlier, head)
  {
    RootIsAlwaysReached(earlier, head, {});
    RootedPathsAreStable(earlier, later, head);
  }

  lemma {:induction false} IndexOfSnoc(entries: seq<Entry>, entry: Entry)
    ensures IndexOf(entries + [entry]) == IndexOf(entries)[entry.id := entry]
  {
    Snoc(entries, entry);
  }

  // ---------- incremental updates ----------

  datatype ModelUpdate = ModelUpdate(
    headId: Option<Id>, messages: seq<Message>, reset: bool, revision: nat, totalMessageCount: nat)

  predicate EndsInTool(index: Index, head: Option<Id>) {
    Truthy(head) && head.value in index && index[head.value].payload.ToolExecution?
  }

  predicate ForcesReset(index: Index, previous: Option<Id>, entry: Entry) {
    entry.payload.Edit? || entry.payload.Compaction? ||
    (entry.payload.CustomEntry? && entry.payload.contextHead) ||
    (entry.payload.ToolExecution? && EndsInTool(index, previous))
  }

  function Revision(index: Index, head: Option<Id>): nat {
    if Truthy(head) && head.value in index then index[head.value].seqNo else 0
  }

  function SliceFrom(messages: seq<Message>, start: nat): seq<Message> {
    if start <= |messages| then messages[start..] else []
  }

  function Respond(index: Index, head: Option<Id>, reset: bool, previousLength: nat): Result<ModelUpdate> {
    match ContextAt(index, head)
    case Err(reason) => Err(reason)
    case Ok(context) =>
      Ok(ModelUpdate(head, if reset then context.messages else SliceFrom(context.messages, previousLength),
                     reset, Revision(index, head), |context.messages|))
  }

  predicate NeedsReset(index: Index, previous: Option<Id>, delta: seq<Entry>) {
    exists i :: 0 <= i < |delta| && ForcesReset(index, previous, delta[i])
  }

  /** What a caller gets who last saw `previousLength` messages at `previous` (absent: nothing). */
  function GetUpdate(index: Index, head: Option<Id>, previous: Option<Option<Id>>, previousLength: nat)
    : Result<ModelUpdate>
  {
    if previous.None? then Respond(index, head, true, previousLength)
    else match PathAfter(index, previous.value, head)
      case Failed(reason) => Err(reason)
      case Unreachable => Respond(index, head, true, previousLength)
      case Path(delta) => Respond(index, head, NeedsReset(index, previous.value, delta), previousLength)
  }

  // ---------- adoption ----------

  /** The writer may number entries itself; everything else must be what was staged. */
  predicate SamePlacement(a: Entry, b: Entry) {
    a.id == b.id && a.parentId == b.parentId && a.payload == b.payload
  }

  predicate SameBatch(committed: seq<Entry>, staged: seq<Entry>) {
    |committed| == |staged| && forall i :: 0 <= i < |staged| ==> SamePlacement(committed[i], staged[i])
  }

  /** The index after the entries of a batch have been added. */
  function Adopted(index: Index, batch: seq<Entry>): Index {
    if batch == [] then index
    else Adopted(index, batch[..|batch| - 1])[batch[|batch| - 1].id := batch[|batch| - 1]]
  }

  lemma {:induction false} AdoptedExtends(index: Index, batch: seq<Entry>)
    requires ValidIndex(index) && DistinctIds(batch)
    requires forall i :: 0 <= i < |batch| ==> batch[i].id !in index
    ensures ValidIndex(Adopted(index, batch)) && Extends(index, Adopted(index, batch))
    ensures Adopted(index, batch).Keys == index.Keys + EntryIds(batch)
  {
    if batch != [] {
      var init := batch[..|batch| - 1];
      AdoptedExtends(index, init);
      var last := batch[|batch| - 1];
      EntryIdsSnoc(batch);
      InitAndLast(batch);
      NotAmong(init, last);
    }
  }

  lemma {:induction false} AdoptionIndexes(entries: seq<Entry>, batch: seq<Entry>)
    ensures IndexOf(entries + batch) == Adopted(IndexOf(entries), batch)
  {
    if batch == [] {
      assert entries + batch == entries;
    } else {
      var init, last := batch[..|batch| - 1], batch[|batch| - 1];
      AdoptionIndexes(entries, init);
      IndexOfSnoc(entries + init, last);
      assert (entries + init) + [last] == entries + batch by { InitAndLast(batch); }
      assert Adopted(IndexOf(entries), batch) == Adopted(IndexOf(entries), init)[last.id := last];
    }
  }
}
