/** Which batches are accepted: exactly those whose entries apply at the head they are checked against. */
module BatchAcceptance {
  import opened Sequences
  import opened Entries
  import opened Projections
  import opened JournalPaths
  import opened Journals
  import opened Replayability
  import opened ExplicitParents
  import C = JournalCommits

  predicate HasModelView(entry: Entry) {
    entry.payload.Compaction? && entry.payload.view.Some?
  }

  /** The entry applies to what is projected at the head; a compaction must be placed there, and
      nothing may be unfinished. */
  predicate Applies(projection: Projection, head: Option<Id>, entry: Entry)
    requires OnlyTools(projection.tools)
  {
    Apply(projection, entry).Ok? && (HasModelView(entry) ==> projection.frames == [] && entry.parentId == head)
  }

  lemma {:induction false} SettledShowsVisible(projection: Projection)
    requires OnlyTools(projection.tools) && projection.frames == []
    ensures View(projection) == Visible(projection)
  {
    ConcatNothing(PendingMessages(projection));
    assert PartialMessages(projection) == [];
  }

  lemma {:induction false} CompactionAdmittedExactly(index: Index, head: Option<Id>, entry: Entry, view: CompactionView)
    requires Replay(index, head).Ok? && entry.payload == Compaction(Some(view))
    ensures Admit(index, head, entry).None? <==> Applies(Replay(index, head).value, head, entry)
  {
    var projection := Replay(index, head).value;
    if projection.frames != [] {
      NoCompactionOverPartial(index, head, entry);
    } else {
      SettledShowsVisible(projection);
      CompactionFits(projection, entry, view);
    }
  }

  /** A check at append passes exactly when the entry applies at the head. */
  lemma {:induction false} AdmittedExactly(index: Index, head: Option<Id>, entry: Entry)
    requires Replay(index, head).Ok?
    ensures Admit(index, head, entry).None? <==> Applies(Replay(index, head).value, head, entry)
  {
    var projection := Replay(index, head).value;
    if HasModelView(entry) {
      CompactionAdmittedExactly(index, head, entry, entry.payload.view.value);
    } else {
      FitsExactly(projection, entry);
    }
  }

  /** The k-th entry a batch asks for: behind its predecessor unless it is placed. */
  function Intended(logged: nat, head: Option<Id>, appends: seq<Append>, k: nat): Entry
    requires k < |appends|
  {
    var parent := if appends[k].parentId.Some? then appends[k].parentId.value
                  else if k == 0 then head else Some(IdOf(appends[k - 1]));
    Entry(IdOf(appends[k]), logged + k + 1, parent, appends[k].payload)
  }

  predicate IdsAreNew(index: Index, appends: seq<Append>) {
    && (forall k :: 0 <= k < |appends| ==> IdOf(appends[k]) !in index)
    && (forall j, k :: 0 <= j < k < |appends| ==> IdOf(appends[j]) != IdOf(appends[k]))
  }

  ghost predicate AllApply(index: Index, logged: nat, head: Option<Id>, appends: seq<Append>)
    requires Replay(index, head).Ok?
  {
    FirstApply(Replay(index, head).value, logged, head, appends, |appends|)
  }

  ghost predicate FirstApply(projection: Projection, logged: nat, head: Option<Id>, appends: seq<Append>, n: nat)
    requires OnlyTools(projection.tools) && n <= |appends|
  {
    forall k :: 0 <= k < n ==> Applies(projection, head, Intended(logged, head, appends, k))
  }

  predicate AsIntended(logged: nat, head: Option<Id>, appends: seq<Append>, staged: seq<Entry>) {
    |staged| == |appends| && forall k :: 0 <= k < |appends| ==> staged[k] == Intended(logged, head, appends, k)
  }

  lemma {:induction false} NextIsIntended(logged: nat, head: Option<Id>, appends: seq<Append>, staged: seq<Entry>)
    requires appends != [] && AsIntended(logged, head, appends[..|appends| - 1], staged)
    ensures EntryFor(appends[|appends| - 1], logged, head, staged) == Intended(logged, head, appends, |appends| - 1)
    ensures AsIntended(logged, head, appends, staged + [Intended(logged, head, appends, |appends| - 1)])
  {
    var init := appends[..|appends| - 1];
    forall k | 0 <= k < |init| ensures Intended(logged, head, init, k) == Intended(logged, head, appends, k) {
      assert init[k] == appends[k];
      if k > 0 { assert init[k - 1] == appends[k - 1]; }
    }
    if init != [] {
      assert staged[|staged| - 1] == Intended(logged, head, init, |init| - 1);
      assert init[|init| - 1] == appends[|init| - 1];
    }
  }

  lemma {:induction false} SameIntended(logged: nat, head: Option<Id>, appends: seq<Append>, k: nat)
    requires k + 1 < |appends|
    ensures appends[..|appends| - 1][k] == appends[k]
    ensures Intended(logged, head, appends[..|appends| - 1], k) == Intended(logged, head, appends, k)
  {
    var init := appends[..|appends| - 1];
    assert init[k] == appends[k];
    if k > 0 { assert init[k - 1] == appends[k - 1]; }
  }

  lemma {:induction false} ShorterIds(index: Index, appends: seq<Append>)
    requires appends != []
    ensures
      var init, last := appends[..|appends| - 1], |appends| - 1;
      IdsAreNew(index, appends) <==>
        IdsAreNew(index, init) && IdOf(appends[last]) !in index &&
        forall j :: 0 <= j < last ==> IdOf(appends[j]) != IdOf(appends[last])
  {
    var init := appends[..|appends| - 1];
    assert forall k :: 0 <= k < |init| ==> init[k] == appends[k];
    if IdsAreNew(index, init) {
      forall k | 0 <= k < |init| ensures IdOf(appends[k]) !in index { assert IdOf(init[k]) !in index; }
      forall j, k | 0 <= j < k < |init| ensures IdOf(appends[j]) != IdOf(appends[k]) {
        assert IdOf(init[j]) != IdOf(init[k]);
      }
    }
  }

  lemma {:induction false} ShorterApplies(index: Index, logged: nat, head: Option<Id>, appends: seq<Append>)
    requires appends != [] && Replay(index, head).Ok?
    ensures
      var init, last := appends[..|appends| - 1], |appends| - 1;
      AllApply(index, logged, head, appends) <==>
        AllApply(index, logged, head, init) &&
        Applies(Replay(index, head).value, head, Intended(logged, head, appends, last))
  {
    var init, projection := appends[..|appends| - 1], Replay(index, head).value;
    ShorterAlike(projection, logged, head, appends);
    OneMoreApplies(projection, logged, head, appends, |init|);
  }

  lemma {:induction false} ShorterAlike(projection: Projection, logged: nat, head: Option<Id>, appends: seq<Append>)
    requires OnlyTools(projection.tools) && appends != []
    ensures FirstApply(projection, logged, head, appends[..|appends| - 1], |appends| - 1) <==>
            FirstApply(projection, logged, head, appends, |appends| - 1)
  {
    var init := appends[..|appends| - 1];
    forall k | 0 <= k < |init|
      ensures Applies(projection, head, Intended(logged, head, init, k)) <==>
              Applies(projection, head, Intended(logged, head, appends, k))
    {
      SameIntended(logged, head, appends, k);
    }
  }

  lemma {:induction false} OneMoreApplies(projection: Projection, logged: nat, head: Option<Id>, appends: seq<Append>, n: nat)
    requires OnlyTools(projection.tools) && n < |appends|
    ensures FirstApply(projection, logged, head, appends, n + 1) <==>
            FirstApply(projection, logged, head, appends, n) && Applies(projection, head, Intended(logged, head, appends, n))
  {
  }

  lemma {:induction false} IdIsTaken(logged: nat, head: Option<Id>, appends: seq<Append>, staged: seq<Entry>, n: nat, id: Id)
    requires n <= |appends| && |staged| == n && forall k :: 0 <= k < n ==> staged[k] == Intended(logged, head, appends, k)
    ensures HasId(staged, id) <==> exists j :: 0 <= j < n && IdOf(appends[j]) == id
  {
    if HasId(staged, id) {
      var i :| 0 <= i < |staged| && staged[i].id == id;
      assert IdOf(appends[i]) == id;
    }
    if exists j :: 0 <= j < n && IdOf(appends[j]) == id {
      var j :| 0 <= j < n && IdOf(appends[j]) == id;
      assert staged[j].id == id;
    }
  }

  lemma {:induction false} StagedAsIntended(index: Index, logged: nat, head: Option<Id>, appends: seq<Append>)
    requires Stage(index, logged, head, appends).Ok?
    ensures AsIntended(logged, head, appends, Stage(index, logged, head, appends).value)
  {
    if appends != [] {
      var init := appends[..|appends| - 1];
      StagedAsIntended(index, logged, head, init);
      NextIsIntended(logged, head, appends, Stage(index, logged, head, init).value);
    }
  }

  /** Main result: a batch is accepted exactly when its ids are new and different and every entry it
      asks for, behind its predecessor or where it is placed, applies at the head; and it is then staged
      as it was asked for. */
  lemma {:induction false} AcceptedExactly(index: Index, logged: nat, head: Option<Id>, appends: seq<Append>)
    requires Replay(index, head).Ok?
    ensures Stage(index, logged, head, appends).Ok? <==> IdsAreNew(index, appends) && AllApply(index, logged, head, appends)
    ensures Stage(index, logged, head, appends).Ok? ==>
              AsIntended(logged, head, appends, Stage(index, logged, head, appends).value)
  {
    if appends != [] {
      var init, last := appends[..|appends| - 1], |appends| - 1;
      AcceptedExactly(index, logged, head, init);
      ShorterIds(index, appends);
      ShorterApplies(index, logged, head, appends);
      if Stage(index, logged, head, init).Ok? { LastAccepted(index, logged, head, appends); }
    }
  }

  lemma {:induction false} LastAccepted(index: Index, logged: nat, head: Option<Id>, appends: seq<Append>)
    requires appends != [] && Replay(index, head).Ok? && Stage(index, logged, head, appends[..|appends| - 1]).Ok?
    ensures
      var last := |appends| - 1;
      Stage(index, logged, head, appends).Ok? <==>
        && IdOf(appends[last]) !in index && (forall j :: 0 <= j < last ==> IdOf(appends[j]) != IdOf(appends[last]))
        && Applies(Replay(index, head).value, head, Intended(logged, head, appends, last))
    ensures Stage(index, logged, head, appends).Ok? ==>
              AsIntended(logged, head, appends, Stage(index, logged, head, appends).value)
  {
    var init, last := appends[..|appends| - 1], |appends| - 1;
    var staged := Stage(index, logged, head, init).value;
    StagedAsIntended(index, logged, head, init);
    NextIsIntended(logged, head, appends, staged);
    var entry := Intended(logged, head, appends, last);
    forall k | 0 <= k < last ensures staged[k] == Intended(logged, head, appends, k) {
      assert (staged + [entry])[k] == staged[k];
    }
    IdIsTaken(logged, head, appends, staged, last, entry.id);
    AdmittedExactly(index, head, entry);
  }

  /** A single append, placed by default: accepted exactly when its id is new and it applies at the head. */
  lemma {:induction false} OneAcceptedExactly(index: Index, logged: nat, head: Option<Id>, append: Append)
    requires Replay(index, head).Ok? && append.parentId.None?
    ensures
      var entry := Entry(IdOf(append), logged + 1, head, append.payload);
      Stage(index, logged, head, [append]).Ok? <==>
        IdOf(append) !in index && Apply(Replay(index, head).value, entry).Ok? &&
        (HasModelView(entry) ==> Replay(index, head).value.frames == [])
  {
    AcceptedExactly(index, logged, head, [append]);
    assert Intended(logged, head, [append], 0) == Entry(IdOf(append), logged + 1, head, append.payload);
    OneMoreApplies(Replay(index, head).value, logged, head, [append], 0);
  }

  /** So a commit that finds no fault succeeds, with a writer that stores what it is asked to, whenever
      the append applies at a head that replays: that is what `Promised` demands of a commit. */
  lemma {:induction false} OnePromisedExactly(script: C.Script, batched: bool, index: Index, logged: nat, head: Option<Id>, append: Append)
    requires Replay(index, head).Ok? && append.parentId.None?
    requires C.Obeys(script, batched, [Entry(IdOf(append), logged + 1, head, append.payload)])
    ensures
      var entry := Entry(IdOf(append), logged + 1, head, append.payload);
      C.Promised(script, batched, index, logged, head, [append]) <==>
        IdOf(append) !in index && Apply(Replay(index, head).value, entry).Ok? &&
        (HasModelView(entry) ==> Replay(index, head).value.frames == [])
  {
    OneAcceptedExactly(index, logged, head, append);
    AcceptedExactly(index, logged, head, [append]);
    if Stage(index, logged, head, [append]).Ok? {
      var staged := Stage(index, logged, head, [append]).value;
      assert staged[0] == Intended(logged, head, [append], 0);
      assert staged == [Entry(IdOf(append), logged + 1, head, append.payload)];
    }
  }

  /** After a commit that keeps the numbers the entries were staged with, the revision at its end is the
      length of the log. */
  lemma {:induction false} RevisionIsLogLength(entries: seq<Entry>, head: Option<Id>, appends: seq<Append>)
    requires Stage(IndexOf(entries), |entries|, head, appends).Ok? && appends != [] && IdOf(appends[|appends| - 1]) != ""
    ensures
      var staged := Stage(IndexOf(entries), |entries|, head, appends).value;
      && NextParent(head, staged) == Some(IdOf(appends[|appends| - 1]))
      && Revision(IndexOf(entries + staged), NextParent(head, staged)) == |entries + staged|
  {
    var staged := Stage(IndexOf(entries), |entries|, head, appends).value;
    StagedAsIntended(IndexOf(entries), |entries|, head, appends);
    var last := staged[|staged| - 1];
    assert last == Intended(|entries|, head, appends, |appends| - 1);
    ConcatSnoc(entries, staged);
    IndexOfSnoc(entries + staged[..|staged| - 1], last);
  }

  // ---------- what is always accepted ----------

  /** Messages, frames and bookkeeping with a new id are always accepted. */
  lemma {:induction false} PlainIsAccepted(index: Index, logged: nat, head: Option<Id>, append: Append)
    requires Replay(index, head).Ok? && IdOf(append) !in index
    requires !append.payload.ModelLoadout? && !append.payload.Edit? && !append.payload.Compaction?
    ensures Stage(index, logged, head, [append]).Ok?
  {
    AcceptedExactly(index, logged, head, [append]);
    FitsExactly(Replay(index, head).value, Intended(logged, head, [append], 0));
  }

  /** So is a loadout without tools, whatever its prompt, the first of a journal included. */
  lemma {:induction false} PromptIsAccepted(index: Index, logged: nat, head: Option<Id>, id: Id, prompt: string)
    requires Replay(index, head).Ok? && id !in index
    ensures Stage(index, logged, head, [Append(Some(id), "", ModelLoadout(Some(Loadout(1, prompt, []))), None)]).Ok?
  {
    var append := Append(Some(id), "", ModelLoadout(Some(Loadout(1, prompt, []))), None);
    AcceptedExactly(index, logged, head, [append]);
    FitsExactly(Replay(index, head).value, Intended(logged, head, [append], 0));
  }

  lemma {:induction false} EmptyReplays(index: Index)
    ensures Replay(index, None) == Ok(EMPTY)
  {
    assert PathAfter(index, None, None) == Path([]);
  }

  /** Every message known at the head can be excluded. */
  lemma {:induction false} KnownCanBeExcluded(index: Index, logged: nat, head: Option<Id>, id: Id, target: Id)
    requires Replay(index, head).Ok? && id !in index && target in Known(Replay(index, head).value) && !Blank(target)
    ensures Stage(index, logged, head,
                  [Append(Some(id), "", Edit(Some(ContextEdit(1, true, [EditOperation(target, Exclude)]))), None)]).Ok?
  {
    var edit := ContextEdit(1, true, [EditOperation(target, Exclude)]);
    var append := Append(Some(id), "", Edit(Some(edit)), None);
    AcceptedExactly(index, logged, head, [append]);
    FitsExactly(Replay(index, head).value, Intended(logged, head, [append], 0));
    assert ValidOperation(edit.edits[0], Known(Replay(index, head).value));
  }

  /** A loadout is accepted exactly if it has the version, and every tool a name that is not blank and
      its own, and a schema for its parameters. */
  lemma {:induction false} LoadoutAcceptedExactly(index: Index, logged: nat, head: Option<Id>, id: Id, loadout: Loadout)
    requires Replay(index, head).Ok? && id !in index
    ensures Stage(index, logged, head, [Append(Some(id), "", ModelLoadout(Some(loadout)), None)]).Ok? <==>
            Usable(loadout)
  {
    OneAcceptedExactly(index, logged, head, Append(Some(id), "", ModelLoadout(Some(loadout)), None));
    LoadoutFits(Replay(index, head).value, Entry(id, logged + 1, head, ModelLoadout(Some(loadout))), Some(loadout));
    LoadoutIsValid(loadout);
  }

  predicate Usable(loadout: Loadout) {
    && loadout.version == 1
    && (forall tool :: tool in loadout.tools ==>
          (exists i :: 0 <= i < |tool.name| && !IsSpace(tool.name[i])) && tool.parameters.Json? && tool.parameters.toolSchema)
    && (forall i, j :: 0 <= i < j < |loadout.tools| ==> loadout.tools[i].name != loadout.tools[j].name)
  }

  lemma {:induction false} LoadoutIsValid(loadout: Loadout)
    ensures ValidLoadout(Some(loadout)) <==>
            Usable(loadout)
  {
    var tools := loadout.tools;
    forall i | 0 <= i < |tools| ensures tools[i] in tools {
    }
    forall tool | tool in tools ensures !Blank(tool.name) <==> exists i :: 0 <= i < |tool.name| && !IsSpace(tool.name[i]) {
    }
  }

  /** An edit is accepted exactly if it has the version, is JSON, and has operations, each of which
      excludes a message known at the head or replaces it by a well-formed one of the same role. */
  lemma {:induction false} EditAcceptedExactly(index: Index, logged: nat, head: Option<Id>, id: Id, edit: ContextEdit)
    requires Replay(index, head).Ok? && id !in index
    ensures Stage(index, logged, head, [Append(Some(id), "", Edit(Some(edit)), None)]).Ok? <==>
            && edit.version == 1 && edit.isJson && edit.edits != []
            && forall operation :: operation in edit.edits ==> Targets(operation, Known(Replay(index, head).value))
  {
    OneAcceptedExactly(index, logged, head, Append(Some(id), "", Edit(Some(edit)), None));
    EditFits(Replay(index, head).value, Some(edit));
    EditIsValid(edit, Known(Replay(index, head).value));
  }

  predicate Targets(operation: EditOperation, known: map<Id, Message>) {
    && operation.messageId in known && (exists i :: 0 <= i < |operation.messageId| && !IsSpace(operation.messageId[i]))
    && (operation.action.Exclude? ||
        (operation.action.Replace? && WellFormedMessage(operation.action.message) &&
         RoleOf(operation.action.message) == RoleOf(known[operation.messageId])))
  }

  lemma {:induction false} EditIsValid(edit: ContextEdit, known: map<Id, Message>)
    ensures ValidEdit(Some(edit), known) <==>
            && edit.version == 1 && edit.isJson && edit.edits != []
            && forall operation :: operation in edit.edits ==> Targets(operation, known)
  {
    var edits := edit.edits;
    forall operation ensures ValidOperation(operation, known) <==> Targets(operation, known) {
    }
    forall i | 0 <= i < |edits| ensures edits[i] in edits {
    }
  }

  /** The messages that are not instructions. */
  function Spoken(messages: seq<Message>): seq<Message> {
    if messages == [] then []
    else
      var last := messages[|messages| - 1];
      Spoken(messages[..|messages| - 1]) + if RoleOf(last) == System then [] else [last]
  }

  lemma {:induction false} HistoryIsSpoken(messages: seq<Message>)
    ensures History(messages) == Spoken(messages)
  {
    if messages != [] { HistoryIsSpoken(messages[..|messages| - 1]); }
  }

  /** A compaction is accepted exactly if it was made for this head with nothing unfinished, is JSON of the
      version, and keepable. */
  lemma {:induction false} CompactionAcceptedExactly(index: Index, logged: nat, head: Option<Id>, id: Id, view: CompactionView)
    requires Replay(index, head).Ok? && id !in index
    ensures Stage(index, logged, head, [Append(Some(id), "", Compaction(Some(view)), None)]).Ok? <==>
            && Replay(index, head).value.frames == [] && view.baseHeadId == head && view.version == 1 && view.isJson
            && Keepable(View(Replay(index, head).value), view.summary, view.keptIds)
  {
    var projection := Replay(index, head).value;
    OneAcceptedExactly(index, logged, head, Append(Some(id), "", Compaction(Some(view)), None));
    CompactionAppliesExactly(projection, Entry(id, logged + 1, head, Compaction(Some(view))), view);
  }

  lemma {:induction false} CompactionAppliesExactly(projection: Projection, entry: Entry, view: CompactionView)
    requires OnlyTools(projection.tools) && entry.payload == Compaction(Some(view))
    ensures projection.frames == [] ==>
              (Apply(projection, entry).Ok? <==>
                 view.baseHeadId == entry.parentId && view.version == 1 && view.isJson &&
                 Keepable(View(projection), view.summary, view.keptIds))
  {
    CompactionFits(projection, entry, view);
    if projection.frames == [] {
      SettledShowsVisible(projection);
      KeepableExactly(view, View(projection));
    }
  }

  /** The last messages shown have identities of their own, do not begin with a tool result, and are
      not all there is; the summary is an assistant's and has a name nobody uses. */
  predicate Keepable(shown: seq<Message>, summary: Message, keptIds: seq<Id>) {
    var spoken, count := Spoken(shown), |keptIds|;
    && RoleOf(summary) == Assistant && WellFormedMessage(summary) && Identified(summary)
    && (forall i :: 0 <= i < |shown| ==> shown[i].id != summary.id)
    && 0 < count < |spoken| && Distinct(keptIds) && RoleOf(spoken[|spoken| - count]) != ToolResult
    && forall i :: 0 <= i < count ==> spoken[|spoken| - count + i].id == Some(keptIds[i])
  }

  lemma {:induction false} KeepableExactly(view: CompactionView, shown: seq<Message>)
    ensures ValidCompactionView(view, shown) <==> view.version == 1 && view.isJson && Keepable(shown, view.summary, view.keptIds)
  {
    HistoryIsSpoken(shown);
  }

  /** Whatever is shown behind nothing unfinished can be compacted to its last messages. */
  lemma {:induction false} TailCanBeKept(index: Index, logged: nat, head: Option<Id>, id: Id, summary: Message, keptIds: seq<Id>)
    requires Replay(index, head).Ok? && Replay(index, head).value.frames == [] && id !in index
    requires Keepable(View(Replay(index, head).value), summary, keptIds)
    ensures
      var view := CompactionView(1, true, head, summary, keptIds);
      Stage(index, logged, head, [Append(Some(id), "", Compaction(Some(view)), None)]).Ok?
  {
    var view := CompactionView(1, true, head, summary, keptIds);
    var projection := Replay(index, head).value;
    KeepableExactly(view, View(projection));
    ViewApplies(projection, Entry(id, logged + 1, head, Compaction(Some(view))), view);
    OneAcceptedExactly(index, logged, head, Append(Some(id), "", Compaction(Some(view)), None));
  }

  lemma {:induction false} ViewApplies(projection: Projection, entry: Entry, view: CompactionView)
    requires OnlyTools(projection.tools) && projection.frames == [] && entry.payload == Compaction(Some(view))
    requires view.baseHeadId == entry.parentId && ValidCompactionView(view, View(projection))
    ensures Apply(projection, entry).Ok?
  {
    SettledShowsVisible(projection);
    CompactionFits(projection, entry, view);
  }
}
