/** The model-view projection of a path of journal entries, entry by entry. */
module Projections {
  import opened Sequences
  import opened Entries

  /** Stands for a missing source index: such results go last. */
  const MAX_SAFE_INTEGER: int := 9007199254740991

  datatype Projection = Projection(
    raw: seq<Message>,
    timeline: seq<Message>,
    editable: map<Id, Message>,
    edits: map<Id, Option<Message>>,
    tools: seq<Entry>,
    frames: seq<Frame>,
    loadout: Option<Loadout>,
    usage: Usage)

  const EMPTY := Projection([], [], map[], map[], [], [], None, NO_USAGE)

  /** Only tool executions are ever buffered. */
  predicate OnlyTools(tools: seq<Entry>) {
    forall i :: 0 <= i < |tools| ==> tools[i].payload.ToolExecution?
  }

  // ---------- tool results in source order ----------

  function SourceKey(entry: Entry): int {
    if entry.payload.ToolExecution? && entry.payload.sourceIndex.Some? then entry.payload.sourceIndex.value
    else MAX_SAFE_INTEGER
  }

  /** Inserts behind every entry whose key is not larger: this is what keeps the sort stable. */
  function Insert(sorted: seq<Entry>, entry: Entry): seq<Entry> {
    if sorted == [] || SourceKey(sorted[|sorted| - 1]) <= SourceKey(entry) then sorted + [entry]
    else Insert(sorted[..|sorted| - 1], entry) + [sorted[|sorted| - 1]]
  }

  /** The buffered results, stably sorted by source index. */
  function OrderedTools(tools: seq<Entry>): seq<Entry> {
    if tools == [] then [] else Insert(OrderedTools(tools[..|tools| - 1]), tools[|tools| - 1])
  }

  predicate Ascending(entries: seq<Entry>) {
    forall i, j :: 0 <= i < j < |entries| ==> SourceKey(entries[i]) <= SourceKey(entries[j])
  }

  lemma {:induction false} InsertPermutes(sorted: seq<Entry>, entry: Entry)
    ensures multiset(Insert(sorted, entry)) == multiset(sorted) + multiset{entry}
  {
    if sorted != [] && SourceKey(sorted[|sorted| - 1]) > SourceKey(entry) {
      InsertPermutes(sorted[..|sorted| - 1], entry);
      InitAndLast(sorted);
    }
  }

  predicate NoneAbove(entries: seq<Entry>, key: int) {
    forall i :: 0 <= i < |entries| ==> SourceKey(entries[i]) <= key
  }

  lemma {:induction false} InsertStaysBelow(sorted: seq<Entry>, entry: Entry, key: int)
    requires NoneAbove(sorted, key) && SourceKey(entry) <= key
    ensures NoneAbove(Insert(sorted, entry), key)
  {
    if sorted != [] && SourceKey(sorted[|sorted| - 1]) > SourceKey(entry) {
      InsertStaysBelow(sorted[..|sorted| - 1], entry, key);
    }
  }

  lemma {:induction false} InsertKeeps(sorted: seq<Entry>, entry: Entry)
    requires Ascending(sorted)
    ensures Ascending(Insert(sorted, entry))
  {
    if sorted != [] && SourceKey(sorted[|sorted| - 1]) > SourceKey(entry) {
      var last := sorted[|sorted| - 1];
      InsertKeeps(sorted[..|sorted| - 1], entry);
      InsertStaysBelow(sorted[..|sorted| - 1], entry, SourceKey(last));
    }
  }

  lemma {:induction false} OrderedToolsPermutes(tools: seq<Entry>)
    ensures Ascending(OrderedTools(tools))
    ensures multiset(OrderedTools(tools)) == multiset(tools)
  {
    if tools != [] {
      OrderedToolsPermutes(tools[..|tools| - 1]);
      InsertKeeps(OrderedTools(tools[..|tools| - 1]), tools[|tools| - 1]);
      InsertPermutes(OrderedTools(tools[..|tools| - 1]), tools[|tools| - 1]);
      InitAndLast(tools);
    }
  }

  lemma {:induction false} OrderedToolsSorts(tools: seq<Entry>)
    ensures Ascending(OrderedTools(tools))
    ensures |OrderedTools(tools)| == |tools|
    ensures forall entry :: entry in OrderedTools(tools) <==> entry in tools
    ensures OnlyTools(tools) ==> OnlyTools(OrderedTools(tools))
  {
    OrderedToolsPermutes(tools);
    SameMembers(OrderedTools(tools), tools);
  }

  lemma {:induction false} SameMembers(a: seq<Entry>, b: seq<Entry>)
    requires multiset(a) == multiset(b)
    ensures |a| == |b|
    ensures forall entry :: entry in a <==> entry in b
    ensures OnlyTools(b) ==> OnlyTools(a)
  {
    assert |multiset(a)| == |multiset(b)|;
    forall entry ensures entry in a <==> entry in b {
      assert entry in a <==> entry in multiset(a);
      assert entry in b <==> entry in multiset(b);
    }
    if OnlyTools(b) {
      forall i | 0 <= i < |a| ensures a[i].payload.ToolExecution? {
        assert a[i] in b;
      }
    }
  }

  // ---------- edits ----------

  /** Each message is kept, replaced or dropped on its own. */
  function ProjectOne(message: Message, edits: map<Id, Option<Message>>): seq<Message> {
    if !Identified(message) || message.id.value !in edits then [message]
    else match edits[message.id.value]
      case Some(replacement) => [replacement]
      case None => []
  }

  function ProjectEdits(messages: seq<Message>, edits: map<Id, Option<Message>>): seq<Message> {
    if messages == [] then []
    else ProjectEdits(messages[..|messages| - 1], edits) + ProjectOne(messages[|messages| - 1], edits)
  }

  lemma {:induction false} ProjectEditsDistributes(a: seq<Message>, b: seq<Message>, edits: map<Id, Option<Message>>)
    ensures ProjectEdits(a + b, edits) == ProjectEdits(a, edits) + ProjectEdits(b, edits)
  {
    if b == [] {
      ConcatNothing(a);
      ConcatNothing(ProjectEdits(a, edits));
    } else {
      var init, last := b[..|b| - 1], b[|b| - 1];
      ProjectEditsDistributes(a, init, edits);
      ConcatSnoc(a, b);
      ConcatAssociates(ProjectEdits(a, edits), ProjectEdits(init, edits), ProjectOne(last, edits));
    }
  }

  // ---------- validators ----------

  /** What trimming removes: the white space and line terminators of ECMAScript. */
  predicate IsSpace(c: char) {
    || '\U{0009}' <= c <= '\U{000D}' || c == ' ' || c == '\U{00A0}' || c == '\U{1680}'
    || '\U{2000}' <= c <= '\U{200A}' || c == '\U{2028}' || c == '\U{2029}'
    || c == '\U{202F}' || c == '\U{205F}' || c == '\U{3000}' || c == '\U{FEFF}'
  }

  predicate Blank(text: string) {
    forall i :: 0 <= i < |text| ==> IsSpace(text[i])
  }

  predicate ValidLoadout(input: Option<Loadout>) {
    input.Some? && input.value.version == 1 &&
    var tools := input.value.tools;
    (forall i :: 0 <= i < |tools| ==>
      !Blank(tools[i].name) && tools[i].parameters.Json? && tools[i].parameters.toolSchema) &&
    (forall i, j :: 0 <= i < j < |tools| ==> tools[i].name != tools[j].name)
  }

  predicate ValidOperation(operation: EditOperation, known: map<Id, Message>) {
    !Blank(operation.messageId) && operation.messageId in known &&
    match operation.action
    case Replace(message) =>
      WellFormedMessage(message) && RoleOf(message) == RoleOf(known[operation.messageId])
    case Exclude => true
    case Unsupported => false
  }

  /** Every operation targets a known message and a replacement keeps its role. */
  predicate ValidEdit(input: Option<ContextEdit>, known: map<Id, Message>) {
    input.Some? && input.value.version == 1 && input.value.isJson && input.value.edits != [] &&
    forall i :: 0 <= i < |input.value.edits| ==> ValidOperation(input.value.edits[i], known)
  }

  function History(messages: seq<Message>): seq<Message> {
    if messages == [] then []
    else
      var last := messages[|messages| - 1];
      History(messages[..|messages| - 1]) + if last.SystemMessage? then [] else [last]
  }

  function Instructions(messages: seq<Message>): seq<Message> {
    if messages == [] then []
    else
      var last := messages[|messages| - 1];
      Instructions(messages[..|messages| - 1]) + if last.SystemMessage? then [last] else []
  }

  predicate UniqueKept(ids: seq<Id>) {
    forall i, j :: 0 <= i < j < |ids| ==> ids[i] != ids[j]
  }

  /** The kept ids are the ids of the last non-system messages, in order, and not of all of them. */
  predicate KeepsTail(view: CompactionView, messages: seq<Message>) {
    var history := History(messages);
    var count := |view.keptIds|;
    0 < count < |history| && UniqueKept(view.keptIds) &&
    (forall i :: 0 <= i < count ==> history[|history| - count + i].id == Some(view.keptIds[i])) &&
    !history[|history| - count].ToolResultMessage?
  }

  predicate ValidCompactionView(view: CompactionView, messages: seq<Message>) {
    view.version == 1 && view.isJson && WellFormedMessage(view.summary) &&
    view.summary.AssistantMessage? && Identified(view.summary) &&
    KeepsTail(view, messages) &&
    forall i :: 0 <= i < |messages| ==> messages[i].id != view.summary.id
  }

  /** The last message under each identity. */
  function ById(messages: seq<Message>): (table: map<Id, Message>)
    ensures forall i :: 0 <= i < |messages| && messages[i].id.Some? ==> messages[i].id.value in table
    ensures forall id :: id in table ==> table[id] in messages && table[id].id == Some(id)
  {
    if messages == [] then map[]
    else
      var last := messages[|messages| - 1];
      var table := ById(messages[..|messages| - 1]);
      if last.id.Some? then table[last.id.value := last] else table
  }

  lemma {:induction false} HistoryMembers(messages: seq<Message>)
    ensures forall message :: message in History(messages) <==> message in messages && !message.SystemMessage?
    ensures forall message :: message in Instructions(messages) <==> message in messages && message.SystemMessage?
  {
    if messages != [] {
      HistoryMembers(messages[..|messages| - 1]);
      InitAndLast(messages);
    }
  }

  lemma {:induction false} KeptAreKnown(view: CompactionView, messages: seq<Message>)
    requires KeepsTail(view, messages)
    ensures forall i :: 0 <= i < |view.keptIds| ==> view.keptIds[i] in ById(messages)
  {
    HistoryMembers(messages);
    var history := History(messages);
    forall i | 0 <= i < |view.keptIds| ensures view.keptIds[i] in ById(messages) {
      var message := history[|history| - |view.keptIds| + i];
      assert message in messages;
    }
  }

  function KeptMessages(ids: seq<Id>, table: map<Id, Message>): (kept: seq<Message>)
    requires forall i :: 0 <= i < |ids| ==> ids[i] in table
    ensures |kept| == |ids|
    ensures forall i :: 0 <= i < |ids| ==> kept[i] == table[ids[i]]
  {
    seq(|ids|, i requires 0 <= i < |ids| => table[ids[i]])
  }

  /** The timeline a compaction leaves: instructions, the summary, the kept tail. */
  function CompactedTimeline(view: CompactionView, visible: seq<Message>): seq<Message>
    requires KeepsTail(view, visible)
  {
    KeptAreKnown(view, visible);
    Instructions(visible) + [view.summary] + KeptMessages(view.keptIds, ById(visible))
  }

  // ---------- loadout deltas ----------

  function ToolTable(tools: seq<ToolDefinition>): (table: map<string, ToolDefinition>)
    ensures forall name :: name in table <==> exists i :: 0 <= i < |tools| && tools[i].name == name
    ensures forall name :: name in table ==> table[name] in tools && table[name].name == name
  {
    if tools == [] then map[]
    else ToolTable(tools[..|tools| - 1])[tools[|tools| - 1].name := tools[|tools| - 1]]
  }

  /** The first occurrence of each declared name, in order: the keys of the original's Map. */
  function ToolNames(tools: seq<ToolDefinition>): (names: seq<string>)
    ensures forall name :: name in names <==> exists i :: 0 <= i < |tools| && tools[i].name == name
  {
    if tools == [] then []
    else
      var names := ToolNames(tools[..|tools| - 1]);
      if tools[|tools| - 1].name in names then names else names + [tools[|tools| - 1].name]
  }

  function ChangedTools(tools: seq<ToolDefinition>, prior: map<string, ToolDefinition>): seq<ToolDefinition> {
    if tools == [] then []
    else
      var last := tools[|tools| - 1];
      ChangedTools(tools[..|tools| - 1], prior) +
      if last.name in prior && prior[last.name] == last then [] else [last]
  }

  function MissingNames(names: seq<string>, current: map<string, ToolDefinition>): seq<string> {
    if names == [] then []
    else
      var last := names[|names| - 1];
      MissingNames(names[..|names| - 1], current) + if last in current then [] else [last]
  }

  function PriorTools(previous: Option<Loadout>): seq<ToolDefinition> {
    if previous.Some? then previous.value.tools else []
  }

  /** A loadout is written into the timeline as its difference from the previous one. */
  function LoadoutMessage(id: Id, next: Loadout, previous: Option<Loadout>): (message: Message)
    ensures message.SystemMessage? && message.id == Some(id)
  {
    var promptChanged := previous.None? || previous.value.systemPrompt != next.systemPrompt;
    var text := if next.systemPrompt == "" then None else Some(next.systemPrompt);
    SystemMessage(
      Some(id), "",
      if promptChanged then Some([SectionChange("instructions", text)]) else None,
      Some(ChangedTools(next.tools, ToolTable(PriorTools(previous)))),
      Some(MissingNames(ToolNames(PriorTools(previous)), ToolTable(next.tools))))
  }

  // ---------- the fold ----------

  function ToolMessages(tools: seq<Entry>): (messages: seq<Message>)
    requires OnlyTools(tools)
    ensures |messages| == |tools|
    ensures forall i :: 0 <= i < |tools| ==> messages[i] == ToolMessage(tools[i])
  {
    seq(|tools|, i requires 0 <= i < |tools| => ToolMessage(tools[i]))
  }

  lemma {:induction false} ToolMessagesSnoc(entries: seq<Entry>, last: Entry)
    requires OnlyTools(entries) && last.payload.ToolExecution?
    ensures ToolMessages(entries + [last]) == ToolMessages(entries) + [ToolMessage(last)]
  {
  }

  function PutTools(editable: map<Id, Message>, tools: seq<Entry>): (table: map<Id, Message>)
    requires OnlyTools(tools)
  {
    if tools == [] then editable
    else
      var last := tools[|tools| - 1];
      PutTools(editable, tools[..|tools| - 1])[last.id := ToolMessage(last)]
  }

  /** What the buffered tool results look like to a reader. */
  function PendingMessages(projection: Projection): seq<Message>
    requires OnlyTools(projection.tools)
  {
    OrderedToolsSorts(projection.tools);
    ToolMessages(OrderedTools(projection.tools))
  }

  /** Everything an edit may target: replayed messages and buffered tool results. */
  function Known(projection: Projection): map<Id, Message>
    requires OnlyTools(projection.tools)
  {
    OrderedToolsSorts(projection.tools);
    PutTools(projection.editable, OrderedTools(projection.tools))
  }

  function Flush(projection: Projection): (flushed: Projection)
    requires OnlyTools(projection.tools)
    ensures flushed.tools == []
  {
    OrderedToolsSorts(projection.tools);
    var pending := PendingMessages(projection);
    projection.(raw := projection.raw + pending,
                timeline := projection.timeline + pending,
                editable := Known(projection),
                tools := [])
  }

  function EditValue(operation: EditOperation): Option<Message> {
    match operation.action
    case Replace(message) => Some(WithId(message, operation.messageId))
    case _ => None
  }

  function PutEdits(edits: map<Id, Option<Message>>, operations: seq<EditOperation>): map<Id, Option<Message>> {
    if operations == [] then edits
    else
      var last := operations[|operations| - 1];
      PutEdits(edits, operations[..|operations| - 1])[last.messageId := EditValue(last)]
  }

  function UsageOf(message: Message): Usage {
    if message.AssistantMessage? && message.usage.Some? then message.usage.value else NO_USAGE
  }

  function Push(projection: Projection, entry: Entry, message: Message): (pushed: Projection)
    ensures pushed.tools == projection.tools
  {
    var placed := projection.(raw := projection.raw + [message],
                              timeline := projection.timeline + [message],
                              editable := projection.editable[entry.id := message]);
    if message.AssistantMessage? then placed.(frames := [], usage := placed.usage.Plus(UsageOf(message)))
    else placed
  }

  function ApplyLoadout(projection: Projection, entry: Entry, loadout: Option<Loadout>): (result: Result<Projection>)
    requires OnlyTools(projection.tools)
    ensures result.Ok? ==> result.value.tools == []
  {
    var flushed := Flush(projection);
    if !ValidLoadout(loadout) then Err(InvalidLoadout)
    else Ok(flushed.(timeline := flushed.timeline + [LoadoutMessage(entry.id, loadout.value, flushed.loadout)],
                     loadout := loadout))
  }

  function ApplyEdit(projection: Projection, edit: Option<ContextEdit>): (result: Result<Projection>)
    requires OnlyTools(projection.tools)
    ensures result.Ok? ==> result.value.tools == []
  {
    var flushed := Flush(projection);
    if !ValidEdit(edit, flushed.editable) then Err(InvalidEdit)
    else Ok(flushed.(edits := PutEdits(flushed.edits, edit.value.edits)))
  }

  function ApplyCompaction(projection: Projection, entry: Entry, view: CompactionView): (result: Result<Projection>)
    requires OnlyTools(projection.tools)
    ensures result.Ok? ==> result.value.tools == []
  {
    var flushed := Flush(projection);
    var visible := ProjectEdits(flushed.timeline, flushed.edits);
    if view.baseHeadId != entry.parentId then Err(CutPointMismatch)
    else if !ValidCompactionView(view, visible) then Err(InvalidCompaction)
    else Ok(flushed.(timeline := CompactedTimeline(view, visible),
                     usage := flushed.usage.Plus(UsageOf(view.summary)),
                     editable := flushed.editable[view.summary.id.value := view.summary]))
  }

  function Apply(projection: Projection, entry: Entry): (result: Result<Projection>)
    requires OnlyTools(projection.tools)
    ensures result.Ok? ==> OnlyTools(result.value.tools)
  {
    match entry.payload
    case ToolExecution(_, _) => Ok(projection.(tools := projection.tools + [entry]))
    case AssistantFrame(frame) =>
      Ok(if frame.Some? then projection.(frames := projection.frames + [frame.value]) else projection)
    case ModelLoadout(loadout) => ApplyLoadout(projection, entry, loadout)
    case Edit(edit) => ApplyEdit(projection, edit)
    case Compaction(Some(view)) => ApplyCompaction(projection, entry, view)
    case _ =>
      var message := MessageOf(entry);
      Ok(if message.None? then projection else Push(Flush(projection), entry, message.value))
  }

  lemma {:induction false} AppliesEdit(before: Projection, entry: Entry)
    requires OnlyTools(before.tools) && entry.payload.Edit?
    ensures Apply(before, entry) == ApplyEdit(before, entry.payload.edit)
  {
    var direct := Apply(before, entry);
    assert direct == match entry.payload
      case Edit(edit) => ApplyEdit(before, edit)
      case _ => direct;
  }

  lemma {:induction false} AppliesLoadout(before: Projection, entry: Entry)
    requires OnlyTools(before.tools) && entry.payload.ModelLoadout?
    ensures Apply(before, entry) == ApplyLoadout(before, entry, entry.payload.loadout)
  {
  }

  /** Replays a path on top of a projection. */
  function FoldFrom(projection: Projection, path: seq<Entry>): (result: Result<Projection>)
    requires OnlyTools(projection.tools)
    ensures result.Ok? ==> OnlyTools(result.value.tools)
  {
    if path == [] then Ok(projection)
    else match FoldFrom(projection, path[..|path| - 1])
      case Ok(prior) => Apply(prior, path[|path| - 1])
      case Err(reason) => Err(reason)
  }

  /** The reference: a from-scratch replay of a root-to-head path. */
  function Fold(path: seq<Entry>): (result: Result<Projection>)
    ensures result.Ok? ==> OnlyTools(result.value.tools)
  {
    FoldFrom(EMPTY, path)
  }

  lemma {:induction false} FoldConcat(projection: Projection, a: seq<Entry>, b: seq<Entry>)
    requires OnlyTools(projection.tools)
    ensures FoldFrom(projection, a + b) ==
            match FoldFrom(projection, a) case Ok(mid) => FoldFrom(mid, b) case Err(reason) => Err(reason)
  {
    if b == [] {
      ConcatNothing(a);
    } else {
      FoldConcat(projection, a, b[..|b| - 1]);
      ConcatSnoc(a, b);
    }
  }

  // ---------- what a reader sees ----------

  datatype ModelContext = ModelContext(
    headId: Option<Id>, raw: seq<Message>, messages: seq<Message>, loadout: Option<Loadout>, usage: Usage)

  function PartialMessages(projection: Projection): seq<Message> {
    var partial := ReduceAssistantFrames(projection.frames);
    if partial.Some? then [partial.value] else []
  }

  /** Messages not yet placed: buffered tool results, then the unfinished assistant message. */
  function Tail(projection: Projection): seq<Message>
    requires OnlyTools(projection.tools)
  {
    PendingMessages(projection) + PartialMessages(projection)
  }

  function View(projection: Projection): seq<Message>
    requires OnlyTools(projection.tools)
  {
    ProjectEdits(projection.timeline + Tail(projection), projection.edits)
  }

  function ContextOf(headId: Option<Id>, projection: Projection): ModelContext
    requires OnlyTools(projection.tools)
  {
    ModelContext(headId, projection.raw + Tail(projection), View(projection), projection.loadout, projection.usage)
  }
}
