/** The projection as the conversation keeps it: one object, extended in place. */
module ProjectionBuffers {
  import opened Sequences
  import opened Entries
  import opened Projections

  class ProjectionBuffer {
    var headId: Option<Id>
    var entryCount: nat
    var raw: seq<Message>
    var timeline: seq<Message>
    var editable: map<Id, Message>
    var edits: map<Id, Option<Message>>
    var tools: seq<Entry>
    var frames: seq<Frame>
    var loadout: Option<Loadout>
    var usage: Usage

    function Value(): Projection
      reads this
    {
      Projection(raw, timeline, editable, edits, tools, frames, loadout, usage)
    }

    constructor ()
      ensures Value() == EMPTY && headId == None && entryCount == 0
    {
      headId, entryCount := None, 0;
      raw, timeline, editable, edits, tools, frames := [], [], map[], map[], [], [];
      loadout, usage := None, NO_USAGE;
    }

    /** Places the buffered results one by one, in source order. */
    method FlushTools()
      requires OnlyTools(tools)
      modifies this`raw, this`timeline, this`editable, this`tools
      ensures Value() == Flush(old(Value()))
    {
      OrderedToolsSorts(tools);
      var ordered := OrderedTools(tools);
      ghost var start := Value();
      NothingPlaced(start);
      for i := 0 to |ordered|
        invariant Value() == WithPlaced(start, ordered[..i])
      {
        PlaceOneMore(start, ordered, i);
        var entry := ordered[i];
        var message := ToolMessage(entry);
        raw := raw + [message];
        timeline := timeline + [message];
        editable := editable[entry.id := message];
      }
      TakeAll(ordered);
      tools := [];
    }

    method PutEditOperations(operations: seq<EditOperation>)
      modifies this`edits
      ensures edits == PutEdits(old(edits), operations)
    {
      for i := 0 to |operations|
        invariant edits == PutEdits(old(edits), operations[..i])
      {
        TakeOneMore(operations, i);
        edits := edits[operations[i].messageId := EditValue(operations[i])];
      }
      TakeAll(operations);
    }

    method Rewrite(entry: Entry, view: CompactionView) returns (failure: Option<Failure>)
      requires tools == []
      modifies this`timeline, this`usage, this`editable
      ensures entry.payload == Compaction(Some(view)) ==>
              match ApplyCompaction(old(Value()), entry, view)
              case Ok(after) => failure == None && Value() == after
              case Err(reason) => failure == Some(reason) && Value() == old(Value())
    {
      assert Flush(Value()) == Value() by {
        assert raw + [] == raw && timeline + [] == timeline;
      }
      var visible := ProjectEdits(timeline, edits);
      if view.baseHeadId != entry.parentId { return Some(CutPointMismatch); }
      if !ValidCompactionView(view, visible) { return Some(InvalidCompaction); }
      timeline := CompactedTimeline(view, visible);
      usage := usage.Plus(UsageOf(view.summary));
      editable := editable[view.summary.id.value := view.summary];
      failure := None;
    }

    method RecordLoadout(entry: Entry, next: Option<Loadout>) returns (failure: Option<Failure>)
      requires OnlyTools(tools)
      modifies this
      ensures headId == old(headId) && entryCount == old(entryCount)
      ensures match ApplyLoadout(old(Value()), entry, next)
              case Ok(after) => failure == None && Value() == after
              case Err(reason) => failure == Some(reason)
    {
      FlushTools();
      if !ValidLoadout(next) { return Some(InvalidLoadout); }
      timeline := timeline + [LoadoutMessage(entry.id, next.value, loadout)];
      loadout := next;
      failure := None;
    }

    method RecordEdit(edit: Option<ContextEdit>) returns (failure: Option<Failure>)
      requires OnlyTools(tools)
      modifies this
      ensures headId == old(headId) && entryCount == old(entryCount)
      ensures match ApplyEdit(old(Value()), edit)
              case Ok(after) => failure == None && Value() == after
              case Err(reason) => failure == Some(reason)
    {
      FlushTools();
      if !ValidEdit(edit, editable) { return Some(InvalidEdit); }
      PutEditOperations(edit.value.edits);
      failure := None;
    }

    method Compact(entry: Entry, view: CompactionView) returns (failure: Option<Failure>)
      requires OnlyTools(tools) && entry.payload == Compaction(Some(view))
      modifies this
      ensures headId == old(headId) && entryCount == old(entryCount)
      ensures match ApplyCompaction(old(Value()), entry, view)
              case Ok(after) => failure == None && Value() == after
              case Err(reason) => failure == Some(reason)
    {
      FlushTools();
      FlushTwice(old(Value()), entry, view);
      failure := Rewrite(entry, view);
    }

    method Place(entry: Entry, message: Message)
      requires OnlyTools(tools)
      modifies this
      ensures headId == old(headId) && entryCount == old(entryCount)
      ensures Value() == Push(Flush(old(Value())), entry, message)
    {
      FlushTools();
      PushMessage(entry, message);
    }

    method PushMessage(entry: Entry, message: Message)
      modifies this`raw, this`timeline, this`editable, this`frames, this`usage
      ensures Value() == Push(old(Value()), entry, message)
    {
      raw := raw + [message];
      timeline := timeline + [message];
      editable := editable[entry.id := message];
      if message.AssistantMessage? {
        frames := [];
        usage := usage.Plus(UsageOf(message));
      }
    }

    /** One step of replay; a failure leaves the buffer unusable. */
    method ApplyEntry(entry: Entry) returns (failure: Option<Failure>)
      requires OnlyTools(tools)
      modifies this
      ensures headId == old(headId) && entryCount == old(entryCount)
      ensures match Apply(old(Value()), entry)
              case Ok(after) => failure == None && Value() == after
              case Err(reason) => failure == Some(reason)
    {
      failure := None;
      if entry.payload.ToolExecution? {
        tools := tools + [entry];
      } else if entry.payload.AssistantFrame? {
        if entry.payload.frame.Some? { frames := frames + [entry.payload.frame.value]; }
      } else if entry.payload.ModelLoadout? {
        failure := RecordLoadout(entry, entry.payload.loadout);
      } else if entry.payload.Edit? {
        failure := RecordEdit(entry.payload.edit);
      } else if entry.payload.Compaction? && entry.payload.view.Some? {
        failure := Compact(entry, entry.payload.view.value);
      } else {
        var message := MessageOf(entry);
        if message.Some? { Place(entry, message.value); }
      }
    }
  }

  /** The projection after some of the buffered results were placed. */
  function WithPlaced(projection: Projection, ordered: seq<Entry>): Projection
    requires OnlyTools(ordered)
  {
    projection.(raw := projection.raw + ToolMessages(ordered),
                timeline := projection.timeline + ToolMessages(ordered),
                editable := PutTools(projection.editable, ordered))
  }

  lemma {:induction false} NothingPlaced(projection: Projection)
    ensures WithPlaced(projection, []) == projection
  {
    ConcatNothing(projection.raw);
    ConcatNothing(projection.timeline);
  }

  lemma {:induction false} OneMorePlaced(placed: seq<Message>, ordered: seq<Entry>, i: nat)
    requires i < |ordered| && OnlyTools(ordered)
    ensures placed + ToolMessages(ordered[..i]) + [ToolMessage(ordered[i])] == placed + ToolMessages(ordered[..i + 1])
  {
    TakeOneMore(ordered, i);
    ToolMessagesSnoc(ordered[..i], ordered[i]);
    ConcatAssociates(placed, ToolMessages(ordered[..i]), [ToolMessage(ordered[i])]);
  }

  lemma {:induction false} OneMorePut(known: map<Id, Message>, ordered: seq<Entry>, i: nat)
    requires i < |ordered| && OnlyTools(ordered)
    ensures PutTools(known, ordered[..i + 1]) == PutTools(known, ordered[..i])[ordered[i].id := ToolMessage(ordered[i])]
  {
    TakeOneMore(ordered, i);
    Snoc(ordered[..i], ordered[i]);
  }

  lemma {:induction false} PlaceOneMore(start: Projection, ordered: seq<Entry>, i: nat)
    requires i < |ordered| && OnlyTools(ordered)
    ensures
      var before, entry := WithPlaced(start, ordered[..i]), ordered[i];
      WithPlaced(start, ordered[..i + 1]) ==
        before.(raw := before.raw + [ToolMessage(entry)], timeline := before.timeline + [ToolMessage(entry)],
                editable := before.editable[entry.id := ToolMessage(entry)])
  {
    OneMorePlaced(start.raw, ordered, i);
    OneMorePlaced(start.timeline, ordered, i);
    OneMorePut(start.editable, ordered, i);
  }

  /** Flushing an already flushed projection changes nothing. */
  lemma {:induction false} FlushTwice(projection: Projection, entry: Entry, view: CompactionView)
    requires OnlyTools(projection.tools)
    ensures ApplyCompaction(Flush(projection), entry, view) == ApplyCompaction(projection, entry, view)
  {
    var flushed := Flush(projection);
    assert flushed.raw + [] == flushed.raw && flushed.timeline + [] == flushed.timeline;
    assert Flush(flushed) == flushed;
  }
}
