/** Persisting before exposing: the writer, the two ways of appending through it, and the serial
    commit queue that latches a fault after an outcome it cannot know. */
module JournalCommits {
  import opened Sequences
  import opened Entries
  import opened Projections
  import opened JournalPaths
  import opened Journals
  import opened Conversations

  datatype Certainty = Rejected | Unknown

  /** What a failed write throws: an error that states its certainty, or any other error. */
  datatype Thrown = SessionCommitError(certainty: Certainty) | PlainError

  datatype Reply = Committed(entries: seq<Entry>) | Threw(error: Thrown)

  /** What one call of the writer does. Only a refusal promises that nothing was stored; a lost
      call may have stored anything. `receipt` is false when a legacy writer returns no entry. */
  datatype WriteOutcome =
    | Stored(entries: seq<Entry>, receipt: bool)
    | Refused
    | Lost(entries: seq<Entry>, error: Thrown)

  predicate Honest(outcome: WriteOutcome) {
    outcome.Lost? ==> outcome.error != SessionCommitError(Rejected)
  }

  /** The durable log. Outcomes are chosen by the environment. */
  class Writer {
    var log: seq<Entry>
    ghost var calls: nat

    constructor (stored: seq<Entry>)
      ensures log == stored && calls == 0
    {
      log, calls := stored, 0;
    }

    method Write(outcome: WriteOutcome) returns (reply: Reply)
      requires Honest(outcome)
      modifies this
      ensures calls == old(calls) + 1
      ensures reply.Committed? <==> outcome.Stored?
      ensures reply.Committed? ==> log == old(log) + reply.entries && reply.entries == outcome.entries
      ensures reply == Threw(SessionCommitError(Rejected)) ==> log == old(log)
    {
      calls := calls + 1;
      match outcome {
        case Stored(entries, _) =>
          log := log + entries;
          reply := Committed(entries);
        case Refused =>
          reply := Threw(SessionCommitError(Rejected));
        case Lost(entries, error) =>
          log := log + entries;
          reply := Threw(error);
      }
    }
  }

  /** One outcome per call, whatever the number of calls. */
  type Script = nat -> WriteOutcome

  ghost predicate HonestScript(script: Script) {
    forall i: nat :: Honest(script(i))
  }

  /** A call for one entry that returns an entry has stored one. */
  ghost predicate OneEach(script: Script) {
    forall i: nat :: script(i).Stored? && script(i).receipt ==> |script(i).entries| == 1
  }

  ghost predicate Fits(script: Script, batched: bool) {
    HonestScript(script) && (!batched ==> OneEach(script))
  }

  /** What the first `count` calls store. */
  function Collected(script: Script, count: nat): seq<Entry> {
    if count == 0 then []
    else
      var outcome := script(count - 1);
      Collected(script, count - 1) + if outcome.Refused? then [] else outcome.entries
  }

  /** The writer stores what it is asked to, and says so. */
  ghost predicate Obeys(script: Script, batched: bool, staged: seq<Entry>) {
    if batched then script(0).Stored? && SameBatch(script(0).entries, staged)
    else
      forall i :: 0 <= i < |staged| ==>
        script(i).Stored? && script(i).receipt && |script(i).entries| == 1 && SamePlacement(script(i).entries[0], staged[i])
  }

  lemma {:induction false} CollectedAsStaged(script: Script, staged: seq<Entry>, n: nat)
    requires n <= |staged| && Obeys(script, false, staged)
    ensures SameBatch(Collected(script, n), staged[..n])
  {
    if n > 0 {
      CollectedAsStaged(script, staged, n - 1);
      TakeOneMore(staged, n - 1);
    }
  }

  /** A writer without batches: one call per entry. A missing receipt is an unknown outcome, and so
      is any failure after the first success. */
  method WriteEach(writer: Writer, count: nat, script: Script) returns (reply: Reply)
    requires HonestScript(script) && OneEach(script)
    modifies writer
    ensures reply.Committed? ==> writer.log == old(writer.log) + reply.entries
    ensures reply == Threw(SessionCommitError(Rejected)) ==> writer.log == old(writer.log)
    ensures writer.calls >= old(writer.calls)
    ensures reply.Committed? <==> forall i: nat :: i < count ==> script(i).Stored? && script(i).receipt
    ensures reply.Committed? ==> reply.entries == Collected(script, count)
  {
    var committed: seq<Entry> := [];
    var done := 0;
    while done < count
      invariant done <= count && |committed| == done
      invariant writer.log == old(writer.log) + committed && committed == Collected(script, done)
      invariant forall i: nat :: i < done ==> script(i).Stored? && script(i).receipt
      invariant writer.calls >= old(writer.calls)
    {
      var outcome := script(done);
      var answer := writer.Write(outcome);
      if answer.Threw? {
        return if |committed| > 0 then Threw(SessionCommitError(Unknown)) else answer;
      }
      if !outcome.receipt { return Threw(SessionCommitError(Unknown)); }
      committed := committed + answer.entries;
      done := done + 1;
    }
    return Committed(committed);
  }

  method WriteBatch(writer: Writer, batch: seq<Entry>, batched: bool, script: Script) returns (reply: Reply)
    requires Fits(script, batched)
    modifies writer
    ensures batched && script(0).Stored? ==> reply == Committed(script(0).entries)
    ensures Obeys(script, batched, batch) ==> reply.Committed? && SameBatch(reply.entries, batch)
    ensures reply.Committed? ==> writer.log == old(writer.log) + reply.entries
    ensures reply == Threw(SessionCommitError(Rejected)) ==> writer.log == old(writer.log)
    ensures writer.calls >= old(writer.calls)
  {
    if batched {
      reply := writer.Write(script(0));
    } else {
      reply := WriteEach(writer, |batch|, script);
      if Obeys(script, batched, batch) {
        CollectedAsStaged(script, batch, |batch|);
        TakeAll(batch);
      }
    }
  }

  /** What others may call while the writer is awaited. Commits wait for their turn. */
  datatype Interruption =
    | Selects(head: Option<Id>)
    | Reads(head: Option<Id>)
    | AsksForUpdate(previous: Option<Option<Id>>, previousLength: nat)
    | Clears

  /** Of all of these only selecting a known head moves the head. */
  function HeadAfter(index: Index, head: Option<Id>, steps: seq<Interruption>): Option<Id> {
    if steps == [] then head
    else
      var before, last := HeadAfter(index, head, steps[..|steps| - 1]), steps[|steps| - 1];
      if last.Selects? && (last.head.Some? ==> last.head.value in index) then last.head else before
  }

  method Interrupt(conversation: ConversationContext, step: Interruption)
    requires conversation.Coherent()
    modifies conversation, conversation.projection
    ensures conversation.Coherent()
    ensures conversation.entries == old(conversation.entries) && conversation.index == old(conversation.index)
    ensures conversation.headId == HeadAfter(conversation.index, old(conversation.headId), [step])
    ensures conversation.projection == old(conversation.projection) || conversation.projection == null ||
            fresh(conversation.projection)
  {
    assert [step][..0] == [];
    match step {
      case Selects(head) =>
        var _ := conversation.SelectHead(head);
      case Reads(head) =>
        var _ := conversation.Materialize(head);
      case AsksForUpdate(previous, previousLength) =>
        var _ := conversation.GetModelUpdate(previous, previousLength);
      case Clears =>
        conversation.ClearCache();
    }
  }

  method InterruptAll(conversation: ConversationContext, steps: seq<Interruption>)
    requires conversation.Coherent()
    modifies conversation, conversation.projection
    ensures conversation.Coherent()
    ensures conversation.entries == old(conversation.entries) && conversation.index == old(conversation.index)
    ensures conversation.headId == HeadAfter(conversation.index, old(conversation.headId), steps)
    ensures conversation.projection == old(conversation.projection) || conversation.projection == null ||
            fresh(conversation.projection)
  {
    for i := 0 to |steps|
      invariant conversation.Coherent()
      invariant conversation.entries == old(conversation.entries) && conversation.index == old(conversation.index)
      invariant conversation.headId == HeadAfter(conversation.index, old(conversation.headId), steps[..i])
      invariant conversation.projection == old(conversation.projection) || conversation.projection == null ||
                fresh(conversation.projection)
    {
      TakeOneMore(steps, i);
      Interrupt(conversation, steps[i]);
    }
    TakeAll(steps);
  }

  /** Writes a staged batch and adopts what the writer committed. The head given is the one to have
      then, whatever was selected since. */
  method Persist(conversation: ConversationContext, writer: Writer, batch: seq<Entry>, head: Option<Id>,
                 batched: bool, script: Script) returns (reply: Reply)
    requires conversation.Coherent() && Fits(script, batched) && AllNew(batch, conversation.index)
    requires if batch == [] then head.Some? ==> head.value in conversation.index else head == LastId(batch)
    modifies conversation`entries, conversation`index, conversation`headId, conversation`cached, writer
    ensures conversation.Coherent() && writer.calls >= old(writer.calls)
    ensures batched && script(0).Stored? && SameBatch(script(0).entries, batch) ==> reply == Committed(script(0).entries)
    ensures Obeys(script, batched, batch) ==> reply.Committed?
    ensures reply.Committed? ==>
              && SameBatch(reply.entries, batch) && conversation.headId == head
              && writer.log == old(writer.log) + reply.entries
              && conversation.entries == old(conversation.entries) + reply.entries
    ensures reply == Threw(SessionCommitError(Rejected)) ==>
              && writer.log == old(writer.log) && conversation.entries == old(conversation.entries)
              && conversation.headId == old(conversation.headId)
  {
    reply := WriteBatch(writer, batch, batched, script);
    if reply.Threw? { return; }
    var adopted := conversation.Adopt(batch, head, reply.entries);
    if !adopted { return Threw(SessionCommitError(Unknown)); }
  }

  /** Stage, write, adopt. `batched` says whether the writer takes whole batches; `meanwhile` is what
      others call on the conversation, in whatever pieces, until the writer has answered. */
  method AppendBatch(conversation: ConversationContext, writer: Writer, appends: seq<Append>,
                     batched: bool, script: Script, meanwhile: seq<Interruption>) returns (reply: Reply)
    requires conversation.Coherent() && Fits(script, batched)
    modifies conversation, conversation.projection, writer
    ensures conversation.Coherent() && conversation.index == IndexOf(conversation.entries)
    ensures reply.Committed? ==>
              && writer.log == old(writer.log) + reply.entries
              && conversation.entries == old(conversation.entries) + reply.entries
              && |reply.entries| == |appends|
              && (appends != [] ==> conversation.headId == LastId(reply.entries))
              && (appends == [] ==> conversation.headId == old(conversation.headId))
              && AsStaged(old(conversation.index), |old(conversation.entries)|, old(conversation.headId), appends, reply.entries)
    ensures Stage(old(conversation.index), |old(conversation.entries)|, old(conversation.headId), appends).Err? ==>
              reply == Threw(SessionCommitError(Rejected))
    ensures Promised(script, batched, old(conversation.index), |old(conversation.entries)|, old(conversation.headId), appends) ==>
              reply.Committed?
    ensures batched && script(0).Stored? &&
            AsStaged(old(conversation.index), |old(conversation.entries)|, old(conversation.headId), appends, script(0).entries) ==>
              reply == Committed(script(0).entries)
    ensures reply == Threw(SessionCommitError(Rejected)) ==>
              && writer.log == old(writer.log)
              && conversation.entries == old(conversation.entries)
              && conversation.headId == HeadLeft(old(conversation.index), |old(conversation.entries)|,
                                                 old(conversation.headId), appends, meanwhile)
    ensures writer.calls >= old(writer.calls)
  {
    var staged := conversation.StageBatch(appends);
    if staged.Err? { return Threw(SessionCommitError(Rejected)); }
    var batch := staged.value;
    StagedAreNew(conversation.index, |conversation.entries|, conversation.headId, appends);
    var head := NextParent(conversation.headId, batch);
    reply := AwaitWriter(conversation, writer, batch, head, batched, script, meanwhile);
  }

  /** The stretch in which the writer is awaited. */
  method AwaitWriter(conversation: ConversationContext, writer: Writer, batch: seq<Entry>, head: Option<Id>,
                     batched: bool, script: Script, meanwhile: seq<Interruption>) returns (reply: Reply)
    requires conversation.Coherent() && Fits(script, batched) && AllNew(batch, conversation.index)
    requires if batch == [] then head.Some? ==> head.value in conversation.index else head == LastId(batch)
    modifies conversation, conversation.projection, writer
    ensures conversation.Coherent() && writer.calls >= old(writer.calls)
    ensures batched && script(0).Stored? && SameBatch(script(0).entries, batch) ==> reply == Committed(script(0).entries)
    ensures Obeys(script, batched, batch) ==> reply.Committed?
    ensures reply.Committed? ==>
              && SameBatch(reply.entries, batch) && conversation.headId == head
              && writer.log == old(writer.log) + reply.entries
              && conversation.entries == old(conversation.entries) + reply.entries
    ensures reply == Threw(SessionCommitError(Rejected)) ==>
              && writer.log == old(writer.log) && conversation.entries == old(conversation.entries)
              && conversation.headId == HeadAfter(old(conversation.index), old(conversation.headId), meanwhile)
  {
    InterruptAll(conversation, meanwhile);
    reply := Persist(conversation, writer, batch, head, batched, script);
  }

  /** The batch is accepted and the writer stores it. */
  ghost predicate Promised(script: Script, batched: bool, index: Index, logged: nat, head: Option<Id>, appends: seq<Append>) {
    Stage(index, logged, head, appends).Ok? && Obeys(script, batched, Stage(index, logged, head, appends).value)
  }

  /** These entries are the batch that is staged for the appends. */
  predicate AsStaged(index: Index, logged: nat, head: Option<Id>, appends: seq<Append>, entries: seq<Entry>) {
    Stage(index, logged, head, appends).Ok? && SameBatch(entries, Stage(index, logged, head, appends).value)
  }

  /** Where a rejected batch leaves the head: where it was, but for what others selected meanwhile. */
  function HeadLeft(index: Index, logged: nat, head: Option<Id>, appends: seq<Append>, meanwhile: seq<Interruption>): Option<Id> {
    if Stage(index, logged, head, appends).Err? then head else HeadAfter(index, head, meanwhile)
  }

  /** The queue of one journal. Commits run strictly one after the other. */
  class CommitQueue {
    var fault: Option<Thrown>

    constructor ()
      ensures fault == None
    {
      fault := None;
    }

    /** While no fault is latched, memory and the durable log agree. */
    ghost predicate InSync(conversation: ConversationContext, writer: Writer)
      reads this, conversation, writer
    {
      fault.None? ==> conversation.entries == writer.log
    }

    /** Every write of a session goes through here. */
    method Commit(conversation: ConversationContext, writer: Writer, appends: seq<Append>,
                  batched: bool, script: Script, meanwhile: seq<Interruption>) returns (reply: Reply)
      requires conversation.Coherent() && InSync(conversation, writer) && Fits(script, batched)
      modifies this, conversation, conversation.projection, writer
      ensures conversation.Coherent() && InSync(conversation, writer)
      // A latched fault is final and keeps every later commit from the writer.
      ensures old(fault).Some? ==>
                && fault == old(fault) && reply == Threw(fault.value)
                && writer.log == old(writer.log) && writer.calls == old(writer.calls)
                && conversation.entries == old(conversation.entries) && conversation.headId == old(conversation.headId)
      // Otherwise it is latched exactly by an unknown outcome.
      ensures old(fault).None? ==> (fault.Some? <==> reply == Threw(SessionCommitError(Unknown)))
      ensures reply.Threw? ==> reply.error.SessionCommitError? || old(fault) == Some(reply.error)
      // A rejected batch leaves no trace, in memory or in the log.
      ensures old(fault).None? && reply == Threw(SessionCommitError(Rejected)) ==>
                && writer.log == old(writer.log)
                && conversation.entries == old(conversation.entries)
                && conversation.headId == HeadLeft(old(conversation.index), |old(conversation.entries)|,
                                                   old(conversation.headId), appends, meanwhile)
      ensures old(fault).None? &&
              Stage(old(conversation.index), |old(conversation.entries)|, old(conversation.headId), appends).Err? ==>
                reply == Threw(SessionCommitError(Rejected))
      // An accepted batch is committed if the writer stores it.
      ensures old(fault).None? &&
              Promised(script, batched, old(conversation.index), |old(conversation.entries)|, old(conversation.headId), appends) ==>
                reply.Committed?
      // A committed batch is durable, and a context rebuilt from the log starts where this one is.
      ensures reply.Committed? ==>
                && old(fault).None? && writer.log == old(writer.log) + reply.entries && |reply.entries| == |appends|
                && conversation.entries == writer.log && conversation.index == IndexOf(writer.log)
                && (appends != [] ==> conversation.headId == LastId(writer.log))
                && (appends == [] ==> conversation.headId == old(conversation.headId))
                && AsStaged(old(conversation.index), |old(conversation.entries)|, old(conversation.headId), appends, reply.entries)
    {
      if fault.Some? { return Threw(fault.value); }
      reply := CommitNext(conversation, writer, appends, batched, script, meanwhile);
    }

    /** A commit whose turn has come and that finds no fault. */
    method CommitNext(conversation: ConversationContext, writer: Writer, appends: seq<Append>,
                      batched: bool, script: Script, meanwhile: seq<Interruption>) returns (reply: Reply)
      requires conversation.Coherent() && Fits(script, batched)
      requires fault.None? && conversation.entries == writer.log
      modifies this, conversation, conversation.projection, writer
      ensures conversation.Coherent() && (fault.None? ==> conversation.entries == writer.log)
      ensures reply.Threw? ==> reply.error.SessionCommitError?
      ensures fault.Some? <==> reply == Threw(SessionCommitError(Unknown))
      ensures Stage(old(conversation.index), |old(conversation.entries)|, old(conversation.headId), appends).Err? ==>
                reply == Threw(SessionCommitError(Rejected))
      ensures Promised(script, batched, old(conversation.index), |old(conversation.entries)|, old(conversation.headId), appends) ==>
                reply.Committed?
      ensures reply == Threw(SessionCommitError(Rejected)) ==>
                && writer.log == old(writer.log)
                && conversation.entries == old(conversation.entries)
                && conversation.headId == HeadLeft(old(conversation.index), |old(conversation.entries)|,
                                                   old(conversation.headId), appends, meanwhile)
      ensures reply.Committed? ==>
                && writer.log == old(writer.log) + reply.entries && |reply.entries| == |appends|
                && conversation.entries == writer.log && conversation.index == IndexOf(writer.log)
                && (appends != [] ==> conversation.headId == LastId(writer.log))
                && (appends == [] ==> conversation.headId == old(conversation.headId))
                && AsStaged(old(conversation.index), |old(conversation.entries)|, old(conversation.headId), appends, reply.entries)
    {
      var outcome := AppendBatch(conversation, writer, appends, batched, script, meanwhile);
      reply := Latch(outcome);
    }

    /** An error that does not state its certainty is unknown, and an unknown outcome is latched. */
    method Latch(outcome: Reply) returns (reply: Reply)
      modifies this
      ensures reply == if outcome == Threw(PlainError) then Threw(SessionCommitError(Unknown)) else outcome
      ensures fault == if reply == Threw(SessionCommitError(Unknown)) then Some(reply.error) else old(fault)
      ensures reply.Committed? || reply == Threw(SessionCommitError(Rejected)) || reply == Threw(SessionCommitError(Unknown))
    {
      reply := if outcome == Threw(PlainError) then Threw(SessionCommitError(Unknown)) else outcome;
      if reply.Threw? && reply.error.certainty.Unknown? { fault := Some(reply.error); }
    }

    /** A journal that only appends one entry at a time. A failure after a first success is never
        reported as a rejection, even if that is what the writer said. */
    method CommitEach(writer: Writer, count: nat, script: Script) returns (reply: Reply)
      requires HonestScript(script)
      modifies this, writer
      ensures old(fault).Some? ==>
                fault == old(fault) && reply == Threw(fault.value) &&
                writer.log == old(writer.log) && writer.calls == old(writer.calls)
      ensures old(fault).None? ==> (fault.Some? <==> reply == Threw(SessionCommitError(Unknown)))
      ensures old(fault).None? && reply == Threw(SessionCommitError(Rejected)) ==> writer.log == old(writer.log)
      ensures reply.Committed? ==> writer.calls == old(writer.calls) + count && old(writer.log) <= writer.log
    {
      if fault.Some? { return Threw(fault.value); }
      var appended := 0;
      var entries: seq<Entry> := [];
      while appended < count
        invariant appended <= count && fault.None?
        invariant writer.calls == old(writer.calls) + appended
        invariant old(writer.log) <= writer.log && (appended == 0 ==> writer.log == old(writer.log))
      {
        var outcome := script(appended);
        var answer := writer.Write(outcome);
        if answer.Threw? {
          reply := if answer.error.SessionCommitError? && appended == 0 then answer
                   else Threw(SessionCommitError(Unknown));
          if reply.error.certainty.Unknown? { fault := Some(reply.error); }
          assert fault.None? ==> reply == Threw(SessionCommitError(Rejected));
          return;
        }
        appended := appended + 1;
        if outcome.receipt { entries := entries + answer.entries; }
      }
      return Committed(entries);
    }
  }

  const FIRST := Entry("a", 1, None, UserInput(Json("first", false)))
  const SECOND := Entry("b", 2, Some("a"), UserInput(Json("second", false)))

  /** An empty commit on a journal of two entries, during which the first is selected: the commit
      succeeds and takes the head back to the second. */
  method EmptyCommitTakesHeadBack() returns (conversation: ConversationContext, reply: Reply)
    ensures reply == Committed([]) && conversation.Coherent() && conversation.entries == [FIRST, SECOND]
    ensures HeadAfter(conversation.index, Some("b"), [Selects(Some("a"))]) == Some("a")
    ensures conversation.headId == Some("b")
  {
    conversation := new ConversationContext([FIRST, SECOND]);
    var writer := new Writer([FIRST, SECOND]);
    IndexOfSnoc([], FIRST);
    IndexOfSnoc([FIRST], SECOND);
    assert [FIRST] + [SECOND] == [FIRST, SECOND];
    assert [Selects(Some("a"))][..0] == [];
    reply := AppendBatch(conversation, writer, [], true, _ => Stored([], true), [Selects(Some("a"))]);
  }

  /** Restart: a context rebuilt from the durable log shows every head as the lost one did, and
      starts at the last entry: where the lost one was, unless somebody had selected another head. */
  method Reopen(conversation: ConversationContext, queue: CommitQueue, writer: Writer, head: Option<Id>)
    returns (rebuilt: ConversationContext, view: Result<ModelContext>)
    requires conversation.Coherent() && queue.InSync(conversation, writer) && queue.fault.None?
    ensures rebuilt.Coherent() && rebuilt.index == conversation.index && rebuilt.headId == LastId(writer.log)
    ensures view == ContextAt(conversation.index, head)
  {
    rebuilt := new ConversationContext(writer.log);
    view := rebuilt.Materialize(head);
  }
}
