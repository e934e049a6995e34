/** The commit queue as the turn-holder of a session: one call of it is one turn. */
module SessionCommits {
  import opened Sequences
  import opened Entries
  import opened JournalPaths
  import opened Journals
  import opened Conversations
  import C = JournalCommits
  import opened CommitTurns

  /** What the session says is what is in memory and in the log. After an unknown outcome only that
      is known. */
  ghost predicate Mirrors(s: Session, conversation: ConversationContext, writer: C.Writer, queue: C.CommitQueue)
    reads conversation, writer, queue
  {
    && s.fault == queue.fault.Some?
    && (!s.fault ==> s.entries == conversation.entries && s.log == writer.log && s.head == conversation.headId)
  }

  /** Of what others do meanwhile, the session sees the selections. */
  function Selections(meanwhile: seq<C.Interruption>): seq<Event> {
    if meanwhile == [] then []
    else
      var last := meanwhile[|meanwhile| - 1];
      Selections(meanwhile[..|meanwhile| - 1]) + if last.Selects? then [Selected(last.head)] else []
  }

  lemma {:induction false} RunConcat(s: Session, a: seq<Event>, b: seq<Event>)
    ensures Run(s, a + b) == Run(Run(s, a), b)
  {
    if b == [] {
      ConcatNothing(a);
    } else {
      ConcatSnoc(a, b);
      RunConcat(s, a, b[..|b| - 1]);
    }
  }

  lemma {:induction false} RunOne(s: Session, event: Event)
    ensures Run(s, [event]) == After(s, event)
  {
    assert [event][..0] == [];
  }

  lemma {:induction false} SelectionsMoveHead(s: Session, meanwhile: seq<C.Interruption>)
    ensures Run(s, Selections(meanwhile)) == s.(head := C.HeadAfter(IndexOf(s.entries), s.head, meanwhile))
  {
    if meanwhile != [] {
      var init, last := meanwhile[..|meanwhile| - 1], meanwhile[|meanwhile| - 1];
      SelectionsMoveHead(s, init);
      if last.Selects? {
        RunConcat(s, Selections(init), [Selected(last.head)]);
        RunOne(Run(s, Selections(init)), Selected(last.head));
      } else {
        ConcatNothing(Selections(init));
      }
    }
  }

  /** What the writer does in a turn. */
  function WriterEvents(k: nat, reply: C.Reply): seq<Event> {
    match reply
    case Committed(entries) => [Stored(k, entries)] + [Answered(k)]
    case Threw(error) => [Event.Failed(k, [], error == C.SessionCommitError(C.Rejected))]
  }

  function TurnEvents(k: nat, meanwhile: seq<C.Interruption>, reply: C.Reply): seq<Event> {
    [TurnOf(k)] + Selections(meanwhile) + WriterEvents(k, reply)
  }

  predicate Ready(s: Session, k: nat) {
    k < |s.commits| && s.commits[k].status.Waiting? && Free(s, k) && !s.fault
  }

  lemma {:induction false} TurnSplits(s: Session, k: nat, meanwhile: seq<C.Interruption>, reply: C.Reply)
    requires Ready(s, k)
    ensures
      var begun := Begun(s, k);
      Run(s, TurnEvents(k, meanwhile, reply)) ==
      Run(begun.(head := C.HeadAfter(IndexOf(s.entries), s.head, meanwhile)), WriterEvents(k, reply))
  {
    RunConcat(s, [TurnOf(k)] + Selections(meanwhile), WriterEvents(k, reply));
    RunConcat(s, [TurnOf(k)], Selections(meanwhile));
    RunOne(s, TurnOf(k));
    SelectionsMoveHead(Begun(s, k), meanwhile);
  }

  lemma {:induction false} RejectedAtStaging(s: Session, k: nat)
    requires Ready(s, k) && Stage(IndexOf(s.entries), |s.entries|, s.head, s.commits[k].appends).Err?
    ensures
      var t := Run(s, [TurnOf(k)]);
      t == With(s, k, Done(Rejected))
  {
    RunOne(s, TurnOf(k));
  }

  /** The writer refuses: nothing has changed but the selections. */
  lemma {:induction false} RefusedTurn(s: Session, k: nat, meanwhile: seq<C.Interruption>)
    requires Ready(s, k) && Stage(IndexOf(s.entries), |s.entries|, s.head, s.commits[k].appends).Ok?
    ensures
      var t := Run(s, TurnEvents(k, meanwhile, C.Threw(C.SessionCommitError(C.Rejected))));
      && |t.commits| == |s.commits| && t.entries == s.entries && t.log == s.log && !t.fault && t.commits[k].status == Done(Rejected)
      && t.head == C.HeadAfter(IndexOf(s.entries), s.head, meanwhile)
  {
    var reply := C.Threw(C.SessionCommitError(C.Rejected));
    TurnSplits(s, k, meanwhile, reply);
    var begun := Begun(s, k).(head := C.HeadAfter(IndexOf(s.entries), s.head, meanwhile));
    RunOne(begun, Event.Failed(k, [], true));
    ConcatNothing(begun.commits[k].status.written);
    ConcatNothing(s.log);
  }

  /** The writer throws anything else: the outcome is unknown. */
  lemma {:induction false} UnknownTurn(s: Session, k: nat, meanwhile: seq<C.Interruption>)
    requires Ready(s, k) && Stage(IndexOf(s.entries), |s.entries|, s.head, s.commits[k].appends).Ok?
    ensures
      var t := Run(s, TurnEvents(k, meanwhile, C.Threw(C.SessionCommitError(C.Unknown))));
      |t.commits| == |s.commits| && t.fault && t.commits[k].status == Done(Unknown)
  {
    TurnSplits(s, k, meanwhile, C.Threw(C.SessionCommitError(C.Unknown)));
    RunOne(Begun(s, k).(head := C.HeadAfter(IndexOf(s.entries), s.head, meanwhile)), Event.Failed(k, [], false));
  }

  lemma {:induction false} SameBatchIsSame(written: seq<Entry>, staged: seq<Entry>)
    requires SameBatch(written, staged)
    ensures SameUpTo(written, staged) == |staged|
  {
  }

  lemma {:induction false} WritesAll(s: Session, k: nat, entries: seq<Entry>)
    requires IsWriting(s, k) && s.commits[k].status.written == [] && SameBatch(entries, s.commits[k].status.staged)
    ensures
      var t := Run(s, WriterEvents(k, C.Committed(entries)));
      && |t.commits| == |s.commits| && t.entries == s.entries + entries && t.log == s.log + entries
      && t.fault == s.fault && t.commits[k].status == Done(Durable)
      && t.head == NextParent(s.commits[k].status.from, s.commits[k].status.staged)
  {
    RunConcat(s, [Stored(k, entries)], [Answered(k)]);
    RunOne(s, Stored(k, entries));
    RunOne(Written(s, k, entries), Answered(k));
    ConcatNothing(entries);
    SameBatchIsSame(entries, s.commits[k].status.staged);
  }

  /** The writer commits what was staged: it is in memory and in the log, with the head behind it. */
  lemma {:induction false} CommittedTurn(s: Session, k: nat, meanwhile: seq<C.Interruption>, entries: seq<Entry>)
    requires Ready(s, k)
    requires C.AsStaged(IndexOf(s.entries), |s.entries|, s.head, s.commits[k].appends, entries)
    ensures
      var t := Run(s, TurnEvents(k, meanwhile, C.Committed(entries)));
      && |t.commits| == |s.commits| && t.entries == s.entries + entries && t.log == s.log + entries && !t.fault
      && t.commits[k].status == Done(Durable)
      && t.head == if entries == [] then s.head else LastId(s.log + entries)
  {
    TurnSplits(s, k, meanwhile, C.Committed(entries));
    WritesAll(Begun(s, k).(head := C.HeadAfter(IndexOf(s.entries), s.head, meanwhile)), k, entries);
    LastOfBatch(s.log, s.head, entries, Stage(IndexOf(s.entries), |s.entries|, s.head, s.commits[k].appends).value);
  }

  lemma {:induction false} LastOfBatch(log: seq<Entry>, head: Option<Id>, entries: seq<Entry>, staged: seq<Entry>)
    requires SameBatch(entries, staged)
    ensures NextParent(head, staged) == if entries == [] then head else LastId(log + entries)
  {
    if entries != [] { assert SamePlacement(entries[|entries| - 1], staged[|staged| - 1]); }
  }

  /** One call of the commit queue is one turn of the session: whatever it answers, the session run
      by the events of the turn says the same about memory, log, head and fault. */
  method TakeTurn(conversation: ConversationContext, writer: C.Writer, queue: C.CommitQueue, ghost s: Session, ghost turn: nat,
                  k: nat, appends: seq<Append>, batched: bool, script: C.Script, meanwhile: seq<C.Interruption>)
    returns (reply: C.Reply, ghost events: seq<Event>)
    requires conversation.Coherent() && C.Fits(script, batched) && Orderly(s, turn)
    requires Mirrors(s, conversation, writer, queue)
    requires k < |s.commits| && s.commits[k] == Commit(appends, Waiting) && Free(s, k)
    modifies conversation, conversation.projection, writer, queue
    ensures conversation.Coherent() && Mirrors(Run(s, events), conversation, writer, queue)
    ensures |Run(s, events).commits| == |s.commits| && Run(s, events).commits[k].status.Done?
    ensures reply.Committed? <==> Run(s, events).commits[k].status == Done(Durable)
    ensures s.fault ==> writer.calls == old(writer.calls) && writer.log == old(writer.log)
  {
    OnlyTurnActs(s, turn, k);
    ghost var index, logged, head := conversation.index, |conversation.entries|, conversation.headId;
    reply := queue.Commit(conversation, writer, appends, batched, script, meanwhile);
    if s.fault {
      events := [TurnOf(k)];
      RunOne(s, TurnOf(k));
    } else if Stage(index, logged, head, appends).Err? {
      events := [TurnOf(k)];
      RejectedAtStaging(s, k);
    } else {
      assert Ready(s, k);
      events := TurnEvents(k, meanwhile, reply);
      if reply.Committed? {
        CommittedTurn(s, k, meanwhile, reply.entries);
        assert reply.entries == [] <==> appends == [];
      } else if reply == C.Threw(C.SessionCommitError(C.Rejected)) {
        RefusedTurn(s, k, meanwhile);
      } else {
        assert reply.error.certainty == C.Unknown;
        assert reply == C.Threw(C.SessionCommitError(C.Unknown));
        UnknownTurn(s, k, meanwhile);
      }
    }
  }
}
