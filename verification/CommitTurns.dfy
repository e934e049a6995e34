/** A session over any interleaving of commits: every commit is chained to the one called before it,
    stages when its turn comes, calls the writer, and adopts what the writer committed. Heads may be
    selected and commits called at any time, and the process may be restarted from the log. */
module CommitTurns {
  import opened Sequences
  import opened Entries
  import opened JournalPaths
  import opened Journals

  datatype Answer = Durable | Rejected | Unknown | Latched

  /** A writing commit knows the head it was staged at, its batch, and what the writer has stored. */
  datatype Status =
    | Waiting
    | Writing(from: Option<Id>, staged: seq<Entry>, written: seq<Entry>)
    | Done(answer: Answer)

  datatype Commit = Commit(appends: seq<Append>, status: Status)

  /** `log` is durable, `entries` and `head` are in memory. `calls` records which commit each call of
      the writer belongs to; `asked` says that the writer never stored anything but what it was asked to. */
  datatype Session = Session(
    entries: seq<Entry>, head: Option<Id>, log: seq<Entry>, fault: bool,
    commits: seq<Commit>, calls: seq<nat>, asked: bool)

  const NEW_SESSION := Session([], None, [], false, [], [], true)

  datatype Event =
    | Called(appends: seq<Append>)
    /** The commit before this one has settled. */
    | TurnOf(k: nat)
    | Stored(k: nat, part: seq<Entry>)
    /** The writer throws; only a refusal promises that nothing was stored. */
    | Failed(k: nat, part: seq<Entry>, refused: bool)
    /** The writer has answered every call. */
    | Answered(k: nat)
    | Selected(id: Option<Id>)
    | Restarted

  predicate Free(s: Session, k: nat)
    requires k < |s.commits|
  {
    k == 0 || s.commits[k - 1].status.Done?
  }

  predicate IsWriting(s: Session, k: nat) {
    k < |s.commits| && s.commits[k].status.Writing?
  }

  function With(s: Session, k: nat, status: Status): Session
    requires k < |s.commits|
  {
    s.(commits := s.commits[k := s.commits[k].(status := status)])
  }

  /** What was stored so far is what the batch asks for, as far as it goes. */
  predicate Follows(written: seq<Entry>, staged: seq<Entry>) {
    |written| <= |staged| && forall i :: 0 <= i < |written| ==> SamePlacement(written[i], staged[i])
  }

  /** How far the committed entries are what was staged. */
  function SameUpTo(written: seq<Entry>, staged: seq<Entry>): (n: nat)
    ensures n <= |written| && n <= |staged| && Follows(written[..n], staged)
    ensures n < |written| && n < |staged| ==> !SamePlacement(written[n], staged[n])
  {
    if written == [] || staged == [] then 0
    else
      var init := written[..|written| - 1];
      var n := SameUpTo(init, staged);
      assert init[..n] == written[..n];
      if n == |init| && n < |staged| && SamePlacement(written[n], staged[n]) then
        assert written[..n + 1] == written;
        n + 1
      else n
  }

  // ---------- one step ----------

  function Begun(s: Session, k: nat): Session
    requires k < |s.commits|
  {
    if s.fault then With(s, k, Done(Latched))
    else match Stage(IndexOf(s.entries), |s.entries|, s.head, s.commits[k].appends)
      case Err(_) => With(s, k, Done(Rejected))
      case Ok(staged) => With(s, k, Writing(s.head, staged, []))
  }

  /** One call of the writer has stored something. */
  function Written(s: Session, k: nat, part: seq<Entry>): Session
    requires IsWriting(s, k)
  {
    var status := s.commits[k].status;
    With(s, k, status.(written := status.written + part)).(
      log := s.log + part, calls := s.calls + [k], asked := s.asked && Follows(status.written + part, status.staged))
  }

  /** A refusal of the first call is a rejection; any other error leaves the outcome unknown. */
  function Broken(s: Session, k: nat, part: seq<Entry>, refused: bool): Session
    requires IsWriting(s, k)
  {
    var stored := Written(s, k, part);
    if refused && stored.commits[k].status.written == [] then With(stored, k, Done(Rejected))
    else With(stored, k, Done(Unknown)).(fault := true)
  }

  /** Adopts up to the first entry that is not what was staged. */
  function Adoption(s: Session, k: nat): Session
    requires IsWriting(s, k)
  {
    var status := s.commits[k].status;
    if |status.written| != |status.staged| then With(s, k, Done(Unknown)).(fault := true)
    else
      var n := SameUpTo(status.written, status.staged);
      if n < |status.staged| then With(s, k, Done(Unknown)).(fault := true, entries := s.entries + status.written[..n])
      else With(s, k, Done(Durable)).(entries := s.entries + status.written, head := NextParent(status.from, status.staged))
  }

  /** An event that cannot happen in a state leaves it alone. */
  function After(s: Session, event: Event): Session {
    match event
    case Called(appends) => s.(commits := s.commits + [Commit(appends, Waiting)])
    case TurnOf(k) => if k < |s.commits| && s.commits[k].status.Waiting? && Free(s, k) then Begun(s, k) else s
    case Stored(k, part) => if IsWriting(s, k) then Written(s, k, part) else s
    case Failed(k, part, refused) =>
      if IsWriting(s, k) && (refused ==> part == []) then Broken(s, k, part, refused) else s
    case Answered(k) => if IsWriting(s, k) then Adoption(s, k) else s
    case Selected(id) => if id.Some? && id.value !in IndexOf(s.entries) then s else s.(head := id)
    case Restarted => Session(s.log, LastId(s.log), s.log, false, [], [], s.asked)
  }

  function Run(s: Session, events: seq<Event>): Session {
    if events == [] then s else After(Run(s, events[..|events| - 1]), events[|events| - 1])
  }

  // ---------- turns ----------

  /** Commits before `turn` have settled, those behind it wait, and only the one at `turn` may write. */
  ghost predicate InTurn(s: Session, turn: nat) {
    && turn <= |s.commits|
    && (forall i :: 0 <= i < turn ==> s.commits[i].status.Done?)
    && (forall i :: turn < i < |s.commits| ==> s.commits[i].status.Waiting?)
    && (turn < |s.commits| ==> !s.commits[turn].status.Done?)
    && (IsWriting(s, turn) ==> !s.fault)
  }

  /** The writer was called in the order of the commits. */
  ghost predicate CalledInTurn(s: Session, turn: nat) {
    && (forall i :: 0 <= i < |s.calls| ==> s.calls[i] <= turn && (s.calls[i] == turn ==> IsWriting(s, turn)))
    && (forall i, j :: 0 <= i < j < |s.calls| ==> s.calls[i] <= s.calls[j])
  }

  lemma {:induction false} SettlingPassesTurn(s: Session, turn: nat, answer: Answer, t: Session)
    requires InTurn(s, turn) && turn < |s.commits| && t.commits == With(s, turn, Done(answer)).commits
    ensures InTurn(t, turn + 1) && !IsWriting(t, turn + 1)
  {
  }

  lemma {:induction false} CallsStayInTurn(s: Session, turn: nat, t: Session)
    requires CalledInTurn(s, turn) && (t.calls == s.calls || t.calls == s.calls + [turn])
    ensures CalledInTurn(t, turn + 1)
  {
  }

  /** Only the commit whose turn it is can begin, and only it writes. */
  lemma {:induction false} OnlyTurnActs(s: Session, turn: nat, k: nat)
    requires InTurn(s, turn) && k < |s.commits|
    requires s.commits[k].status.Writing? || (s.commits[k].status.Waiting? && Free(s, k))
    ensures k == turn
  {
  }

  lemma {:induction false} WritingKeepsTurn(s: Session, turn: nat, status: Status, t: Session)
    requires InTurn(s, turn) && turn < |s.commits| && status.Writing? && !t.fault
    requires t.commits == With(s, turn, status).commits
    ensures InTurn(t, turn)
  {
  }

  // ---------- memory and log ----------

  /** What a commit is writing was staged on what is in memory. */
  ghost predicate StagedHere(s: Session, k: nat)
    requires IsWriting(s, k)
  {
    var status := s.commits[k].status;
    && Stage(IndexOf(s.entries), |s.entries|, status.from, s.commits[k].appends) == Ok(status.staged)
    && (status.from.Some? ==> status.from.value in IndexOf(s.entries))
    && s.log == s.entries + status.written
  }

  predicate HeadKnown(s: Session) {
    s.head.Some? ==> s.head.value in IndexOf(s.entries)
  }

  /** Memory and log agree unless the outcome of a commit is unknown or one is being written. */
  ghost predicate Synced(s: Session, turn: nat) {
    HeadKnown(s) && (if IsWriting(s, turn) then StagedHere(s, turn) else !s.fault ==> s.log == s.entries)
  }

  lemma {:induction false} NextHeadIsKnown(entries: seq<Entry>, from: Option<Id>, staged: seq<Entry>, written: seq<Entry>)
    requires SameBatch(written, staged) && (from.Some? ==> from.value in IndexOf(entries))
    ensures NextParent(from, staged).Some? ==> NextParent(from, staged).value in IndexOf(entries + written)
  {
    if staged == [] {
      ConcatNothing(entries);
    } else {
      ConcatSnoc(entries, written);
      IndexOfSnoc(entries + written[..|written| - 1], written[|written| - 1]);
    }
  }

  lemma {:induction false} KnownStaysKnown(entries: seq<Entry>, more: seq<Entry>, id: Id)
    requires id in IndexOf(entries)
    ensures id in IndexOf(entries + more)
  {
    AdoptionIndexes(entries, more);
    AdoptedKeeps(IndexOf(entries), more, id);
  }

  lemma {:induction false} AdoptedKeeps(index: Index, batch: seq<Entry>, id: Id)
    requires id in index
    ensures id in Adopted(index, batch)
  {
    if batch != [] { AdoptedKeeps(index, batch[..|batch| - 1], id); }
  }

  lemma {:induction false} LastIsKnown(entries: seq<Entry>)
    ensures LastId(entries).Some? ==> LastId(entries).value in IndexOf(entries)
  {
  }

  /** The invariant of a session. */
  ghost predicate Orderly(s: Session, turn: nat) {
    InTurn(s, turn) && CalledInTurn(s, turn) && Synced(s, turn)
  }

  lemma {:induction false} AdoptionSyncs(s: Session, k: nat)
    requires IsWriting(s, k) && HeadKnown(s) && StagedHere(s, k)
    ensures var t := Adoption(s, k); HeadKnown(t) && (!t.fault ==> t.log == t.entries)
  {
    var status, t := s.commits[k].status, Adoption(s, k);
    if t.commits[k].status.answer.Durable? {
      var n := SameUpTo(status.written, status.staged);
      TakeAll(status.written);
      NextHeadIsKnown(s.entries, status.from, status.staged, status.written);
    } else if s.head.Some? && t.entries != s.entries {
      KnownStaysKnown(s.entries, status.written[..SameUpTo(status.written, status.staged)], s.head.value);
    }
  }

  lemma {:induction false} AdoptionKeeps(s: Session, k: nat)
    requires IsWriting(s, k) && Orderly(s, k)
    ensures Orderly(Adoption(s, k), k + 1)
  {
    var t := Adoption(s, k);
    SettlingPassesTurn(s, k, t.commits[k].status.answer, t);
    CallsStayInTurn(s, k, t);
    AdoptionSyncs(s, k);
  }

  lemma {:induction false} BrokenSyncs(s: Session, k: nat, part: seq<Entry>, refused: bool)
    requires IsWriting(s, k) && HeadKnown(s) && StagedHere(s, k) && (refused ==> part == [])
    ensures var t := Broken(s, k, part, refused); HeadKnown(t) && (!t.fault ==> t.log == t.entries)
  {
    if !Broken(s, k, part, refused).fault {
      ConcatNothing(s.commits[k].status.written);
      ConcatNothing(s.entries);
      ConcatNothing(s.log);
    }
  }

  lemma {:induction false} BrokenKeeps(s: Session, k: nat, part: seq<Entry>, refused: bool)
    requires IsWriting(s, k) && Orderly(s, k) && (refused ==> part == [])
    ensures Orderly(Broken(s, k, part, refused), k + 1)
  {
    var t := Broken(s, k, part, refused);
    SettlingPassesTurn(s, k, t.commits[k].status.answer, t);
    CallsStayInTurn(s, k, t);
    BrokenSyncs(s, k, part, refused);
  }

  lemma {:induction false} WrittenSyncs(s: Session, k: nat, part: seq<Entry>)
    requires IsWriting(s, k) && Synced(s, k)
    ensures Synced(Written(s, k, part), k)
  {
    ConcatAssociates(s.entries, s.commits[k].status.written, part);
  }

  lemma {:induction false} WrittenKeeps(s: Session, k: nat, part: seq<Entry>)
    requires IsWriting(s, k) && Orderly(s, k)
    ensures Orderly(Written(s, k, part), k)
  {
    var t := Written(s, k, part);
    WritingKeepsTurn(s, k, t.commits[k].status, t);
    WrittenSyncs(s, k, part);
  }

  lemma {:induction false} BegunStages(s: Session, k: nat)
    requires k < |s.commits| && s.commits[k].status.Waiting? && HeadKnown(s) && (!s.fault ==> s.log == s.entries)
    ensures IsWriting(Begun(s, k), k) ==> StagedHere(Begun(s, k), k)
  {
    ConcatNothing(s.entries);
  }

  lemma {:induction false} BegunKeeps(s: Session, k: nat)
    requires k < |s.commits| && s.commits[k].status.Waiting? && Orderly(s, k)
    ensures Orderly(Begun(s, k), if IsWriting(Begun(s, k), k) then k else k + 1)
  {
    var t := Begun(s, k);
    if IsWriting(t, k) {
      WritingKeepsTurn(s, k, t.commits[k].status, t);
    } else {
      SettlingPassesTurn(s, k, t.commits[k].status.answer, t);
      CallsStayInTurn(s, k, t);
    }
    BegunStages(s, k);
  }

  lemma {:induction false} CalledKeeps(s: Session, turn: nat, appends: seq<Append>)
    requires Orderly(s, turn)
    ensures Orderly(After(s, Called(appends)), turn)
  {
  }

  lemma {:induction false} SelectedKeeps(s: Session, turn: nat, id: Option<Id>)
    requires Orderly(s, turn)
    ensures Orderly(After(s, Selected(id)), turn)
  {
  }

  lemma {:induction false} RestartedKeeps(s: Session)
    ensures Orderly(After(s, Restarted), 0)
  {
    LastIsKnown(s.log);
  }

  lemma {:induction false} TurnOfKeeps(s: Session, turn: nat, k: nat) returns (next: nat)
    requires Orderly(s, turn)
    ensures Orderly(After(s, TurnOf(k)), next) && turn <= next <= turn + 1
  {
    next := turn;
    if k < |s.commits| && s.commits[k].status.Waiting? && Free(s, k) {
      OnlyTurnActs(s, turn, k);
      BegunKeeps(s, k);
      next := if IsWriting(Begun(s, k), k) then k else k + 1;
    }
  }

  lemma {:induction false} WriterKeeps(s: Session, turn: nat, event: Event) returns (next: nat)
    requires Orderly(s, turn) && (event.Stored? || event.Failed? || event.Answered?)
    ensures Orderly(After(s, event), next) && turn <= next <= turn + 1
  {
    next := turn;
    if IsWriting(s, event.k) {
      OnlyTurnActs(s, turn, event.k);
      if event.Stored? {
        WrittenKeeps(s, event.k, event.part);
      } else if event.Answered? {
        AdoptionKeeps(s, event.k);
        next := event.k + 1;
      } else if event.refused ==> event.part == [] {
        BrokenKeeps(s, event.k, event.part, event.refused);
        next := event.k + 1;
      }
    }
  }

  /** Whatever happens, there is one turn; it moves by one commit at most, or a restart begins anew. */
  lemma {:induction false} StepKeepsOrder(s: Session, turn: nat, event: Event) returns (next: nat)
    requires Orderly(s, turn)
    ensures Orderly(After(s, event), next) && (event.Restarted? || turn <= next <= turn + 1)
  {
    next := turn;
    match event
    case Called(appends) => CalledKeeps(s, turn, appends);
    case TurnOf(k) => next := TurnOfKeeps(s, turn, k);
    case Selected(id) => SelectedKeeps(s, turn, id);
    case Restarted =>
      RestartedKeeps(s);
      next := 0;
    case _ => next := WriterKeeps(s, turn, event);
  }

  lemma {:induction false} AlwaysOrderly(events: seq<Event>) returns (turn: nat)
    ensures Orderly(Run(NEW_SESSION, events), turn)
  {
    if events == [] {
      turn := 0;
    } else {
      var before := AlwaysOrderly(events[..|events| - 1]);
      turn := StepKeepsOrder(Run(NEW_SESSION, events[..|events| - 1]), before, events[|events| - 1]);
    }
  }

  /** In every run at most one commit writes at a time, commits settle in the order in which they were
      called, and so is the writer called. */
  lemma {:induction false} CommitsTakeTurns(events: seq<Event>)
    ensures
      var s := Run(NEW_SESSION, events);
      && (forall j, k :: 0 <= j < k < |s.commits| && s.commits[j].status.Writing? ==> s.commits[k].status.Waiting?)
      && (forall j, k :: 0 <= j < k < |s.commits| && s.commits[k].status.Done? ==> s.commits[j].status.Done?)
      && (forall j, k :: 0 <= j < k < |s.calls| ==> s.calls[j] <= s.calls[k])
  {
    var turn := AlwaysOrderly(events);
  }

  /** In every run, whoever commits, selects and restarts when: memory and log agree whenever no
      commit is being written and no outcome is unknown; while one is being written the log is memory
      and what this commit has stored; after an unknown outcome nobody writes. */
  lemma {:induction false} MemoryFollowsLog(events: seq<Event>)
    ensures
      var s := Run(NEW_SESSION, events);
      && ((forall k :: 0 <= k < |s.commits| ==> !s.commits[k].status.Writing?) && !s.fault ==> s.entries == s.log)
      && (forall k :: 0 <= k < |s.commits| && s.commits[k].status.Writing? ==>
            !s.fault && s.log == s.entries + s.commits[k].status.written)
      && (s.head.Some? ==> s.head.value in IndexOf(s.entries))
  {
    var turn := AlwaysOrderly(events);
    var s := Run(NEW_SESSION, events);
    forall k | 0 <= k < |s.commits| && s.commits[k].status.Writing?
      ensures !s.fault && s.log == s.entries + s.commits[k].status.written
    {
      assert k == turn && IsWriting(s, turn);
    }
  }

  // ---------- an unknown outcome is final ----------

  lemma {:induction false} FaultyStep(s: Session, turn: nat, event: Event)
    requires InTurn(s, turn) && s.fault && !event.Restarted?
    ensures
      var t := After(s, event);
      t.fault && t.log == s.log && t.entries == s.entries && t.calls == s.calls
  {
  }

  /** After an unknown outcome neither the log nor what is in memory changes, and the writer is not
      called, until the process is restarted. */
  lemma {:induction false} FaultIsFinal(events: seq<Event>, later: seq<Event>)
    requires Run(NEW_SESSION, events).fault && forall i :: 0 <= i < |later| ==> !later[i].Restarted?
    ensures
      var s, t := Run(NEW_SESSION, events), Run(NEW_SESSION, events + later);
      t.fault && t.log == s.log && t.entries == s.entries && t.calls == s.calls
    decreases |later|
  {
    if later == [] {
      ConcatNothing(events);
    } else {
      var init, last := later[..|later| - 1], later[|later| - 1];
      ConcatSnoc(events, later);
      forall i | 0 <= i < |init| ensures !init[i].Restarted? { assert init[i] == later[i]; }
      FaultIsFinal(events, init);
      var turn := AlwaysOrderly(events + init);
      assert !later[|later| - 1].Restarted?;
      FaultyStep(Run(NEW_SESSION, events + init), turn, last);
    }
  }
}
