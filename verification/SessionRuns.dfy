/** Every branch of a session replays, whatever was committed, selected and restarted before. */
module SessionRuns {
  import opened Sequences
  import opened Entries
  import opened JournalPaths
  import opened Journals
  import opened Replayability
  import opened CommitTurns

  // ---------- parts of a batch ----------

  /** The first part of a staged batch is what is staged for the first appends. */
  lemma {:induction false} StagedPrefix(index: Index, logged: nat, head: Option<Id>, appends: seq<Append>, n: nat)
    requires Stage(index, logged, head, appends).Ok? && n <= |appends|
    ensures Stage(index, logged, head, appends[..n]) == Ok(Stage(index, logged, head, appends).value[..n])
    decreases |appends|
  {
    var staged := Stage(index, logged, head, appends).value;
    if n == |appends| {
      TakeAll(appends);
      TakeAll(staged);
    } else {
      var init := appends[..|appends| - 1];
      StagedPrefix(index, logged, head, init, n);
      PrefixOfInit(appends, n);
      PrefixOfInit(staged, n);
      Snoc(Stage(index, logged, head, init).value, staged[|staged| - 1]);
    }
  }

  lemma {:induction false} DefaultPrefix(appends: seq<Append>, n: nat)
    requires DefaultPlacement(appends) && n <= |appends|
    ensures DefaultPlacement(appends[..n])
  {
    forall i | 0 <= i < n ensures appends[..n][i].parentId.None? { assert appends[..n][i] == appends[i]; }
  }

  /** However much of a default-placed batch was stored or adopted: every branch still replays. */
  lemma {:induction false} PartOfBatchReplays(entries: seq<Entry>, from: Option<Id>, appends: seq<Append>, part: seq<Entry>)
    requires AllReplay(IndexOf(entries)) && (from.Some? ==> from.value in IndexOf(entries))
    requires DefaultPlacement(appends) && Stage(IndexOf(entries), |entries|, from, appends).Ok?
    requires Follows(part, Stage(IndexOf(entries), |entries|, from, appends).value)
    requires IndexApart(IndexOf(entries + part))
    ensures AllReplay(IndexOf(entries + part))
  {
    StagedPrefix(IndexOf(entries), |entries|, from, appends, |part|);
    DefaultPrefix(appends, |part|);
    CommittedBatchReplays(entries, from, appends[..|part|], part);
  }

  // ---------- every run ----------

  /** The identities of compaction summaries are no entry's. */
  predicate SummariesApart(s: Session) {
    IndexApart(IndexOf(s.entries)) && (s.asked ==> IndexApart(IndexOf(s.log)))
  }

  predicate CommitsDefault(s: Session) {
    forall k :: 0 <= k < |s.commits| ==> DefaultPlacement(s.commits[k].appends)
  }

  predicate WritesAsAsked(s: Session) {
    s.asked ==> forall k :: 0 <= k < |s.commits| && s.commits[k].status.Writing? ==>
      Follows(s.commits[k].status.written, s.commits[k].status.staged)
  }

  /** Every branch replays, in memory and, if the writer did what it was asked, in the log. */
  predicate Replays(s: Session) {
    AllReplay(IndexOf(s.entries)) && (s.asked ==> AllReplay(IndexOf(s.log)))
  }

  predicate Sane(s: Session) {
    Replays(s) && CommitsDefault(s) && WritesAsAsked(s)
  }

  lemma {:induction false} StoredReplays(s: Session, k: nat, part: seq<Entry>)
    requires IsWriting(s, k) && StagedHere(s, k) && Sane(s) && SummariesApart(Written(s, k, part))
    ensures Sane(Written(s, k, part))
  {
    var status, t := s.commits[k].status, Written(s, k, part);
    assert DefaultPlacement(s.commits[k].appends);
    if t.asked {
      ConcatAssociates(s.entries, status.written, part);
      PartOfBatchReplays(s.entries, status.from, s.commits[k].appends, status.written + part);
    }
  }

  lemma {:induction false} BrokenReplays(s: Session, k: nat, part: seq<Entry>, refused: bool)
    requires IsWriting(s, k) && StagedHere(s, k) && Sane(s) && SummariesApart(Broken(s, k, part, refused))
    ensures Sane(Broken(s, k, part, refused))
  {
    StoredReplays(s, k, part);
  }

  lemma {:induction false} AdoptionKeepsCommits(s: Session, k: nat)
    requires IsWriting(s, k) && CommitsDefault(s) && WritesAsAsked(s)
    ensures CommitsDefault(Adoption(s, k)) && WritesAsAsked(Adoption(s, k))
    ensures Adoption(s, k).log == s.log && Adoption(s, k).asked == s.asked
  {
  }

  lemma {:induction false} AdoptedReplays(s: Session, k: nat)
    requires IsWriting(s, k) && StagedHere(s, k) && CommitsDefault(s) && AllReplay(IndexOf(s.entries))
    requires SummariesApart(Adoption(s, k))
    ensures AllReplay(IndexOf(Adoption(s, k).entries))
  {
    var status, t := s.commits[k].status, Adoption(s, k);
    assert DefaultPlacement(s.commits[k].appends);
    if |status.written| == |status.staged| {
      var n := SameUpTo(status.written, status.staged);
      if n == |status.staged| { TakeAll(status.written); }
      PartOfBatchReplays(s.entries, status.from, s.commits[k].appends, status.written[..n]);
    }
  }

  lemma {:induction false} AdoptionReplays(s: Session, k: nat)
    requires IsWriting(s, k) && StagedHere(s, k) && Sane(s) && SummariesApart(Adoption(s, k))
    ensures Sane(Adoption(s, k))
  {
    AdoptionKeepsCommits(s, k);
    AdoptedReplays(s, k);
  }

  lemma {:induction false} BegunReplays(s: Session, k: nat)
    requires k < |s.commits| && Sane(s)
    ensures Sane(Begun(s, k))
  {
  }

  lemma {:induction false} StepReplays(s: Session, turn: nat, event: Event)
    requires Orderly(s, turn) && Sane(s) && SummariesApart(After(s, event))
    requires event.Called? ==> DefaultPlacement(event.appends)
    requires event.Restarted? ==> s.asked
    ensures Sane(After(s, event))
  {
    match event
    case TurnOf(k) =>
      if k < |s.commits| && s.commits[k].status.Waiting? && Free(s, k) { BegunReplays(s, k); }
    case Stored(k, part) =>
      if IsWriting(s, k) {
        OnlyTurnActs(s, turn, k);
        StoredReplays(s, k, part);
      }
    case Failed(k, part, refused) =>
      if IsWriting(s, k) && (refused ==> part == []) {
        OnlyTurnActs(s, turn, k);
        BrokenReplays(s, k, part, refused);
      }
    case Answered(k) =>
      if IsWriting(s, k) {
        OnlyTurnActs(s, turn, k);
        AdoptionReplays(s, k);
      }
    case _ =>
  }

  predicate DefaultCalls(events: seq<Event>) {
    forall i :: 0 <= i < |events| && events[i].Called? ==> DefaultPlacement(events[i].appends)
  }

  /** The process is only restarted from a log that holds nothing but what the writer was asked to store. */
  predicate RestartsTrust(events: seq<Event>) {
    forall i :: 0 <= i < |events| && events[i].Restarted? ==> Run(NEW_SESSION, events[..i]).asked
  }

  predicate AlwaysApart(events: seq<Event>) {
    forall i :: 0 <= i <= |events| ==> SummariesApart(Run(NEW_SESSION, events[..i]))
  }

  lemma {:induction false} ShorterRun(events: seq<Event>)
    requires events != [] && DefaultCalls(events) && RestartsTrust(events) && AlwaysApart(events)
    ensures
      var init := events[..|events| - 1];
      DefaultCalls(init) && RestartsTrust(init) && AlwaysApart(init)
  {
    var init := events[..|events| - 1];
    forall i | 0 <= i < |init| && init[i].Called? ensures DefaultPlacement(init[i].appends) {
      assert init[i] == events[i];
    }
    forall i | 0 <= i < |init| && init[i].Restarted? ensures Run(NEW_SESSION, init[..i]).asked {
      assert init[i] == events[i];
      PrefixOfInit(events, i);
    }
    forall i | 0 <= i <= |init| ensures SummariesApart(Run(NEW_SESSION, init[..i])) {
      PrefixOfInit(events, i);
    }
  }

  lemma {:induction false} AlwaysSane(events: seq<Event>)
    requires DefaultCalls(events) && RestartsTrust(events) && AlwaysApart(events)
    ensures Sane(Run(NEW_SESSION, events))
  {
    if events != [] {
      var init, last := events[..|events| - 1], events[|events| - 1];
      ShorterRun(events);
      AlwaysSane(init);
      var turn := AlwaysOrderly(init);
      TakeAll(events);
      assert events[..|events|] == events;
      assert last == events[|events| - 1];
      StepReplays(Run(NEW_SESSION, init), turn, last);
    }
  }

  /** From an empty log, after any default-placed commits in any interleaving, with any answers of the
      writer, any selections and any restarts: every branch in memory replays, and so does every branch
      of the log as long as the writer stored nothing it was not asked to. */
  lemma {:induction false} EverySessionReplays(events: seq<Event>)
    requires DefaultCalls(events) && RestartsTrust(events) && AlwaysApart(events)
    ensures
      var s := Run(NEW_SESSION, events);
      && AllReplay(IndexOf(s.entries)) && Replay(IndexOf(s.entries), s.head).Ok?
      && (s.asked ==> AllReplay(IndexOf(s.log)))
  {
    AlwaysSane(events);
    MemoryFollowsLog(events);
    var s := Run(NEW_SESSION, events);
    if s.head.None? { assert PathAfter(IndexOf(s.entries), None, None) == Path([]); }
  }
}
