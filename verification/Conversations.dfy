/** The conversation: an in-memory journal with a projection extended in place and a cached
    context, both of which always agree with a replay from scratch. */
module Conversations {
  import opened Sequences
  import opened Entries
  import opened Projections
  import opened JournalPaths
  import opened Journals
  import opened ProjectionBuffers

  function Continued(walked: Walked, newer: seq<Entry>): Walked {
    match walked
    case Path(older) => Path(older + newer)
    case other => other
  }

  /** The buffer holds the replay of the whole path to its own head. */
  predicate Faithful(index: Index, buffer: ProjectionBuffer)
    reads buffer
  {
    && OnlyTools(buffer.tools)
    && PathAfter(index, None, buffer.headId).Path?
    && Fold(PathAfter(index, None, buffer.headId).entries) == Ok(buffer.Value())
    && buffer.entryCount == |PathAfter(index, None, buffer.headId).entries|
  }

  class ConversationContext {
    var entries: seq<Entry>
    var index: Index
    var headId: Option<Id>
    var cached: Option<ModelContext>
    var projection: ProjectionBuffer?
    var scannedEntries: nat
    var rebuilds: nat

    ghost predicate Indexed()
      reads this`entries, this`index, this`headId
    {
      index == IndexOf(entries) && (headId.Some? ==> headId.value in index)
    }

    ghost predicate CacheAgrees()
      reads this`index, this`headId, this`cached
    {
      cached.Some? ==> ContextAt(index, headId) == Ok(cached.value)
    }

    ghost predicate ProjectionAgrees()
      reads this`index, this`projection, projection
    {
      projection != null ==> Faithful(index, projection)
    }

    /** Cached state is exactly what a from-scratch replay gives, whatever parents entries name. */
    ghost predicate Coherent()
      reads this, projection
    {
      Indexed() && CacheAgrees() && ProjectionAgrees()
    }

    constructor (log: seq<Entry>)
      ensures Coherent() && entries == log && headId == LastId(log)
      ensures cached == None && projection == null && scannedEntries == 0 && rebuilds == 0
    {
      entries, index, headId := log, IndexOf(log), LastId(log);
      cached, projection, scannedEntries, rebuilds := None, null, 0, 0;
    }

    method ClearCache()
      requires Coherent()
      modifies this`cached, this`projection
      ensures Coherent() && cached == None && projection == null
    {
      cached, projection := None, null;
    }

    method SelectHead(id: Option<Id>) returns (failure: Option<Failure>)
      requires Coherent()
      modifies this`headId, this`cached
      ensures Coherent()
      ensures id.Some? && id.value !in index ==>
                failure == Some(MissingEntry(id.value)) && headId == old(headId) && cached == old(cached)
      ensures id.None? || id.value in index ==> failure == None && headId == id && cached == None
    {
      if id.Some? && id.value !in index { return Some(MissingEntry(id.value)); }
      headId, cached, failure := id, None, None;
    }

    /** Walks parent pointers backwards, then reverses what it collected. */
    method WalkBack(ancestor: Option<Id>, head: Option<Id>) returns (walked: Walked)
      ensures walked == PathAfter(index, ancestor, head)
    {
      var path: seq<Entry> := [];
      var seen: set<Id> := {};
      var current := head;
      while current != ancestor
        invariant PathAfter(index, ancestor, head) == Continued(Walk(index, ancestor, current, seen), Reversed(path))
        decreases |index.Keys - seen|
      {
        if current.None? { return Unreachable; }
        var id := current.value;
        if id in seen { return Failed(CyclicJournal(id)); }
        if id !in index { return Failed(MissingEntry(id)); }
        assert index.Keys - (seen + {id}) < index.Keys - seen by { assert id in index.Keys - seen; }
        SmallerSet(index.Keys - (seen + {id}), index.Keys - seen);
        OneMoreBack(Walk(index, ancestor, index[id].parentId, seen + {id}), index[id], path);
        seen := seen + {id};
        path := path + [index[id]];
        current := index[id].parentId;
      }
      return Path(Reversed(path));
    }

    /** Replays `suffix` into the buffer, counting the entries it scans. */
    method Extend(buffer: ProjectionBuffer, suffix: seq<Entry>) returns (failure: Option<Failure>)
      requires OnlyTools(buffer.tools)
      modifies buffer, this`scannedEntries
      ensures match FoldFrom(old(buffer.Value()), suffix)
              case Ok(after) =>
                failure == None && buffer.Value() == after &&
                scannedEntries == old(scannedEntries) + |suffix| &&
                buffer.entryCount == old(buffer.entryCount) + |suffix| &&
                buffer.headId == EndOf(old(buffer.headId), suffix)
              case Err(reason) => failure == Some(reason)
    {
      ghost var start := buffer.Value();
      for i := 0 to |suffix|
        invariant OnlyTools(buffer.tools)
        invariant FoldFrom(start, suffix[..i]) == Ok(buffer.Value())
        invariant scannedEntries == old(scannedEntries) + i
        invariant buffer.entryCount == old(buffer.entryCount) + i
        invariant buffer.headId == EndOf(old(buffer.headId), suffix[..i])
      {
        var entry := suffix[i];
        TakeOneMore(suffix, i);
        ghost var before := buffer.Value();
        failure := buffer.ApplyEntry(entry);
        if failure.Some? {
          FailureStays(start, suffix, i, failure.value);
          return;
        }
        buffer.headId := Some(entry.id);
        buffer.entryCount := buffer.entryCount + 1;
        scannedEntries := scannedEntries + 1;
      }
      TakeAll(suffix);
      failure := None;
    }

    /** The buffer a read of `head` may extend. */
    ghost predicate Reusable(head: Option<Id>)
      reads this, projection
    {
      head == headId && projection != null && PathAfter(index, projection.headId, head).Path?
    }

    /** The entries of a path that the next read has to scan. */
    ghost function Unscanned(head: Option<Id>, path: seq<Entry>): int
      reads this, projection
    {
      if Reusable(head) then |path| - projection.entryCount else |path|
    }

    /** Picks the buffer to extend and the entries it still lacks: the kept one if it lies on the
        path of the current head, else a fresh one and the whole path. */
    method StartReading(head: Option<Id>)
      returns (failure: Option<Failure>, buffer: ProjectionBuffer?, suffix: seq<Entry>)
      requires Coherent()
      modifies this`rebuilds
      ensures failure.Some? ==>
                PathAfter(index, None, head) == Failed(failure.value) && buffer == null && rebuilds == old(rebuilds)
      ensures failure.None? ==>
                && buffer != null && (buffer == projection || fresh(buffer)) && Faithful(index, buffer)
                && PathAfter(index, None, head) == Path(PathAfter(index, None, buffer.headId).entries + suffix)
                && |suffix| == Unscanned(head, PathAfter(index, None, head).entries)
                && (buffer == projection ==> head == headId)
                && rebuilds == old(rebuilds) + (if Reusable(head) then 0 else 1)
    {
      RootIsAlwaysReached(index, head, {});
      if head == headId && projection != null {
        var walked := WalkBack(projection.headId, head);
        if !walked.Unreachable? {
          PathsSplitAtAncestor(index, projection.headId, head);
          if walked.Failed? { return Some(walked.reason), null, []; }
          return None, projection, walked.entries;
        }
      }
      var walked := WalkBack(None, head);
      if walked.Failed? { return Some(walked.reason), null, []; }
      rebuilds := rebuilds + 1;
      buffer := new ProjectionBuffer();
      assert Fold([]) == Ok(EMPTY);
      return None, buffer, walked.entries;
    }

    /** Extends a faithful buffer to the head; on success it is faithful there. */
    method Advance(head: Option<Id>, buffer: ProjectionBuffer, suffix: seq<Entry>) returns (failure: Option<Failure>)
      requires ValidIndex(index) && Faithful(index, buffer)
      requires PathAfter(index, None, head) == Path(PathAfter(index, None, buffer.headId).entries + suffix)
      modifies buffer, this`scannedEntries
      ensures match Replay(index, head)
              case Ok(value) =>
                failure == None && Faithful(index, buffer) && buffer.headId == head && buffer.Value() == value &&
                scannedEntries == old(scannedEntries) + |suffix|
              case Err(reason) => failure == Some(reason)
    {
      FoldConcat(EMPTY, PathAfter(index, None, buffer.headId).entries, suffix);
      ExtendedEnd(index, head, buffer.headId, suffix);
      failure := Extend(buffer, suffix);
    }

    /** A failed replay at the current head drops both caches; a missing path, or a failure at
        another head, leaves them as they were. */
    method ReadProjection(head: Option<Id>) returns (failure: Option<Failure>, buffer: ProjectionBuffer?)
      requires Coherent()
      modifies this`cached, this`projection, this`scannedEntries, this`rebuilds, projection
      ensures Coherent()
      ensures failure.Some? && head == headId && PathAfter(index, None, head).Path? ==> projection == null && cached == None
      ensures failure.Some? && !(head == headId && PathAfter(index, None, head).Path?) ==>
                projection == old(projection) && cached == old(cached)
      ensures failure.None? ==> cached == old(cached) && projection == if head == headId then buffer else old(projection)
      ensures failure.Some? ==> Replay(index, head) == Err(failure.value) && buffer == null
      ensures failure.None? ==> buffer != null && Faithful(index, buffer) && buffer.headId == head
      ensures failure.None? ==> rebuilds == old(rebuilds) + (if old(Reusable(head)) then 0 else 1)
      ensures failure.None? ==> Replay(index, head) == Ok(buffer.Value())
      ensures failure.None? ==>
                scannedEntries == old(scannedEntries) + old(Unscanned(head, PathAfter(index, None, head).entries))
      ensures projection == old(projection) || projection == null || fresh(projection)
    {
      var start, suffix;
      failure, start, suffix := StartReading(head);
      if failure.Some? { return failure, null; }
      failure, buffer := FinishReading(head, start, suffix);
    }

    /** Extends the buffer that was picked and decides what to keep. */
    method FinishReading(head: Option<Id>, start: ProjectionBuffer, suffix: seq<Entry>)
      returns (failure: Option<Failure>, buffer: ProjectionBuffer?)
      requires Coherent() && Faithful(index, start) && (start == projection ==> head == headId)
      requires PathAfter(index, None, head) == Path(PathAfter(index, None, start.headId).entries + suffix)
      modifies this`cached, this`projection, this`scannedEntries, start
      ensures Coherent()
      ensures if head == headId
              then projection == buffer && cached == (if failure.Some? then None else old(cached))
              else projection == old(projection) && cached == old(cached)
      ensures failure.Some? ==> Replay(index, head) == Err(failure.value) && buffer == null
      ensures failure.None? ==>
                && buffer == start && Faithful(index, buffer) && buffer.headId == head
                && Replay(index, head) == Ok(buffer.Value()) && scannedEntries == old(scannedEntries) + |suffix|
      ensures projection == old(projection) || projection == null || projection == start
    {
      failure := Advance(head, start, suffix);
      buffer := if failure.None? then start else null;
      assert head != headId ==> ProjectionAgrees();
      Keep(head, buffer);
    }

    /** After a read of the current head: keep the buffer, or forget everything if it failed. */
    method Keep(head: Option<Id>, buffer: ProjectionBuffer?)
      modifies this`cached, this`projection
      ensures head != headId ==> projection == old(projection) && cached == old(cached)
      ensures head == headId ==> projection == buffer && cached == if buffer == null then None else old(cached)
    {
      if head == headId {
        if buffer == null { cached := None; }
        projection := buffer;
      }
    }

    /** The context of any head equals the reference, served from the cache or not. */
    method Materialize(head: Option<Id>) returns (context: Result<ModelContext>)
      requires Coherent()
      modifies this`cached, this`projection, this`scannedEntries, this`rebuilds, projection
      ensures Coherent()
      ensures context == ContextAt(index, head)
      ensures projection == old(projection) || projection == null || fresh(projection)
    {
      if head == headId && cached.Some? { return Ok(cached.value); }
      var failure, buffer := ReadProjection(head);
      if failure.Some? { return Err(failure.value); }
      var value := ContextOf(head, buffer.Value());
      if head == headId { cached := Some(value); }
      return Ok(value);
    }

    /** What changed for a caller who last saw `previousLength` messages at `previous`. */
    method GetModelUpdate(previous: Option<Option<Id>>, previousLength: nat) returns (update: Result<ModelUpdate>)
      requires Coherent()
      modifies this`cached, this`projection, this`scannedEntries, this`rebuilds, projection
      ensures Coherent()
      ensures update == GetUpdate(index, headId, previous, previousLength)
      ensures projection == old(projection) || projection == null || fresh(projection)
    {
      var reset := true;
      if previous.Some? {
        var walked := WalkBack(previous.value, headId);
        if walked.Failed? { return Err(walked.reason); }
        reset := walked.Unreachable? || NeedsReset(index, previous.value, walked.entries);
      }
      var context := Materialize(headId);
      if context.Err? { return Err(context.reason); }
      var messages := context.value.messages;
      return Ok(ModelUpdate(headId, if reset then messages else SliceFrom(messages, previousLength),
                            reset, Revision(index, headId), |messages|));
    }

    /** The checks of one staged entry against the view at the current head. */
    method CheckEntry(entry: Entry) returns (failure: Option<Failure>)
      requires Coherent()
      modifies this`cached, this`projection, this`scannedEntries, this`rebuilds, projection
      ensures Coherent()
      ensures failure == Admit(index, headId, entry)
      ensures projection == old(projection) || projection == null || fresh(projection)
    {
      failure := None;
      if entry.payload.ModelLoadout? {
        if !ValidLoadout(entry.payload.loadout) { failure := Some(InvalidLoadout); }
      } else if entry.payload.Edit? {
        var buffer;
        failure, buffer := ReadProjection(headId);
        if failure.None? && !ValidEdit(entry.payload.edit, Known(buffer.Value())) { failure := Some(InvalidEdit); }
      } else if entry.payload.Compaction? && entry.payload.view.Some? {
        var view := entry.payload.view.value;
        if view.baseHeadId != headId || entry.parentId != headId { return Some(CutPointMismatch); }
        var context := Materialize(headId);
        if context.Err? { return Some(context.reason); }
        if !ValidCompactionView(view, context.value.messages) { failure := Some(InvalidCompaction); }
      }
    }

    /** The first phase of an append: everything is validated, nothing is written. Reads and head
        selections may happen before the writer answers. */
    method StageBatch(appends: seq<Append>) returns (staged: Result<seq<Entry>>)
      requires Coherent()
      modifies this`cached, this`projection, this`scannedEntries, this`rebuilds, projection
      ensures Coherent()
      ensures staged == Stage(index, |entries|, headId, appends)
      ensures projection == old(projection) || projection == null || fresh(projection)
    {
      var batch: seq<Entry> := [];
      for i := 0 to |appends|
        invariant Coherent()
        invariant Stage(index, |entries|, headId, appends[..i]) == Ok(batch)
        invariant projection == old(projection) || projection == null || fresh(projection)
      {
        TakeOneMore(appends, i);
        var entry := EntryFor(appends[i], |entries|, headId, batch);
        var failure;
        if entry.id in index || HasId(batch, entry.id) {
          failure := Some(DuplicateId(entry.id));
        } else {
          failure := CheckEntry(entry);
        }
        if failure.Some? {
          StageFails(index, |entries|, headId, appends, i, failure.value);
          return Err(failure.value);
        }
        batch := batch + [entry];
      }
      TakeAll(appends);
      return Ok(batch);
    }

    method AdoptEntry(entry: Entry)
      requires Coherent() && entry.id !in index
      modifies this`entries, this`index
      ensures Coherent() && entries == old(entries) + [entry] && index == old(index)[entry.id := entry]
    {
      ghost var grown := index[entry.id := entry];
      IndexOfSnoc(entries, entry);
      assert cached.Some? ==> ContextAt(grown, headId) == Ok(cached.value) by { KeepsCoherent(index, entry, headId); }
      assert projection != null ==> Faithful(grown, projection) by {
        if projection != null { FaithfulGrows(index, entry, projection); }
      }
      entries := entries + [entry];
      index := index[entry.id := entry];
      assert Indexed();
      assert CacheAgrees();
      assert ProjectionAgrees();
    }

    method AdoptNext(staged: seq<Entry>, committed: seq<Entry>, count: nat, ghost before: seq<Entry>)
      requires Coherent() && DistinctIds(staged) && Partly(staged, committed, count) && RestNew(staged, index, count)
      requires count < |staged| && count < |committed| && SamePlacement(committed[count], staged[count])
      requires entries == before + committed[..count]
      modifies this`entries, this`index
      ensures Coherent() && Partly(staged, committed, count + 1) && RestNew(staged, index, count + 1)
      ensures entries == before + committed[..count + 1] && staged[count].id in index
    {
      OneMoreAdopted(staged, committed, index, count);
      OneMoreCommitted(before, committed, count);
      AdoptEntry(committed[count]);
    }

    /** Adopts committed entries up to the first one that is not what was staged. */
    method AdoptWhileSame(staged: seq<Entry>, committed: seq<Entry>) returns (count: nat)
      requires Coherent() && AllNew(staged, index) && |committed| == |staged|
      modifies this`entries, this`index
      ensures Coherent()
      ensures Partly(staged, committed, count) && entries == old(entries) + committed[..count]
      ensures count < |staged| ==> !SamePlacement(committed[count], staged[count])
      ensures count > 0 ==> staged[count - 1].id in index
    {
      count := 0;
      ghost var before := entries;
      NothingAdopted(staged, committed, index, before);
      while count < |committed| && SamePlacement(committed[count], staged[count])
        invariant Coherent() && Partly(staged, committed, count) && RestNew(staged, index, count)
        invariant entries == before + committed[..count] && (count > 0 ==> staged[count - 1].id in index)
      {
        AdoptNext(staged, committed, count, before);
        count := count + 1;
      }
    }

    /** The second phase: adopts what the writer committed, entry by entry. The head moves only when
        every entry came back as staged; on a mismatch the entries before it stay. `head` was fixed
        when the batch was staged: whatever was selected since is overridden. */
    method Adopt(staged: seq<Entry>, head: Option<Id>, committed: seq<Entry>) returns (adopted: bool)
      requires Coherent() && AllNew(staged, index)
      requires if staged == [] then head.Some? ==> head.value in index else head == LastId(staged)
      modifies this`entries, this`index, this`headId, this`cached
      ensures Coherent()
      ensures adopted <==> SameBatch(committed, staged)
      ensures adopted ==> entries == old(entries) + committed && headId == head && cached == None
      ensures !adopted ==> headId == old(headId) && old(entries) <= entries <= old(entries) + committed
    {
      if |committed| != |staged| { return false; }
      ghost var before := entries;
      var count := AdoptWhileSame(staged, committed);
      PrefixBehind(before, committed, count);
      if count < |staged| { return false; }
      TakeAll(committed);
      headId := head;
      cached := None;
      return true;
    }
  }

  lemma {:induction false} OneMoreBack(older: Walked, entry: Entry, path: seq<Entry>)
    ensures Reversed(path + [entry]) == [entry] + Reversed(path)
    ensures Continued(Continued(older, [entry]), Reversed(path)) == Continued(older, Reversed(path + [entry]))
  {
    Snoc(path, entry);
    if older.Path? { ConcatAssociates(older.entries, [entry], Reversed(path)); }
  }

  predicate Partly(staged: seq<Entry>, committed: seq<Entry>, count: nat) {
    count <= |staged| && count <= |committed| &&
    forall k :: 0 <= k < count ==> SamePlacement(committed[k], staged[k])
  }

  predicate RestNew(staged: seq<Entry>, index: Index, count: nat) {
    forall k :: count <= k < |staged| ==> staged[k].id !in index
  }

  lemma {:induction false} NothingAdopted(staged: seq<Entry>, committed: seq<Entry>, index: Index, before: seq<Entry>)
    requires AllNew(staged, index)
    ensures Partly(staged, committed, 0) && RestNew(staged, index, 0) && DistinctIds(staged)
    ensures before + committed[..0] == before
  {
    ConcatNothing(before);
  }

  lemma {:induction false} OneMoreAdopted(staged: seq<Entry>, committed: seq<Entry>, index: Index, count: nat)
    requires DistinctIds(staged) && Partly(staged, committed, count) && RestNew(staged, index, count)
    requires count < |staged| && count < |committed| && SamePlacement(committed[count], staged[count])
    ensures committed[count].id == staged[count].id && staged[count].id !in index
    ensures Partly(staged, committed, count + 1)
    ensures RestNew(staged, index[committed[count].id := committed[count]], count + 1)
  {
  }

  lemma {:induction false} OneMoreCommitted(before: seq<Entry>, committed: seq<Entry>, i: nat)
    requires i < |committed|
    ensures before + committed[..i] + [committed[i]] == before + committed[..i + 1]
  {
  }

  predicate AllNew(staged: seq<Entry>, index: Index) {
    DistinctIds(staged) && forall i :: 0 <= i < |staged| ==> staged[i].id !in index
  }

  lemma {:induction false} KeepsCoherent(index: Index, entry: Entry, head: Option<Id>)
    requires ValidIndex(index) && entry.id !in index
    ensures ContextAt(index, head).Ok? ==> ContextAt(index[entry.id := entry], head) == ContextAt(index, head)
  {
    if ContextAt(index, head).Ok? { ContextsAreStable(index, index[entry.id := entry], head); }
  }

  lemma {:induction false} FaithfulGrows(index: Index, entry: Entry, buffer: ProjectionBuffer)
    requires ValidIndex(index) && entry.id !in index && Faithful(index, buffer)
    ensures Faithful(index[entry.id := entry], buffer)
  {
    RootedPathsAreStable(index, index[entry.id := entry], buffer.headId);
  }

  lemma {:induction false} StageFails(index: Index, logged: nat, head: Option<Id>, appends: seq<Append>, i: nat, reason: Failure)
    requires i < |appends| && Stage(index, logged, head, appends[..i + 1]) == Err(reason)
    ensures Stage(index, logged, head, appends) == Err(reason)
  {
    if i + 1 < |appends| {
      var init := appends[..|appends| - 1];
      assert init[..i + 1] == appends[..i + 1];
      StageFails(index, logged, head, init, i, reason);
    } else {
      assert appends[..i + 1] == appends;
    }
  }

  lemma {:induction false} FailureStays(start: Projection, suffix: seq<Entry>, i: nat, reason: Failure)
    requires OnlyTools(start.tools) && i < |suffix|
    requires FoldFrom(start, suffix[..i + 1]) == Err(reason)
    ensures FoldFrom(start, suffix) == Err(reason)
  {
    FoldConcat(start, suffix[..i + 1], suffix[i + 1..]);
    assert suffix == suffix[..i + 1] + suffix[i + 1..];
  }

  lemma {:induction false} ExtendedEnd(index: Index, head: Option<Id>, ancestor: Option<Id>, suffix: seq<Entry>)
    requires ValidIndex(index) && PathAfter(index, None, head).Path? && PathAfter(index, None, ancestor).Path?
    requires PathAfter(index, None, head).entries == PathAfter(index, None, ancestor).entries + suffix
    ensures EndOf(ancestor, suffix) == head
  {
    RootedPathsAreChains(index, head);
    RootedPathsAreChains(index, ancestor);
  }
}
