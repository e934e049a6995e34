/** Walking parent pointers through the journal's index. */
module JournalPaths {
  import opened Sequences
  import opened Entries

  type Index = map<Id, Entry>

  /** The outcome of walking from a head towards an ancestor. `Unreachable` means that a root
      was reached without meeting the ancestor. */
  datatype Walked = Path(entries: seq<Entry>) | Unreachable | Failed(reason: Failure)

  predicate ValidIndex(index: Index) {
    forall id :: id in index ==> index[id].id == id
  }

  /** The entries strictly after `ancestor` up to `current`, oldest first. */
  function Walk(index: Index, ancestor: Option<Id>, current: Option<Id>, seen: set<Id>): Walked
    decreases |index.Keys - seen|
  {
    if current == ancestor then Path([])
    else if current.None? then Unreachable
    else if current.value in seen then Failed(CyclicJournal(current.value))
    else if current.value !in index then Failed(MissingEntry(current.value))
    else
      var entry := index[current.value];
      assert index.Keys - (seen + {current.value}) < index.Keys - seen by {
        assert current.value in index.Keys - seen;
      }
      SmallerSet(index.Keys - (seen + {current.value}), index.Keys - seen);
      match Walk(index, ancestor, entry.parentId, seen + {current.value})
      case Path(entries) => Path(entries + [entry])
      case other => other
  }

  lemma {:induction false} SmallerSet<T>(a: set<T>, b: set<T>)
    requires a < b
    ensures |a| < |b|
  {
    assert |b| == |a| + |b - a| by { assert b == a + (b - a); }
    assert b - a != {};
  }

  function PathAfter(index: Index, ancestor: Option<Id>, head: Option<Id>): Walked {
    Walk(index, ancestor, head, {})
  }

  // ---------- what a path is, without walking ----------

  function EndOf(start: Option<Id>, path: seq<Entry>): Option<Id> {
    if path == [] then start else Some(path[|path| - 1].id)
  }

  /** A run of indexed entries, each one the parent of the next, hanging below `start`. */
  predicate Chain(index: Index, start: Option<Id>, path: seq<Entry>) {
    forall i :: 0 <= i < |path| ==>
      path[i].id in index && index[path[i].id] == path[i] && path[i].parentId == EndOf(start, path[..i])
  }

  predicate DistinctIds(path: seq<Entry>) {
    forall i, j :: 0 <= i < j < |path| ==> path[i].id != path[j].id
  }

  function EntryIds(path: seq<Entry>): set<Id> {
    set i | 0 <= i < |path| :: path[i].id
  }

  lemma {:induction false} EntryIdsSnoc(path: seq<Entry>)
    requires path != []
    ensures EntryIds(path) == EntryIds(path[..|path| - 1]) + {path[|path| - 1].id}
  {
    var init := path[..|path| - 1];
    forall id | id in EntryIds(path) ensures id in EntryIds(init) + {path[|path| - 1].id} {
      var i :| 0 <= i < |path| && path[i].id == id;
      if i < |init| { assert init[i].id == id; }
    }
    forall id | id in EntryIds(init) ensures id in EntryIds(path) {
      var i :| 0 <= i < |init| && init[i].id == id;
      assert path[i].id == id;
    }
  }

  lemma {:induction false} NotAmong(init: seq<Entry>, last: Entry)
    requires DistinctIds(init + [last])
    ensures last.id !in EntryIds(init)
  {
    forall i | 0 <= i < |init| ensures init[i].id != last.id {
      assert (init + [last])[i].id != (init + [last])[|init|].id;
    }
  }

  /** No id repeats on a chain that hangs from a root: parents are functional, so a repetition
      would propagate back to the first entry, whose parent is missing. */
  lemma {:induction false} RootedChainsAreDistinct(index: Index, path: seq<Entry>, i: nat, j: nat)
    requires Chain(index, None, path)
    requires i < j < |path|
    ensures path[i].id != path[j].id
  {
    assert path[i].parentId == EndOf(None, path[..i]);
    assert path[j].parentId == EndOf(None, path[..j]) == Some(path[j - 1].id);
    if i > 0 {
      RootedChainsAreDistinct(index, path, i - 1, j - 1);
    }
  }

  lemma {:induction false} ChainPrefix(index: Index, start: Option<Id>, path: seq<Entry>)
    requires path != [] && Chain(index, start, path)
    ensures Chain(index, start, path[..|path| - 1])
    ensures path[|path| - 1].id in index && index[path[|path| - 1].id] == path[|path| - 1]
    ensures path[|path| - 1].parentId == EndOf(start, path[..|path| - 1])
  {
    var init := path[..|path| - 1];
    forall i | 0 <= i < |init|
      ensures init[i].id in index && index[init[i].id] == init[i] && init[i].parentId == EndOf(start, init[..i])
    {
      assert init[..i] == path[..i] && init[i] == path[i];
    }
  }

  /** Walking follows a chain exactly when nothing on it has been seen and it avoids the goal. */
  lemma {:induction false} WalkFollowsChain(index: Index, ancestor: Option<Id>, path: seq<Entry>, seen: set<Id>)
    requires Chain(index, ancestor, path) && DistinctIds(path)
    requires forall i :: 0 <= i < |path| ==> path[i].id !in seen && Some(path[i].id) != ancestor
    ensures Walk(index, ancestor, EndOf(ancestor, path), seen) == Path(path)
  {
    if path != [] {
      var init, last := path[..|path| - 1], path[|path| - 1];
      ChainPrefix(index, ancestor, path);
      WalkFollowsChain(index, ancestor, init, seen + {last.id});
      InitAndLast(path);
    }
  }

  /** A successful walk yields a chain that avoids the goal and everything seen. */
  lemma {:induction false} WalkYieldsChain(index: Index, ancestor: Option<Id>, current: Option<Id>, seen: set<Id>)
    requires ValidIndex(index)
    requires Walk(index, ancestor, current, seen).Path?
    ensures
      var path := Walk(index, ancestor, current, seen).entries;
      && Chain(index, ancestor, path) && DistinctIds(path) && EndOf(ancestor, path) == current
      && (forall i :: 0 <= i < |path| ==> path[i].id !in seen && Some(path[i].id) != ancestor)
    decreases |index.Keys - seen|
  {
    if current != ancestor {
      var entry := index[current.value];
      var grown := seen + {current.value};
      assert index.Keys - grown < index.Keys - seen by { assert current.value in index.Keys - seen; }
      SmallerSet(index.Keys - grown, index.Keys - seen);
      WalkYieldsChain(index, ancestor, entry.parentId, grown);
      var init := Walk(index, ancestor, entry.parentId, grown).entries;
      var path := init + [entry];
      assert Walk(index, ancestor, current, seen) == Path(path);
      forall i | 0 <= i < |path|
        ensures path[i].id in index && index[path[i].id] == path[i] && path[i].parentId == EndOf(ancestor, path[..i])
        ensures path[i].id !in seen && Some(path[i].id) != ancestor
      {
        if i < |init| { assert path[..i] == init[..i]; } else { assert path[..i] == init; }
      }
    }
  }

  lemma {:induction false} RootedPathsAreChains(index: Index, head: Option<Id>)
    requires ValidIndex(index)
    requires PathAfter(index, None, head).Path?
    ensures Chain(index, None, PathAfter(index, None, head).entries)
    ensures DistinctIds(PathAfter(index, None, head).entries)
    ensures EndOf(None, PathAfter(index, None, head).entries) == head
  {
    WalkYieldsChain(index, None, head, {});
  }

  lemma {:induction false} WalkFollowsRootedChain(index: Index, path: seq<Entry>)
    requires Chain(index, None, path)
    ensures PathAfter(index, None, EndOf(None, path)) == Path(path)
    ensures DistinctIds(path)
  {
    forall i, j | 0 <= i < j < |path| ensures path[i].id != path[j].id {
      RootedChainsAreDistinct(index, path, i, j);
    }
    WalkFollowsChain(index, None, path, {});
  }

  /** A walk that fails on its way to an ancestor fails the same way on its way to the root. */
  lemma {:induction false} FailureIsIndependentOfGoal(index: Index, ancestor: Option<Id>, current: Option<Id>, seen: set<Id>)
    requires Walk(index, ancestor, current, seen).Failed?
    ensures Walk(index, None, current, seen) == Walk(index, ancestor, current, seen)
    decreases |index.Keys - seen|
  {
    if current.Some? && current.value !in seen && current.value in index {
      var grown := seen + {current.value};
      assert index.Keys - grown < index.Keys - seen by { assert current.value in index.Keys - seen; }
      SmallerSet(index.Keys - grown, index.Keys - seen);
      FailureIsIndependentOfGoal(index, ancestor, index[current.value].parentId, grown);
    }
  }

  lemma {:induction false} ChainConcat(index: Index, a: seq<Entry>, b: seq<Entry>)
    ensures Chain(index, None, a + b) <==> Chain(index, None, a) && Chain(index, EndOf(None, a), b)
  {
    forall i | 0 <= i < |b| ensures EndOf(None, (a + b)[..|a| + i]) == EndOf(EndOf(None, a), b[..i]) {
      assert (a + b)[..|a| + i] == a + b[..i];
    }
    assert forall i :: 0 <= i < |a| ==> (a + b)[..i] == a[..i] && (a + b)[i] == a[i];
    assert forall i :: 0 <= i < |b| ==> (a + b)[|a| + i] == b[i];
    if Chain(index, None, a) && Chain(index, EndOf(None, a), b) {
      forall k | 0 <= k < |a + b|
        ensures
          var entry := (a + b)[k];
          entry.id in index && index[entry.id] == entry && entry.parentId == EndOf(None, (a + b)[..k])
      {
        if k < |a| {
          assert (a + b)[k] == a[k];
        } else {
          var i := k - |a|;
          assert (a + b)[k] == b[i] && k == |a| + i;
        }
      }
    }
    if Chain(index, None, a + b) {
      forall i | 0 <= i < |b|
        ensures b[i].id in index && index[b[i].id] == b[i] && b[i].parentId == EndOf(EndOf(None, a), b[..i])
      {
        assert (a + b)[|a| + i] == b[i];
      }
      forall i | 0 <= i < |a|
        ensures a[i].id in index && index[a[i].id] == a[i] && a[i].parentId == EndOf(None, a[..i])
      {
        assert (a + b)[i] == a[i];
      }
    }
  }

  /** Splitting at an ancestor: the root path of a head is the ancestor's root path followed by
      the walk from the ancestor; and a failing walk is a failing root path. */
  lemma {:induction false} PathsSplitAtAncestor(index: Index, ancestor: Option<Id>, head: Option<Id>)
    requires ValidIndex(index)
    requires PathAfter(index, None, ancestor).Path?
    requires !PathAfter(index, ancestor, head).Unreachable?
    ensures PathAfter(index, None, head) ==
            match PathAfter(index, ancestor, head)
            case Path(suffix) => Path(PathAfter(index, None, ancestor).entries + suffix)
            case other => other
  {
    match PathAfter(index, ancestor, head)
    case Path(suffix) =>
      var prefix := PathAfter(index, None, ancestor).entries;
      RootedPathsAreChains(index, ancestor);
      WalkYieldsChain(index, ancestor, head, {});
      ChainConcat(index, prefix, suffix);
      WalkFollowsRootedChain(index, prefix + suffix);
      assert EndOf(None, prefix + suffix) == head;
    case Failed(_) =>
      FailureIsIndependentOfGoal(index, ancestor, head, {});
    case Unreachable =>
  }

  /** `later` extends `earlier` without changing an entry. */
  predicate Extends(earlier: Index, later: Index) {
    forall id :: id in earlier ==> id in later && later[id] == earlier[id]
  }

  /** A path, once complete, never changes when entries are added. */
  lemma {:induction false} RootedPathsAreStable(earlier: Index, later: Index, head: Option<Id>)
    requires ValidIndex(earlier) && Extends(earlier, later)
    requires PathAfter(earlier, None, head).Path?
    ensures PathAfter(later, None, head) == PathAfter(earlier, None, head)
  {
    RootedPathsAreChains(earlier, head);
    WalkFollowsRootedChain(later, PathAfter(earlier, None, head).entries);
  }

  /** The ancestors of an entry: the entries of its root path. */
  lemma {:induction false} PathOfExtension(index: Index, head: Option<Id>, path: seq<Entry>, entry: Entry)
    requires ValidIndex(index)
    requires PathAfter(index, None, head) == Path(path)
    requires entry.id !in index && entry.parentId == head
    ensures PathAfter(index[entry.id := entry], None, Some(entry.id)) == Path(path + [entry])
  {
    var grown := index[entry.id := entry];
    RootedPathsAreChains(index, head);
    assert Chain(grown, None, path);
    assert Chain(grown, EndOf(None, path), [entry]) by {
      assert [entry][..0] == [];
    }
    ChainConcat(grown, path, [entry]);
    WalkFollowsRootedChain(grown, path + [entry]);
  }
}
