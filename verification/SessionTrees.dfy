/** The session tree and the branch switch, changed in place. */
module SessionTrees {
  import opened Sequences
  import opened Entries
  import opened TreePaths

  datatype Added = Added(id: Id) | NotAdded(reason: Refusal)

  function NodeIds(nodes: seq<Node>): (ids: seq<Id>)
    ensures |ids| == |nodes|
    ensures forall i :: 0 <= i < |nodes| ==> ids[i] == nodes[i].id
  {
    seq(|nodes|, i requires 0 <= i < |nodes| => nodes[i].id)
  }

  class SessionTree {
    var nodes: Nodes
    var rootId: Option<Id>
    var currentLeafId: Option<Id>
    var revision: nat
    ghost var paths: Paths

    ghost function State(): Tree
      reads this
    {
      Tree(nodes, rootId, currentLeafId, revision, paths)
    }

    ghost predicate Valid()
      reads this
    {
      Sound(State())
    }

    constructor ()
      ensures Valid() && State() == EMPTY_TREE
    {
      nodes, rootId, currentLeafId, revision, paths := map[], None, None, 0, map[];
    }

    /** Adds below the leaf, or below an explicit parent; the new node becomes the leaf. */
    method AddMessage(note: Note, parent: Option<Option<Id>>, generated: Id) returns (result: Added)
      requires Valid()
      modifies this
      ensures Valid() && State() == Add(old(State()), note, parent, generated)
      ensures result.NotAdded? ==> WhyNotAdded(old(State()), NameOf(note, generated), Parent(old(State()), parent)) == Some(result.reason)
      ensures result.Added? ==> result.id == NameOf(note, generated) && result.id !in old(nodes) && currentLeafId == Some(result.id)
      // It is added exactly if its name is new and the parent it names, if any, exists.
      ensures result.Added? <==>
              NameOf(note, generated) !in old(nodes) && (parent.Some? && parent.value.Some? ==> parent.value.value in old(nodes))
      // It continues the branch of the leaf, or of that parent; every other history stays.
      ensures result.Added? && result.id != "" ==>
                History(nodes, paths, Some(result.id)) ==
                old(History(nodes, paths, if parent.Some? then parent.value else currentLeafId)) + [note.(id := result.id)]
      ensures result.Added? && result.id != "" ==>
                forall n :: n in old(nodes) ==> History(nodes, paths, Some(n)) == old(History(nodes, paths, Some(n)))
    {
      AddKeepsSound(State(), note, parent, generated);
      if NameOf(note, generated) !in nodes && NameOf(note, generated) != "" &&
         (parent.Some? && parent.value.Some? ==> parent.value.value in nodes)
      {
        AddedContinuesHistory(State(), note, parent, generated);
      }
      var id := if note.id != "" then note.id else generated;
      var above := if parent.Some? then parent.value else currentLeafId;
      if id in nodes { return NotAdded(NodeExists(id)); }
      if above.Some? && above.value !in nodes { return NotAdded(ParentMissing(above.value)); }
      Plant(note, id, above);
      return Added(id);
    }

    method Plant(note: Note, id: Id, above: Option<Id>)
      requires id !in nodes && (above.Some? ==> above.value in nodes)
      modifies this
      ensures State() == Planted(old(State()), note, id, above)
    {
      nodes := nodes[id := Node(id, above, note.(id := id), [])];
      if Truthy(above) {
        var node := nodes[above.value];
        nodes := nodes[above.value := node.(childrenIds := node.childrenIds + [id])];
      }
      if !Truthy(rootId) { rootId := Some(id); }
      paths := paths[id := PathAbove(paths, if Truthy(above) then above else None) + [id]];
      currentLeafId := Some(id);
      revision := revision + 1;
    }

    method SelectLeaf(id: Id) returns (failure: Option<Refusal>)
      requires Valid()
      modifies this`currentLeafId, this`revision
      ensures Valid() && State() == Select(old(State()), id)
      ensures failure == if id in nodes then None else Some(NodeMissing(id))
      ensures failure.None? ==> currentLeafId == Some(id)
    {
      if id !in nodes { return Some(NodeMissing(id)); }
      if currentLeafId != Some(id) {
        currentLeafId := Some(id);
        revision := revision + 1;
      }
      return None;
    }

    method Clear()
      modifies this
      ensures Valid() && State() == Cleared(old(State()))
    {
      nodes, rootId, currentLeafId, paths := map[], None, None, map[];
      revision := revision + 1;
    }

    function Lookup(id: Id): (node: Option<Node>)
      reads this
      ensures node.Some? <==> id in nodes
    {
      if id in nodes then Some(nodes[id]) else None
    }

    function Up(node: Node): Option<Node>
      reads this
    {
      if Truthy(node.parentId) then Lookup(node.parentId.value) else None
    }

    /** A walk towards the root stands at `current` after passing `passed`, nearest the start last. */
    ghost predicate Walking(start: Id, current: Option<Node>, passed: seq<Id>)
      reads this
    {
      && Laid(nodes, paths) && start in nodes
      && match current
         case Some(node) => node.id in nodes && nodes[node.id] == node && paths[start] == paths[node.id] + passed
         case None => paths[start] == passed
    }

    ghost function Left(current: Option<Node>): nat
      reads this
    {
      if current.Some? && current.value.id in paths then |paths[current.value.id]| else 0
    }

    /** Climbing one step passes one node. */
    lemma {:induction false} Climb(start: Id, node: Node, passed: seq<Id>)
      requires Walking(start, Some(node), passed)
      ensures Walking(start, Up(node), [node.id] + passed)
      ensures Left(Up(node)) < Left(Some(node))
    {
      assert PathStep(nodes, paths, node.id);
      if Truthy(node.parentId) {
        ConcatAssociates(paths[node.parentId.value], [node.id], passed);
      }
    }

    method GetPathToRoot(id: Id) returns (path: seq<Id>)
      requires Valid()
      ensures path == if id in nodes then Reversed(paths[id]) else []
    {
      path := [];
      var current := Lookup(id);
      if current.Some? { ConcatNothing(paths[id]); }
      while current.Some?
        invariant id in nodes ==> Walking(id, current, Reversed(path))
        invariant id !in nodes ==> current.None? && path == []
        decreases Left(current)
      {
        Climb(id, current.value, Reversed(path));
        ReversedSnoc(path, current.value.id);
        path := path + [current.value.id];
        current := Up(current.value);
      }
      ReversedTwice(path);
    }

    method GetHistory(leaf: Option<Id>) returns (messages: seq<Note>)
      requires Valid()
      ensures messages == History(nodes, paths, if leaf.Some? then leaf else currentLeafId)
    {
      var target := if leaf.Some? then leaf else currentLeafId;
      if !Truthy(target) || target.value !in nodes { return []; }
      var collected: seq<Note> := [];
      ghost var passed: seq<Id> := [];
      var current := Lookup(target.value);
      ConcatNothing(paths[target.value]);
      PathsStayInside(nodes, paths, target.value);
      while current.Some?
        invariant Walking(target.value, current, passed)
        invariant forall i :: 0 <= i < |passed| ==> passed[i] in nodes
        invariant Reversed(collected) == MessagesOn(nodes, passed)
        decreases Left(current)
      {
        Climb(target.value, current.value, passed);
        ReversedSnoc(collected, current.value.message);
        MessagesConcat(nodes, [current.value.id], passed);
        passed := [current.value.id] + passed;
        collected := collected + [current.value.message];
        current := Up(current.value);
      }
      return Reversed(collected);
    }

    /** Only what is new when `previous` is on the branch, else everything. */
    method GetHistoryDelta(previous: Option<Id>, leaf: Option<Id>) returns (delta: Delta)
      requires Valid()
      ensures TreePaths.Continues(nodes, paths, previous, if leaf.Some? then leaf else currentLeafId, delta)
    {
      var target := if leaf.Some? then leaf else currentLeafId;
      if !Truthy(target) || target.value !in nodes { return Delta(None, [], previous.Some?); }
      var collected: seq<Note> := [];
      ghost var passed: seq<Id> := [];
      var current := Lookup(target.value);
      ConcatNothing(paths[target.value]);
      PathsStayInside(nodes, paths, target.value);
      while current.Some?
        invariant Walking(target.value, current, passed)
        invariant forall i :: 0 <= i < |passed| ==> passed[i] in nodes && Some(passed[i]) != previous
        invariant Reversed(collected) == MessagesOn(nodes, passed)
        decreases Left(current)
      {
        if Some(current.value.id) == previous {
          FoundPrevious(target.value, current.value, passed);
          return Delta(target, Reversed(collected), false);
        }
        Climb(target.value, current.value, passed);
        ReversedSnoc(collected, current.value.message);
        MessagesConcat(nodes, [current.value.id], passed);
        passed := [current.value.id] + passed;
        collected := collected + [current.value.message];
        current := Up(current.value);
      }
      return Delta(target, Reversed(collected), previous.Some?);
    }

    lemma {:induction false} FoundPrevious(head: Id, node: Node, passed: seq<Id>)
      requires Walking(head, Some(node), passed) && head != ""
      ensures node.id in paths[head]
      ensures forall i :: 0 <= i < |passed| ==> passed[i] in nodes
      ensures node.id != "" ==>
                History(nodes, paths, Some(node.id)) + MessagesOn(nodes, passed) == History(nodes, paths, Some(head))
    {
      PathsStayInside(nodes, paths, head);
      PathEnds(nodes, paths, node.id);
      var k := |paths[node.id]| - 1;
      assert paths[head][k] == node.id;
      assert paths[head][k + 1..] == passed;
      if node.id != "" { HistorySplits(nodes, paths, head, k); }
    }

    method FindCommonAncestor(a: Id, b: Id) returns (answer: Option<Id>)
      requires Valid()
      ensures LowestCommon(nodes, paths, a, b, answer)
    {
      if a !in nodes || b !in nodes { return None; }
      if a == b {
        PathEnds(nodes, paths, a);
        return Some(a);
      }
      var path := GetPathToRoot(a);
      ReversedMembers(paths[a]);
      ghost var passed: seq<Id> := [];
      var current := Lookup(b);
      ConcatNothing(paths[b]);
      while current.Some?
        invariant Walking(b, current, passed)
        invariant forall i :: 0 <= i < |passed| ==> passed[i] !in path
        decreases Left(current)
      {
        if current.value.id in path {
          PathEnds(nodes, paths, current.value.id);
          return Some(current.value.id);
        }
        Climb(b, current.value, passed);
        passed := [current.value.id] + passed;
        current := Up(current.value);
      }
      return None;
    }

    /** The nodes of the abandoned branch behind the fork, oldest first: with the fork's path they
        make up the branch, and none of them is on the target's path. */
    method CollectDivergingNodes(source: Id, target: Id)
      returns (failure: Option<Refusal>, diverged: seq<Node>, fork: Option<Id>)
      requires Valid()
      ensures failure == if source !in nodes then Some(NodeMissing(source))
                         else if target !in nodes then Some(NodeMissing(target)) else None
      ensures failure.None? ==>
                && LowestCommon(nodes, paths, source, target, fork)
                && paths[source] == PathAbove(paths, fork) + NodeIds(diverged)
                && (forall i :: 0 <= i < |diverged| ==>
                      diverged[i].id in nodes && nodes[diverged[i].id] == diverged[i] && diverged[i].id !in paths[target])
    {
      diverged, fork := [], None;
      if source !in nodes { return Some(NodeMissing(source)), [], None; }
      if target !in nodes { return Some(NodeMissing(target)), [], None; }
      failure := None;
      fork := FindCommonAncestor(source, target);
      var current := Lookup(source);
      ConcatNothing(paths[source]);
      while current.Some? && Some(current.value.id) != fork
        invariant Walking(source, current, NodeIds(diverged))
        invariant forall i :: 0 <= i < |diverged| ==> diverged[i].id in nodes && nodes[diverged[i].id] == diverged[i]
        invariant forall i :: 0 <= i < |diverged| ==> Some(diverged[i].id) != fork
        decreases Left(current)
      {
        Climb(source, current.value, NodeIds(diverged));
        assert NodeIds([current.value] + diverged) == [current.value.id] + NodeIds(diverged);
        diverged := [current.value] + diverged;
        current := Up(current.value);
      }
      DivergedBehind(source, target, fork, current, diverged);
    }

    lemma {:induction false} DivergedBehind(source: Id, target: Id, fork: Option<Id>, current: Option<Node>, diverged: seq<Node>)
      requires Walking(source, current, NodeIds(diverged)) && target in nodes
      requires LowestCommon(nodes, paths, source, target, fork)
      requires current.Some? ==> Some(current.value.id) == fork
      requires forall i :: 0 <= i < |diverged| ==> Some(diverged[i].id) != fork
      ensures paths[source] == PathAbove(paths, fork) + NodeIds(diverged)
      ensures forall i :: 0 <= i < |diverged| ==> diverged[i].id !in paths[target]
    {
      DivergedSplit(nodes, paths, source, target, fork);
      var above, ids := PathAbove(paths, fork), NodeIds(diverged);
      if current.None? {
        // Every node was passed, so the fork would have been met.
        if fork.Some? { NotListed(diverged, fork.value); }
        assert fork.None?;
        ConcatNothing(ids);
      }
      assert paths[source] == above + ids;
      forall i | 0 <= i < |diverged| ensures diverged[i].id !in paths[target] {
        assert paths[source][|above|..][i] == ids[i];
      }
    }

    method GetCleanHistoryPath(leaf: Option<Id>) returns (cleaned: seq<Note>)
      requires Valid()
      ensures cleaned == Cleaned(History(nodes, paths, if leaf.Some? then leaf else currentLeafId)).kept
    {
      var history := GetHistory(leaf);
      cleaned := [];
      var replacement: map<Id, Id>, pending: seq<Id> := map[], [];
      for i := 0 to |history|
        invariant Cleaned(history[..i]) == Cleaning(cleaned, replacement, pending)
      {
        var note := history[i];
        TakeOneMore(history, i);
        if note.isLabel {
          if note.id != "" { pending := pending + [note.id]; }
        } else {
          if note.id != "" {
            replacement := Replace(replacement, pending, note.id);
            pending := [];
          }
          cleaned := cleaned + [if note.firstKept == "" then note
                                else note.(firstKept := Resolve(replacement, note.firstKept))];
        }
      }
      TakeAll(history);
    }

    method Replace(before: map<Id, Id>, labels: seq<Id>, id: Id) returns (replacement: map<Id, Id>)
      ensures replacement == Assigned(before, labels, id)
    {
      replacement := before;
      for i := 0 to |labels|
        invariant replacement == Assigned(before, labels[..i], id)
      {
        TakeOneMore(labels, i);
        replacement := replacement[labels[i] := id];
      }
      TakeAll(labels);
    }
  }

  lemma {:induction false} NotListed(nodes: seq<Node>, id: Id)
    requires forall i :: 0 <= i < |nodes| ==> nodes[i].id != id
    ensures id !in NodeIds(nodes)
  {
  }

  lemma {:induction false} ReversedMembers(path: seq<Id>)
    ensures forall id :: id in Reversed(path) <==> id in path
  {
    if path != [] {
      ReversedMembers(path[..|path| - 1]);
      InitAndLast(path);
    }
  }

  /** What the first half of a branch switch leaves for the second. */
  datatype Started = Threw(reason: Refusal) | Done | Summarizing(revision: nat, diverged: seq<Node>)

  /** The nodes of the source's path behind its lowest common ancestor with the target. */
  ghost predicate Abandoned(nodes: Nodes, paths: Paths, source: Id, target: Id, diverged: seq<Node>)
    requires nodes.Keys == paths.Keys && source in nodes
  {
    exists fork :: LowestCommon(nodes, paths, source, target, fork) && paths[source] == PathAbove(paths, fork) + NodeIds(diverged)
  }

  /** The first half: up to the call of the summarizer, which may take any time. */
  method BeginSwitch(tree: SessionTree, target: Id, from: Id, aborted: bool) returns (started: Started)
    requires tree.Valid()
    modifies tree`currentLeafId, tree`revision
    ensures tree.Valid()
    ensures
      var source := if from != "" then Some(from) else old(tree.currentLeafId);
      && (aborted ==> started == Threw(Aborted))
      && (!aborted && target !in tree.nodes ==> started == Threw(NodeMissing(target)))
      && (!aborted && target in tree.nodes && (!Truthy(source) || source.value == target) ==>
            started == Done && tree.State() == Select(old(tree.State()), target))
      && (!aborted && target in tree.nodes && Truthy(source) && source.value != target && source.value !in tree.nodes ==>
            started == Threw(NodeMissing(source.value)))
      && (!started.Done? ==> tree.State() == old(tree.State()))
      && (started.Summarizing? ==>
            && started.revision == tree.revision && Truthy(source) && source.value in tree.nodes && target in tree.nodes
            && Abandoned(tree.nodes, tree.paths, source.value, target, started.diverged))
  {
    if aborted { return Threw(Aborted); }
    var source := if from != "" then Some(from) else tree.currentLeafId;
    if target !in tree.nodes { return Threw(NodeMissing(target)); }
    if !Truthy(source) || source.value == target {
      var _ := tree.SelectLeaf(target);
      return Done;
    }
    var failure, diverged, fork := tree.CollectDivergingNodes(source.value, target);
    if failure.Some? { return Threw(failure.value); }
    assert Abandoned(tree.nodes, tree.paths, source.value, target, diverged);
    return Summarizing(tree.revision, diverged);
  }

  /** The second half: refuses when the tree changed while the summary was generated. */
  method EndSwitch(tree: SessionTree, target: Id, seen: nat, aborted: bool, summary: Option<Note>, generated: Id)
    returns (result: Added)
    requires tree.Valid()
    modifies tree
    ensures tree.Valid()
    ensures
      var end := FinishSwitch(old(tree.State()), target, seen, aborted, summary, generated);
      && tree.State() == end.tree
      && (result.NotAdded? <==> end.refusal.Some?) && (result.NotAdded? ==> result.reason == end.refusal.value)
      && (result.Added? && summary.Some? ==> end.summary == Some(result.id))
  {
    if aborted { return NotAdded(Aborted); }
    if tree.revision != seen { return NotAdded(TreeChanged); }
    var failure := tree.SelectLeaf(target);
    if failure.Some? { return NotAdded(failure.value); }
    if summary.None? { return Added(target); }
    result := tree.AddMessage(summary.value, Some(Some(target)), generated);
  }
}
