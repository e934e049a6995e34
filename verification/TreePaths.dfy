/** The branching tree of a session, as a value: nodes with parent pointers, and beside them the
    root-to-node path of every node. */
module TreePaths {
  import opened Sequences
  import opened Entries

  /** A message, as far as the tree looks at it. An empty `firstKept` means there is none. */
  datatype Note = Note(id: Id, isLabel: bool, firstKept: Id, text: string)

  datatype Node = Node(id: Id, parentId: Option<Id>, message: Note, childrenIds: seq<Id>)

  type Nodes = map<Id, Node>
  type Paths = map<Id, seq<Id>>

  datatype Refusal = NodeExists(id: Id) | ParentMissing(id: Id) | NodeMissing(id: Id) | TreeChanged | Aborted

  datatype Tree = Tree(nodes: Nodes, root: Option<Id>, leaf: Option<Id>, revision: nat, paths: Paths)

  const EMPTY_TREE := Tree(map[], None, None, 0, map[])

  // ---------- paths ----------

  predicate PathStep(nodes: Nodes, paths: Paths, id: Id)
    requires id in nodes && id in paths
  {
    var node := nodes[id];
    if Truthy(node.parentId) then node.parentId.value in paths && paths[id] == paths[node.parentId.value] + [id]
    else paths[id] == [id]
  }

  /** Every node has a path: its parent's path and itself, or itself alone. */
  ghost predicate Laid(nodes: Nodes, paths: Paths) {
    && nodes.Keys == paths.Keys
    && (forall id :: id in nodes ==> nodes[id].id == id && PathStep(nodes, paths, id))
  }

  /** Parent pointers admit only one such assignment. */
  lemma {:induction false} PathsAreUnique(nodes: Nodes, paths: Paths, others: Paths, id: Id)
    requires Laid(nodes, paths) && Laid(nodes, others) && id in nodes
    ensures paths[id] == others[id]
    decreases |paths[id]|
  {
    if Truthy(nodes[id].parentId) { PathsAreUnique(nodes, paths, others, nodes[id].parentId.value); }
  }

  lemma {:induction false} PathEnds(nodes: Nodes, paths: Paths, id: Id)
    requires Laid(nodes, paths) && id in nodes
    ensures paths[id] != [] && paths[id][|paths[id]| - 1] == id
  {
  }

  /** Every prefix of a path is the path of its last node. */
  lemma {:induction false} PrefixesArePaths(nodes: Nodes, paths: Paths, id: Id, k: nat)
    requires Laid(nodes, paths) && id in nodes && k < |paths[id]|
    ensures paths[id][k] in nodes && paths[paths[id][k]] == paths[id][..k + 1]
    decreases |paths[id]|
  {
    PathEnds(nodes, paths, id);
    if k == |paths[id]| - 1 {
      TakeAll(paths[id]);
    } else {
      var parent := nodes[id].parentId.value;
      PrefixesArePaths(nodes, paths, parent, k);
      assert paths[id][..k + 1] == paths[parent][..k + 1];
    }
  }

  /** No node is its own ancestor. */
  lemma {:induction false} PathsAreDistinct(nodes: Nodes, paths: Paths, id: Id)
    requires Laid(nodes, paths) && id in nodes
    ensures Distinct(paths[id])
  {
    forall i, j | 0 <= i < j < |paths[id]| ensures paths[id][i] != paths[id][j] {
      PrefixesArePaths(nodes, paths, id, i);
      PrefixesArePaths(nodes, paths, id, j);
    }
  }

  /** Ancestors of ancestors are ancestors, and an ancestor's path is a prefix. */
  lemma {:induction false} AncestorsPath(nodes: Nodes, paths: Paths, ancestor: Id, id: Id)
    requires Laid(nodes, paths) && id in nodes && ancestor in paths[id]
    ensures ancestor in nodes && paths[ancestor] <= paths[id]
  {
    var k :| 0 <= k < |paths[id]| && paths[id][k] == ancestor;
    PrefixesArePaths(nodes, paths, id, k);
  }

  // ---------- lowest common ancestors ----------

  /** The answer lies above both nodes, and every other common ancestor lies above the answer. */
  ghost predicate LowestCommon(nodes: Nodes, paths: Paths, a: Id, b: Id, answer: Option<Id>)
    requires nodes.Keys == paths.Keys
  {
    if a !in nodes || b !in nodes then answer == None
    else match answer
      case Some(c) => c in nodes && c in paths[a] && c in paths[b] &&
                      forall d :: d in paths[a] && d in paths[b] ==> d in paths[c]
      case None => forall d :: d in paths[a] ==> d !in paths[b]
  }

  lemma {:induction false} LowestIsUnique(nodes: Nodes, paths: Paths, a: Id, b: Id, one: Option<Id>, other: Option<Id>)
    requires Laid(nodes, paths)
    requires LowestCommon(nodes, paths, a, b, one) && LowestCommon(nodes, paths, a, b, other)
    ensures one == other
  {
    if one.Some? && other.Some? {
      AncestorsPath(nodes, paths, one.value, other.value);
      AncestorsPath(nodes, paths, other.value, one.value);
      PathEnds(nodes, paths, one.value);
      PathEnds(nodes, paths, other.value);
    }
  }

  lemma {:induction false} CommonRoot(nodes: Nodes, paths: Paths, a: Id, b: Id, d: Id)
    requires Laid(nodes, paths) && a in nodes && b in nodes && d in paths[a] && d in paths[b]
    ensures paths[a][0] == paths[b][0]
  {
    AncestorsPath(nodes, paths, d, a);
    AncestorsPath(nodes, paths, d, b);
    PathEnds(nodes, paths, d);
  }

  /** Two nodes have no common ancestor exactly when they hang below different roots. */
  lemma {:induction false} NoCommonMeansOtherTree(nodes: Nodes, paths: Paths, a: Id, b: Id)
    requires Laid(nodes, paths) && a in nodes && b in nodes
    ensures paths[a] != [] && paths[b] != []
    ensures LowestCommon(nodes, paths, a, b, None) <==> paths[a][0] != paths[b][0]
  {
    PathEnds(nodes, paths, a);
    PathEnds(nodes, paths, b);
    if paths[a][0] != paths[b][0] {
      forall d | d in paths[a] ensures d !in paths[b] {
        if d in paths[b] { CommonRoot(nodes, paths, a, b, d); }
      }
    } else {
      assert paths[a][0] in paths[a] && paths[a][0] in paths[b];
    }
  }

  /** The path above the fork, if there is one. */
  function PathAbove(paths: Paths, fork: Option<Id>): seq<Id> {
    if fork.Some? && fork.value in paths then paths[fork.value] else []
  }

  /** A node stands equally deep on every path it is on. */
  lemma {:induction false} StandsWithin(nodes: Nodes, paths: Paths, source: Id, k: nat, other: Id)
    requires Laid(nodes, paths) && source in nodes && other in nodes && k < |paths[source]|
    requires paths[source][k] in paths[other]
    ensures k < |paths[other]|
  {
    AncestorsPath(nodes, paths, paths[source][k], other);
    PrefixesArePaths(nodes, paths, source, k);
  }

  /** What diverged is what the path has behind the fork, and none of it is on the other branch. */
  lemma {:induction false} DivergedSplit(nodes: Nodes, paths: Paths, source: Id, target: Id, fork: Option<Id>)
    requires Laid(nodes, paths) && source in nodes && target in nodes
    requires LowestCommon(nodes, paths, source, target, fork)
    ensures PathAbove(paths, fork) <= paths[source]
    ensures forall d :: d in paths[source][|PathAbove(paths, fork)|..] ==> d !in paths[target]
  {
    var above := PathAbove(paths, fork);
    if fork.Some? { AncestorsPath(nodes, paths, fork.value, source); }
    forall k | |above| <= k < |paths[source]| ensures paths[source][k] !in paths[target] {
      var d := paths[source][k];
      if d in paths[target] && fork.Some? { StandsWithin(nodes, paths, source, k, fork.value); }
    }
  }

  // ---------- histories ----------

  function MessagesOn(nodes: Nodes, path: seq<Id>): (messages: seq<Note>)
    requires forall i :: 0 <= i < |path| ==> path[i] in nodes
    ensures |messages| == |path|
    ensures forall i :: 0 <= i < |path| ==> messages[i] == nodes[path[i]].message
  {
    seq(|path|, i requires 0 <= i < |path| => nodes[path[i]].message)
  }

  lemma {:induction false} PathsStayInside(nodes: Nodes, paths: Paths, id: Id)
    requires Laid(nodes, paths) && id in nodes
    ensures forall i :: 0 <= i < |paths[id]| ==> paths[id][i] in nodes
  {
    forall i | 0 <= i < |paths[id]| ensures paths[id][i] in nodes { PrefixesArePaths(nodes, paths, id, i); }
  }

  /** Root to node; a head that is absent, empty or unknown has no history. */
  ghost function History(nodes: Nodes, paths: Paths, head: Option<Id>): seq<Note>
    requires Laid(nodes, paths)
  {
    if !Truthy(head) || head.value !in nodes then []
    else
      PathsStayInside(nodes, paths, head.value);
      MessagesOn(nodes, paths[head.value])
  }

  datatype Delta = Delta(headId: Option<Id>, messages: seq<Note>, reset: bool)

  /** What a caller who last saw `previous` may rely on. */
  ghost predicate Continues(nodes: Nodes, paths: Paths, previous: Option<Id>, head: Option<Id>, delta: Delta)
    requires Laid(nodes, paths)
  {
    if !Truthy(head) || head.value !in nodes then delta == Delta(None, [], previous.Some?)
    else if previous.Some? && previous.value in paths[head.value] then
      delta.headId == head && !delta.reset &&
      (previous.value != "" ==>
        History(nodes, paths, previous) + delta.messages == History(nodes, paths, head))
    else delta == Delta(head, History(nodes, paths, head), previous.Some?)
  }

  lemma {:induction false} MessagesConcat(nodes: Nodes, a: seq<Id>, b: seq<Id>)
    requires forall i :: 0 <= i < |a| ==> a[i] in nodes
    requires forall i :: 0 <= i < |b| ==> b[i] in nodes
    ensures MessagesOn(nodes, a + b) == MessagesOn(nodes, a) + MessagesOn(nodes, b)
  {
  }

  lemma {:induction false} HistorySplits(nodes: Nodes, paths: Paths, head: Id, k: nat)
    requires Laid(nodes, paths) && head in nodes && head != "" && k < |paths[head]| && paths[head][k] != ""
    ensures forall i :: 0 <= i < |paths[head]| ==> paths[head][i] in nodes
    ensures History(nodes, paths, Some(paths[head][k])) + MessagesOn(nodes, paths[head][k + 1..]) ==
            History(nodes, paths, Some(head))
  {
    PathsStayInside(nodes, paths, head);
    PrefixesArePaths(nodes, paths, head, k);
    MessagesConcat(nodes, paths[head][..k + 1], paths[head][k + 1..]);
    SplitAt(paths[head], k + 1);
  }

  // ---------- changing the tree ----------

  function Parent(tree: Tree, parent: Option<Option<Id>>): Option<Id> {
    if parent.Some? then parent.value else tree.leaf
  }

  function WhyNotAdded(tree: Tree, id: Id, parent: Option<Id>): Option<Refusal> {
    if id in tree.nodes then Some(NodeExists(id))
    else if parent.Some? && parent.value !in tree.nodes then Some(ParentMissing(parent.value))
    else None
  }

  function NameOf(note: Note, generated: Id): Id {
    if note.id != "" then note.id else generated
  }

  function WithChild(nodes: Nodes, parent: Option<Id>, id: Id): Nodes {
    if Truthy(parent) && parent.value in nodes then
      nodes[parent.value := nodes[parent.value].(childrenIds := nodes[parent.value].childrenIds + [id])]
    else nodes
  }

  function Planted(tree: Tree, note: Note, id: Id, parent: Option<Id>): Tree {
    Tree(WithChild(tree.nodes[id := Node(id, parent, note.(id := id), [])], parent, id),
         if Truthy(tree.root) then tree.root else Some(id),
         Some(id), tree.revision + 1,
         tree.paths[id := PathAbove(tree.paths, if Truthy(parent) then parent else None) + [id]])
  }

  function Add(tree: Tree, note: Note, parent: Option<Option<Id>>, generated: Id): Tree {
    var id, above := NameOf(note, generated), Parent(tree, parent);
    if WhyNotAdded(tree, id, above).Some? then tree else Planted(tree, note, id, above)
  }

  function Select(tree: Tree, id: Id): Tree {
    if id !in tree.nodes || tree.leaf == Some(id) then tree
    else tree.(leaf := Some(id), revision := tree.revision + 1)
  }

  function Cleared(tree: Tree): Tree {
    Tree(map[], None, None, tree.revision + 1, map[])
  }

  predicate ChildrenOnce(nodes: Nodes) {
    forall p :: p in nodes ==> Distinct(nodes[p].childrenIds)
  }

  predicate IsChild(nodes: Nodes, c: Id, p: Id) {
    c in nodes && Truthy(nodes[c].parentId) && nodes[c].parentId.value == p
  }

  ghost predicate ChildrenPointBack(nodes: Nodes) {
    forall p, c :: p in nodes ==> (c in nodes[p].childrenIds <==> IsChild(nodes, c, p))
  }

  /** Children lists name exactly the nodes that point back, each once. */
  ghost predicate Linked(nodes: Nodes) {
    ChildrenOnce(nodes) && ChildrenPointBack(nodes)
  }

  ghost predicate Sound(tree: Tree) {
    && Laid(tree.nodes, tree.paths)
    && Linked(tree.nodes)
    && (tree.leaf.Some? ==> tree.leaf.value in tree.nodes)
  }

  lemma {:induction false} PlantedIsLaid(tree: Tree, note: Note, id: Id, parent: Option<Id>)
    requires Laid(tree.nodes, tree.paths) && WhyNotAdded(tree, id, parent).None?
    ensures Laid(Planted(tree, note, id, parent).nodes, Planted(tree, note, id, parent).paths)
  {
    var after := Planted(tree, note, id, parent);
    forall n | n in after.nodes ensures after.nodes[n].id == n && n in after.paths && PathStep(after.nodes, after.paths, n) {
      if n != id { assert PathStep(tree.nodes, tree.paths, n); }
    }
  }

  lemma {:induction false} PlantedChildren(tree: Tree, note: Note, id: Id, parent: Option<Id>, p: Id)
    requires WhyNotAdded(tree, id, parent).None? && p in Planted(tree, note, id, parent).nodes
    ensures Planted(tree, note, id, parent).nodes[p].childrenIds ==
            if p == id then []
            else if Truthy(parent) && parent.value == p then tree.nodes[p].childrenIds + [id]
            else tree.nodes[p].childrenIds
    ensures p != id ==> Planted(tree, note, id, parent).nodes[p].parentId == tree.nodes[p].parentId
    ensures p == id ==> Planted(tree, note, id, parent).nodes[p].parentId == parent
  {
  }

  lemma {:induction false} PlantedOnce(tree: Tree, note: Note, id: Id, parent: Option<Id>)
    requires Linked(tree.nodes) && WhyNotAdded(tree, id, parent).None?
    ensures ChildrenOnce(Planted(tree, note, id, parent).nodes)
  {
    forall p | p in Planted(tree, note, id, parent).nodes
      ensures Distinct(Planted(tree, note, id, parent).nodes[p].childrenIds)
    {
      PlantedChildren(tree, note, id, parent, p);
      assert p in tree.nodes ==> Distinct(tree.nodes[p].childrenIds) && !IsChild(tree.nodes, id, p);
    }
  }

  lemma {:induction false} PlantedPointsBack(tree: Tree, note: Note, id: Id, parent: Option<Id>)
    requires Linked(tree.nodes) && WhyNotAdded(tree, id, parent).None?
    requires forall n :: n in tree.nodes && Truthy(tree.nodes[n].parentId) ==> tree.nodes[n].parentId.value in tree.nodes
    ensures ChildrenPointBack(Planted(tree, note, id, parent).nodes)
  {
    var after := Planted(tree, note, id, parent).nodes;
    forall p, c | p in after ensures c in after[p].childrenIds <==> IsChild(after, c, p) {
      PlantedChildren(tree, note, id, parent, p);
      if c in after { PlantedChildren(tree, note, id, parent, c); }
      assert p in tree.nodes ==> (c in tree.nodes[p].childrenIds <==> IsChild(tree.nodes, c, p));
    }
  }

  /** Adding a node keeps every other node's path, message and parent. */
  lemma {:induction false} AddKeepsSound(tree: Tree, note: Note, parent: Option<Option<Id>>, generated: Id)
    requires Sound(tree)
    ensures Sound(Add(tree, note, parent, generated))
    ensures forall n :: n in tree.nodes ==>
              n in Add(tree, note, parent, generated).nodes &&
              Add(tree, note, parent, generated).paths[n] == tree.paths[n]
  {
    var id, above := NameOf(note, generated), Parent(tree, parent);
    if WhyNotAdded(tree, id, above).None? {
      PlantedIsLaid(tree, note, id, above);
      forall n | n in tree.nodes && Truthy(tree.nodes[n].parentId) ensures tree.nodes[n].parentId.value in tree.nodes {
        assert PathStep(tree.nodes, tree.paths, n);
      }
      PlantedOnce(tree, note, id, above);
      PlantedPointsBack(tree, note, id, above);
    }
  }

  datatype Change = Adding(note: Note, parent: Option<Option<Id>>, generated: Id) | Selecting(id: Id) | Clearing

  /** A change that the tree refuses leaves it as it is. */
  function Apply(tree: Tree, change: Change): Tree {
    match change
    case Adding(note, parent, generated) => Add(tree, note, parent, generated)
    case Selecting(id) => Select(tree, id)
    case Clearing => Cleared(tree)
  }

  function Run(tree: Tree, changes: seq<Change>): Tree
    decreases |changes|
  {
    if changes == [] then tree else Run(Apply(tree, changes[0]), changes[1..])
  }

  lemma {:induction false} RunKeepsSound(tree: Tree, changes: seq<Change>)
    requires Sound(tree)
    ensures Sound(Run(tree, changes))
    decreases |changes|
  {
    if changes != [] {
      if changes[0].Adding? { AddKeepsSound(tree, changes[0].note, changes[0].parent, changes[0].generated); }
      RunKeepsSound(Apply(tree, changes[0]), changes[1..]);
    }
  }

  /** The revision never falls, and a revision met again means that nothing changed in between. */
  lemma {:induction false} RevisionTellsChange(tree: Tree, changes: seq<Change>)
    ensures Run(tree, changes).revision >= tree.revision
    ensures Run(tree, changes).revision == tree.revision ==> Run(tree, changes) == tree
    decreases |changes|
  {
    if changes != [] {
      var next := Apply(tree, changes[0]);
      assert next.revision > tree.revision || next == tree;
      RevisionTellsChange(next, changes[1..]);
    }
  }

  // ---------- the root ----------

  /** The first message after a clear becomes the root, and the root stays until the next clear. */
  lemma {:induction false} RootStays(tree: Tree, note: Note, parent: Option<Option<Id>>, generated: Id, id: Id)
    ensures Truthy(tree.root) ==> Add(tree, note, parent, generated).root == tree.root
    ensures Select(tree, id).root == tree.root && Cleared(tree).root == None
    ensures
      var name, after := NameOf(note, generated), Add(tree, note, parent, generated);
      !Truthy(tree.root) && name !in tree.nodes && name in after.nodes ==> after.root == Some(name)
  {
  }

  // ---------- where a message goes ----------

  /** An existing node keeps its history. */
  lemma {:induction false} PlantedKeepsHistory(tree: Tree, note: Note, id: Id, above: Option<Id>, n: Option<Id>)
    requires Sound(tree) && id !in tree.nodes && (above.Some? ==> above.value in tree.nodes)
    requires Sound(Planted(tree, note, id, above)) && (n.Some? ==> n.value in tree.nodes)
    ensures
      var after := Planted(tree, note, id, above);
      History(after.nodes, after.paths, n) == History(tree.nodes, tree.paths, n)
  {
    if Truthy(n) {
      PathsStayInside(tree.nodes, tree.paths, n.value);
      var path := tree.paths[n.value];
      forall i | 0 <= i < |path| ensures Planted(tree, note, id, above).nodes[path[i]].message == tree.nodes[path[i]].message {
        assert path[i] in tree.nodes;
      }
    }
  }

  /** The new node's history is the history it was put behind, and its message. */
  lemma {:induction false} PlantedAddsHistory(tree: Tree, note: Note, id: Id, above: Option<Id>)
    requires Sound(tree) && id !in tree.nodes && id != "" && (above.Some? ==> above.value in tree.nodes)
    requires Sound(Planted(tree, note, id, above))
    ensures
      var after := Planted(tree, note, id, above);
      History(after.nodes, after.paths, Some(id)) == History(tree.nodes, tree.paths, above) + [note.(id := id)]
  {
    var after := Planted(tree, note, id, above);
    var path := PathAbove(tree.paths, if Truthy(above) then above else None);
    PlantedKeepsHistory(tree, note, id, above, above);
    PathsStayInside(after.nodes, after.paths, id);
    if Truthy(above) {
      PathsStayInside(tree.nodes, tree.paths, above.value);
      MessagesConcat(after.nodes, path, [id]);
    }
  }

  /** A message that is added goes behind the leaf, or behind the parent that is named; all that was
      there keeps its history. */
  lemma {:induction false} AddedContinuesHistory(tree: Tree, note: Note, parent: Option<Option<Id>>, generated: Id)
    requires Sound(tree) && NameOf(note, generated) !in tree.nodes && NameOf(note, generated) != ""
    requires parent.Some? && parent.value.Some? ==> parent.value.value in tree.nodes
    ensures Sound(Add(tree, note, parent, generated))
    ensures
      var after, id := Add(tree, note, parent, generated), NameOf(note, generated);
      && after.leaf == Some(id)
      && (parent.None? ==>
            History(after.nodes, after.paths, Some(id)) == History(tree.nodes, tree.paths, tree.leaf) + [note.(id := id)])
      && (parent.Some? ==>
            History(after.nodes, after.paths, Some(id)) == History(tree.nodes, tree.paths, parent.value) + [note.(id := id)])
      && forall n :: n in tree.nodes ==>
           History(after.nodes, after.paths, Some(n)) == History(tree.nodes, tree.paths, Some(n))
  {
    var id, above := NameOf(note, generated), Parent(tree, parent);
    AddKeepsSound(tree, note, parent, generated);
    PlantedAddsHistory(tree, note, id, above);
    forall n | n in tree.nodes
      ensures
        var after := Add(tree, note, parent, generated);
        History(after.nodes, after.paths, Some(n)) == History(tree.nodes, tree.paths, Some(n))
    {
      PlantedKeepsHistory(tree, note, id, above, Some(n));
    }
  }

  // ---------- switching branches with a summary ----------

  datatype Switched = Switched(tree: Tree, summary: Option<Id>, refusal: Option<Refusal>)

  /** The second half of a switch, after the summary was generated: nothing happens unless the
      tree still has the revision the first half saw. */
  function FinishSwitch(tree: Tree, target: Id, seen: nat, aborted: bool, summary: Option<Note>, generated: Id): Switched {
    if aborted then Switched(tree, None, Some(Aborted))
    else if tree.revision != seen then Switched(tree, None, Some(TreeChanged))
    else if target !in tree.nodes then Switched(tree, None, Some(NodeMissing(target)))
    else
      var moved := Select(tree, target);
      if summary.None? then Switched(moved, None, None)
      else
        var id := NameOf(summary.value, generated);
        match WhyNotAdded(moved, id, Some(target))
        case Some(reason) => Switched(moved, None, Some(reason))
        case None => Switched(Planted(moved, summary.value, id, Some(target)), Some(id), None)
  }

  /** Whatever ran while the summary was generated: on a conflict the switch leaves that as it is;
      otherwise nothing ran, and the tree gains one node under the target, which becomes the leaf,
      while every existing path stays. */
  lemma {:induction false} SwitchIsAtomic(tree: Tree, changes: seq<Change>, target: Id, summary: Note, generated: Id)
    requires Sound(tree) && target in tree.nodes && target != ""
    ensures
      var now, id := Run(tree, changes), NameOf(summary, generated);
      var end := FinishSwitch(now, target, tree.revision, false, Some(summary), generated);
      && (now.revision != tree.revision ==> end == Switched(now, None, Some(TreeChanged)))
      && (now.revision == tree.revision && id !in tree.nodes ==>
            && now == tree && end.refusal == None && end.summary == Some(id)
            && Sound(end.tree) && end.tree.nodes.Keys == tree.nodes.Keys + {id} && end.tree.leaf == Some(id)
            && end.tree.paths == tree.paths[id := tree.paths[target] + [id]])
  {
    var now, id := Run(tree, changes), NameOf(summary, generated);
    RevisionTellsChange(tree, changes);
    if now.revision == tree.revision && id !in tree.nodes {
      var moved := Select(tree, target);
      assert Sound(moved);
      assert Add(moved, summary, Some(Some(target)), generated) == Planted(moved, summary, id, Some(target));
      AddKeepsSound(moved, summary, Some(Some(target)), generated);
    }
  }

  /** A switch of an unchanged tree adds its summary exactly when the summary's name is free. A name
      that is taken is reported only after the leaf has moved. */
  lemma {:induction false} TakenSummaryNameMovesLeaf(tree: Tree, target: Id, summary: Note, generated: Id)
    requires Sound(tree) && target in tree.nodes
    ensures
      var end := FinishSwitch(tree, target, tree.revision, false, Some(summary), generated);
      && (end.refusal == None <==> NameOf(summary, generated) !in tree.nodes)
      && (end.refusal != None ==> end.tree == Select(tree, target) && end.tree.leaf == Some(target))
  {
  }

  const ONE_NOTE := Add(EMPTY_TREE, Note("a", false, "", "first"), None, "")
  const TWO_NOTES := Add(ONE_NOTE, Note("b", false, "", "second"), None, "")

  lemma {:induction false} TwoNotesAreSound()
    ensures Sound(TWO_NOTES) && TWO_NOTES.nodes.Keys == {"a", "b"} && TWO_NOTES.leaf == Some("b")
  {
    AddKeepsSound(EMPTY_TREE, Note("a", false, "", "first"), None, "");
    AddKeepsSound(ONE_NOTE, Note("b", false, "", "second"), None, "");
  }

  /** Two nodes, the second the leaf, and a switch back to the first with a summary that is named
      like the second: the error comes back with the first selected. */
  lemma {:induction false} SummaryNamedLikeLeaf()
    ensures
      var end := FinishSwitch(TWO_NOTES, "a", TWO_NOTES.revision, false, Some(Note("b", false, "", "summary")), "");
      && Sound(TWO_NOTES) && TWO_NOTES.leaf == Some("b")
      && end.refusal == Some(NodeExists("b")) && end.summary == None && end.tree.leaf == Some("a")
  {
    TwoNotesAreSound();
    TakenSummaryNameMovesLeaf(TWO_NOTES, "a", Note("b", false, "", "summary"), "");
  }

  // ---------- histories without labels ----------

  /** The state of the cleaning pass: what is kept, what stands for a label, and the labels that
      nothing stands for yet. */
  datatype Cleaning = Cleaning(kept: seq<Note>, replacement: map<Id, Id>, pending: seq<Id>)

  function Assigned(replacement: map<Id, Id>, labels: seq<Id>, id: Id): map<Id, Id> {
    if labels == [] then replacement
    else Assigned(replacement, labels[..|labels| - 1], id)[labels[|labels| - 1] := id]
  }

  function Resolve(replacement: map<Id, Id>, boundary: Id): Id {
    if boundary in replacement then replacement[boundary] else boundary
  }

  function CleanNext(state: Cleaning, note: Note): Cleaning {
    if note.isLabel then
      if note.id == "" then state else state.(pending := state.pending + [note.id])
    else
      var replacement := if note.id == "" then state.replacement else Assigned(state.replacement, state.pending, note.id);
      Cleaning(state.kept + [if note.firstKept == "" then note
                             else note.(firstKept := Resolve(replacement, note.firstKept))],
               replacement, if note.id == "" then state.pending else [])
  }

  function Cleaned(history: seq<Note>): Cleaning {
    if history == [] then Cleaning([], map[], [])
    else CleanNext(Cleaned(history[..|history| - 1]), history[|history| - 1])
  }

  function Ids(history: seq<Note>): set<Id> {
    set i | 0 <= i < |history| :: history[i].id
  }

  lemma {:induction false} IdsSnoc(history: seq<Note>, note: Note)
    ensures Ids(history + [note]) == Ids(history) + {note.id}
  {
    var longer := history + [note];
    assert longer[|history|] == note;
    forall id | id in Ids(longer) ensures id in Ids(history) + {note.id} {
      var i :| 0 <= i < |longer| && longer[i].id == id;
      if i < |history| { assert history[i].id == id; }
    }
    forall id | id in Ids(history) ensures id in Ids(longer) {
      var i :| 0 <= i < |history| && history[i].id == id;
      assert longer[i].id == id;
    }
  }

  lemma {:induction false} AssignedKeys(replacement: map<Id, Id>, labels: seq<Id>, id: Id)
    ensures forall marker :: marker in Assigned(replacement, labels, id) <==> marker in replacement || marker in labels
    ensures forall marker :: marker in Assigned(replacement, labels, id) ==>
              (Assigned(replacement, labels, id)[marker] == id ||
               (marker in replacement && Assigned(replacement, labels, id)[marker] == replacement[marker]))
  {
    if labels != [] {
      AssignedKeys(replacement, labels[..|labels| - 1], id);
      InitAndLast(labels);
    }
  }

  /** Everything seen so far is kept, stood for by something kept, or a label still pending. */
  predicate Accounted(history: seq<Note>, state: Cleaning) {
    && (forall id :: id in Ids(history) && id != "" ==> id in Ids(state.kept) || id in state.replacement || id in state.pending)
    && (forall marker :: marker in state.replacement ==> state.replacement[marker] in Ids(state.kept))
  }

  lemma {:induction false} CleanedIsAccounted(history: seq<Note>)
    ensures Accounted(history, Cleaned(history))
  {
    if history != [] {
      var init, last := history[..|history| - 1], history[|history| - 1];
      CleanedIsAccounted(init);
      var before, after := Cleaned(init), Cleaned(history);
      InitAndLast(history);
      IdsSnoc(init, last);
      if !last.isLabel {
        AssignedKeys(before.replacement, before.pending, last.id);
        IdsSnoc(before.kept, after.kept[|before.kept|]);
      }
    }
  }

  /** Later messages change nothing about what was kept before. */
  lemma {:induction false} CleanedGrows(history: seq<Note>, more: seq<Note>)
    ensures Cleaned(history).kept <= Cleaned(history + more).kept
  {
    if more == [] {
      ConcatNothing(history);
    } else {
      ConcatSnoc(history, more);
      CleanedGrows(history, more[..|more| - 1]);
    }
  }

  lemma {:induction false} PrefixIds(kept: seq<Note>, longer: seq<Note>)
    requires kept <= longer
    ensures Ids(kept) <= Ids(longer)
  {
    forall id | id in Ids(kept) ensures id in Ids(longer) {
      var i :| 0 <= i < |kept| && kept[i].id == id;
      assert longer[i].id == id;
    }
  }

  /** A message that is no label is kept, with a boundary that is kept too. */
  lemma {:induction false} BoundaryResolves(history: seq<Note>, before: Cleaning, note: Note)
    requires Accounted(history, before) && (note.firstKept in Ids(history) || note.firstKept == note.id)
    requires note.id != "" && !note.isLabel && note.firstKept != ""
    ensures
      var kept := CleanNext(before, note).kept;
      && |kept| == |before.kept| + 1
      && kept[|before.kept|].id == note.id && kept[|before.kept|].firstKept in Ids(kept)
  {
    var after := CleanNext(before, note);
    AssignedKeys(before.replacement, before.pending, note.id);
    IdsSnoc(before.kept, after.kept[|before.kept|]);
  }

  lemma {:induction false} LastBoundarySurvives(history: seq<Note>, note: Note)
    requires note.id != "" && !note.isLabel && note.firstKept != "" && note.firstKept in Ids(history + [note])
    ensures
      var kept := Cleaned(history + [note]).kept;
      && |kept| == |Cleaned(history).kept| + 1
      && kept[|kept| - 1].id == note.id && kept[|kept| - 1].firstKept in Ids(kept)
  {
    Snoc(history, note);
    IdsSnoc(history, note);
    CleanedIsAccounted(history);
    BoundaryResolves(history, Cleaned(history), note);
  }

  /** Cleaning never leaves a boundary dangling: a message whose boundary names anything on the path
      up to itself, label or not, ends up with a boundary that is still there, whatever follows. */
  lemma {:induction false} BoundariesSurvive(history: seq<Note>, note: Note, later: seq<Note>)
    requires note.id != "" && !note.isLabel && note.firstKept != "" && note.firstKept in Ids(history + [note])
    ensures
      var k, kept := |Cleaned(history).kept|, Cleaned(history + [note] + later).kept;
      k < |kept| && kept[k].id == note.id && kept[k].firstKept in Ids(kept)
  {
    LastBoundarySurvives(history, note);
    CleanedGrows(history + [note], later);
    PrefixIds(Cleaned(history + [note]).kept, Cleaned(history + [note] + later).kept);
  }

  predicate UniqueIds(history: seq<Note>) {
    forall i, j :: 0 <= i < j < |history| ==> history[i].id != history[j].id
  }

  /** The first message behind the i-th that is no label and has an id, if there is one. */
  function NextKept(history: seq<Note>, i: nat): Option<Id>
    requires i < |history|
    decreases |history| - i
  {
    if i + 1 == |history| then None
    else if !history[i + 1].isLabel && history[i + 1].id != "" then Some(history[i + 1].id)
    else NextKept(history, i + 1)
  }

  lemma {:induction false} NextKeptLater(history: seq<Note>, note: Note, i: nat)
    requires i < |history|
    ensures NextKept(history + [note], i) ==
            if NextKept(history, i).Some? then NextKept(history, i)
            else if !note.isLabel && note.id != "" then Some(note.id) else None
    decreases |history| - i
  {
    var longer := history + [note];
    if i + 1 < |history| {
      assert longer[i + 1] == history[i + 1];
      NextKeptLater(history, note, i + 1);
    } else {
      assert longer[i + 1] == note;
      if note.isLabel || note.id == "" { assert NextKept(longer, i + 1) == None; }
    }
  }

  /** What the pass remembers of the i-th message: nothing of one that stays; of a label, that it waits,
      or the next message that is kept. */
  predicate Remembered(history: seq<Note>, state: Cleaning, i: nat)
    requires i < |history|
  {
    var id := history[i].id;
    if id == "" || !history[i].isLabel then id !in state.replacement && id !in state.pending
    else match NextKept(history, i)
      case None => id in state.pending && id !in state.replacement
      case Some(next) => id in state.replacement && state.replacement[id] == next && id !in state.pending
  }

  lemma {:induction false} AssignedValues(replacement: map<Id, Id>, labels: seq<Id>, id: Id, marker: Id)
    ensures marker in labels ==> marker in Assigned(replacement, labels, id) && Assigned(replacement, labels, id)[marker] == id
    ensures marker !in labels ==>
              (marker in Assigned(replacement, labels, id) <==> marker in replacement) &&
              (marker in replacement ==> Assigned(replacement, labels, id)[marker] == replacement[marker])
  {
    if labels != [] {
      InitAndLast(labels);
      AssignedValues(replacement, labels[..|labels| - 1], id, marker);
    }
  }

  predicate NothingForeign(history: seq<Note>, state: Cleaning) {
    && (forall id :: id in state.replacement ==> id in Ids(history))
    && (forall id :: id in state.pending ==> id in Ids(history))
  }

  lemma {:induction false} NextRemembers(history: seq<Note>, state: Cleaning, note: Note, i: nat)
    requires UniqueIds(history + [note]) && NothingForeign(history, state) && i < |history|
    requires Remembered(history, state, i)
    ensures Remembered(history + [note], CleanNext(state, note), i)
  {
    var longer := history + [note];
    assert longer[i] == history[i] && longer[|history|] == note;
    NextKeptLater(history, note, i);
    if !note.isLabel && note.id != "" { AssignedValues(state.replacement, state.pending, note.id, history[i].id); }
  }

  lemma {:induction false} LastRemembered(history: seq<Note>, state: Cleaning, note: Note)
    requires UniqueIds(history + [note]) && NothingForeign(history, state)
    ensures Remembered(history + [note], CleanNext(state, note), |history|)
  {
    var longer := history + [note];
    assert longer[|history|] == note;
    forall i | 0 <= i < |history| ensures history[i].id != note.id { assert longer[i] == history[i]; }
    assert note.id !in Ids(history);
    if !note.isLabel && note.id != "" { AssignedValues(state.replacement, state.pending, note.id, note.id); }
    assert NextKept(longer, |history|) == None;
  }

  lemma {:induction false} NextStaysOwn(history: seq<Note>, state: Cleaning, note: Note)
    requires NothingForeign(history, state)
    ensures NothingForeign(history + [note], CleanNext(state, note))
  {
    IdsSnoc(history, note);
    AssignedKeys(state.replacement, state.pending, note.id);
  }

  lemma {:induction false} CleanedRemembers(history: seq<Note>)
    requires UniqueIds(history)
    ensures NothingForeign(history, Cleaned(history))
    ensures forall i :: 0 <= i < |history| ==> Remembered(history, Cleaned(history), i)
  {
    if history != [] {
      var init, last := history[..|history| - 1], history[|history| - 1];
      InitAndLast(history);
      assert UniqueIds(init) by {
        forall i, j | 0 <= i < j < |init| ensures init[i].id != init[j].id {
          assert history[i] == init[i] && history[j] == init[j];
        }
      }
      CleanedRemembers(init);
      NextStaysOwn(init, Cleaned(init), last);
      forall i | 0 <= i < |history| ensures Remembered(history, Cleaned(history), i) {
        if i < |init| { NextRemembers(init, Cleaned(init), last, i); } else { LastRemembered(init, Cleaned(init), last); }
      }
    }
  }

  /** Exactly where a boundary ends up, whatever follows the message: where it was, if it names a message
      that is kept; at the next message that is kept, if it names a label. */
  lemma {:induction false} BoundaryMovesToNextKept(history: seq<Note>, note: Note, i: nat, later: seq<Note>)
    requires UniqueIds(history + [note]) && !note.isLabel && note.id != ""
    requires i <= |history| && (history + [note])[i].id == note.firstKept && note.firstKept != ""
    ensures
      var all, k, kept := history + [note], |Cleaned(history).kept|, Cleaned(history + [note] + later).kept;
      && k < |kept| && kept[k].id == note.id
      && (!all[i].isLabel ==> kept[k].firstKept == note.firstKept)
      && (all[i].isLabel ==> NextKept(all, i).Some? && kept[k].firstKept == NextKept(all, i).value)
  {
    var all := history + [note];
    Snoc(history, note);
    CleanedRemembers(all);
    CleanedGrows(all, later);
    assert Remembered(all, Cleaned(all), i);
    assert Cleaned(all) == CleanNext(Cleaned(history), note);
    var k := |Cleaned(history).kept|;
    assert Cleaned(all).kept[k] == note.(firstKept := Resolve(Cleaned(all).replacement, note.firstKept));
    if all[i].isLabel { NextKeptExists(history, note, i); }
  }

  lemma {:induction false} NextKeptExists(history: seq<Note>, note: Note, i: nat)
    requires !note.isLabel && note.id != "" && i < |history|
    ensures NextKept(history + [note], i).Some?
  {
    NextKeptLater(history, note, i);
  }

  /** What is kept are the messages that are not labels, in order, changed in nothing but the boundary. */
  lemma {:induction false} CleaningDropsOnlyLabels(history: seq<Note>)
    ensures Unbounded(Cleaned(history).kept) == Unbounded(WithoutLabels(history))
  {
    if history != [] {
      var init, last := history[..|history| - 1], history[|history| - 1];
      CleaningDropsOnlyLabels(init);
      if !last.isLabel {
        var kept := Cleaned(init).kept;
        UnboundedSnoc(kept, Cleaned(history).kept[|kept|]);
        UnboundedSnoc(WithoutLabels(init), last);
      }
    }
  }

  function WithoutLabels(history: seq<Note>): seq<Note> {
    if history == [] then []
    else
      var init, last := history[..|history| - 1], history[|history| - 1];
      if last.isLabel then WithoutLabels(init) else WithoutLabels(init) + [last]
  }

  function Unbounded(notes: seq<Note>): (plain: seq<Note>)
    ensures |plain| == |notes|
  {
    seq(|notes|, i requires 0 <= i < |notes| => notes[i].(firstKept := ""))
  }

  lemma {:induction false} UnboundedSnoc(notes: seq<Note>, note: Note)
    ensures Unbounded(notes + [note]) == Unbounded(notes) + [note.(firstKept := "")]
  {
  }
}
