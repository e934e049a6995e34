/** Ordering extensions by their dependencies: depth-first, with a stack to detect cycles. */
module ExtensionOrder {
  import opened Sequences
  import opened Entries

  type Name = string

  /** `wellFormed` is the verdict of the checks on a module's own fields. */
  datatype Module = Module(name: Name, dependencies: seq<Name>, wellFormed: bool)
  type Modules = map<Name, Module>

  datatype OrderFailure = Cyclic(name: Name) | Missing(name: Name) | Invalid(name: Name)
  datatype Ordering = Ordered(modules: seq<Module>) | Unordered(reason: OrderFailure)

  predicate ValidModules(modules: Modules) {
    forall name :: name in modules ==> modules[name].name == name
  }

  /** A path along dependencies, every node but the last being a module. */
  predicate Path(modules: Modules, path: seq<Name>) {
    forall i :: 0 <= i < |path| - 1 ==> path[i] in modules && path[i + 1] in modules[path[i]].dependencies
  }

  ghost predicate OnCycle(modules: Modules, name: Name) {
    exists path: seq<Name> :: |path| >= 2 && Path(modules, path) && path[0] == name && path[|path| - 1] == name
  }

  ghost predicate HasCycle(modules: Modules) {
    exists name :: OnCycle(modules, name)
  }

  predicate AllPresent(modules: Modules) {
    forall name :: name in modules ==>
      forall i :: 0 <= i < |modules[name].dependencies| ==> modules[name].dependencies[i] in modules
  }

  predicate AllWellFormed(modules: Modules) {
    forall name :: name in modules ==> modules[name].wellFormed
  }

  /** What a successful order promises: each module once, every dependency earlier. */
  ghost predicate Topological(modules: Modules, ordered: seq<Module>) {
    && (forall i :: 0 <= i < |ordered| ==> ordered[i].name in modules && modules[ordered[i].name] == ordered[i])
    && (forall i, j :: 0 <= i < j < |ordered| ==> ordered[i].name != ordered[j].name)
    && (forall i :: 0 <= i < |ordered| ==> Supported(ordered, i))
  }

  function Names(ordered: seq<Module>): set<Name> {
    set i | 0 <= i < |ordered| :: ordered[i].name
  }

  // ---------- an order rules out cycles ----------

  ghost function Position(ordered: seq<Module>, name: Name): (i: nat)
    requires name in Names(ordered)
    ensures i < |ordered| && ordered[i].name == name
  {
    var i: nat :| i < |ordered| && ordered[i].name == name;
    i
  }

  lemma {:induction false} PathsDescend(modules: Modules, ordered: seq<Module>, path: seq<Name>)
    requires Topological(modules, ordered) && Names(ordered) == modules.Keys
    requires |path| >= 2 && Path(modules, path)
    requires path[|path| - 1] in modules
    ensures path[0] in modules && Position(ordered, path[|path| - 1]) < Position(ordered, path[0])
    decreases |path|
  {
    var rest := path[1..];
    assert path[0] in modules && path[1] in modules[path[0]].dependencies;
    var i := Position(ordered, path[0]);
    var k :| 0 <= k < |ordered[i].dependencies| && ordered[i].dependencies[k] == path[1];
    assert Supported(ordered, i) && Before(ordered, i, ordered[i].dependencies[k]);
    var j :| 0 <= j < i && ordered[j].name == ordered[i].dependencies[k];
    assert path[1] in Names(ordered);
    var p := Position(ordered, path[1]);
    assert p == j;
    if |path| > 2 {
      assert Path(modules, rest) by {
        forall m | 0 <= m < |rest| - 1 ensures rest[m] in modules && rest[m + 1] in modules[rest[m]].dependencies {
          assert path[m + 1] in modules && path[m + 2] in modules[path[m + 1]].dependencies;
        }
      }
      PathsDescend(modules, ordered, rest);
    }
  }

  lemma {:induction false} OrderMeansAcyclic(modules: Modules, ordered: seq<Module>)
    requires Topological(modules, ordered) && Names(ordered) == modules.Keys
    ensures !HasCycle(modules)
  {
    forall name ensures !OnCycle(modules, name) {
      forall path: seq<Name> | |path| >= 2 && Path(modules, path) && path[0] == name && path[|path| - 1] == name
        ensures false
      {
        assert path[0] in modules;
        PathsDescend(modules, ordered, path);
      }
    }
  }

  lemma {:induction false} OrderMeansPresent(modules: Modules, ordered: seq<Module>)
    requires ValidModules(modules) && Topological(modules, ordered) && Names(ordered) == modules.Keys
    ensures AllPresent(modules)
  {
    forall name, k | name in modules && 0 <= k < |modules[name].dependencies|
      ensures modules[name].dependencies[k] in modules
    {
      var i := Position(ordered, name);
      assert Supported(ordered, i) && Before(ordered, i, ordered[i].dependencies[k]);
      var j :| 0 <= j < i && ordered[j].name == ordered[i].dependencies[k];
    }
  }

  // ---------- the depth-first visit ----------

  /** What a reported failure means. */
  ghost predicate Explains(modules: Modules, reason: OrderFailure) {
    match reason
    case Cyclic(name) => OnCycle(modules, name)
    case Missing(name) =>
      name !in modules && exists other :: other in modules && name in modules[other].dependencies
    case Invalid(name) => name in modules && !modules[name].wellFormed
  }

  ghost predicate Sorted(modules: Modules, ordered: seq<Module>, visited: set<Name>) {
    && Topological(modules, ordered) && visited == Names(ordered)
    && (forall i :: 0 <= i < |ordered| ==> ordered[i].wellFormed)
  }

  predicate Stacked(modules: Modules, visiting: seq<Name>, visited: set<Name>) {
    && Path(modules, visiting)
    && (forall i :: 0 <= i < |visiting| ==> visiting[i] in modules && visiting[i] !in visited)
    && (forall i, j :: 0 <= i < j < |visiting| ==> visiting[i] != visiting[j])
  }

  class DependencySorter {
    const modules: Modules
    /** The names being visited, innermost last. */
    var visiting: seq<Name>
    var visited: set<Name>
    var ordered: seq<Module>

    ghost predicate Valid()
      reads this
    {
      ValidModules(modules) && Sorted(modules, ordered, visited) && Stacked(modules, visiting, visited)
    }

    constructor (modules: Modules)
      requires ValidModules(modules)
      ensures Valid() && this.modules == modules && visiting == [] && visited == {} && ordered == []
    {
      this.modules := modules;
      visiting, visited, ordered := [], {}, [];
    }

    method Visit(name: Name) returns (failure: Option<OrderFailure>)
      requires Valid()
      requires visiting == [] ==> name in modules
      requires visiting != [] ==> name in modules[visiting[|visiting| - 1]].dependencies
      modifies this
      ensures failure.Some? ==> Explains(modules, failure.value)
      ensures failure.None? ==>
                && Valid() && visiting == old(visiting) && old(ordered) <= ordered
                && name in visited && old(visited) <= visited
      decreases modules.Keys - StackSet(visiting)
    {
      if name in visited { return None; }
      if name in visiting {
        CycleFound(modules, visiting, name);
        return Some(Cyclic(name));
      }
      if name !in modules {
        return Some(Missing(name));
      }
      var current := modules[name];
      if !current.wellFormed { return Some(Invalid(name)); }
      ghost var stack := visiting;
      Deeper(modules, stack, name);
      Restacked(modules, stack, name, visited);
      visiting := visiting + [name];
      var i := 0;
      while i < |current.dependencies|
        invariant 0 <= i <= |current.dependencies|
        invariant Valid() && visiting == stack + [name] && old(ordered) <= ordered && old(visited) <= visited
        invariant forall k :: 0 <= k < i ==> current.dependencies[k] in visited
      {
        Snoc(stack, name);
        failure := Visit(current.dependencies[i]);
        if failure.Some? { return; }
        i := i + 1;
      }
      Snoc(stack, name);
      Unstacked(modules, stack, name, visited);
      SortedSnoc(modules, ordered, visited, current);
      visiting := visiting[..|visiting| - 1];
      ordered := ordered + [current];
      visited := visited + {name};
      return None;
    }
  }

  function StackSet(stack: seq<Name>): set<Name> {
    set i | 0 <= i < |stack| :: stack[i]
  }

  /** A name met again while it is being visited closes a cycle through the stack. */
  lemma {:induction false} CycleFound(modules: Modules, stack: seq<Name>, name: Name)
    requires Path(modules, stack) && stack != [] && name in stack
    requires stack[|stack| - 1] in modules && name in modules[stack[|stack| - 1]].dependencies
    ensures OnCycle(modules, name)
  {
    var i :| 0 <= i < |stack| && stack[i] == name;
    var path := stack[i..] + [name];
    forall k | 0 <= k < |path| - 1 ensures path[k] in modules && path[k + 1] in modules[path[k]].dependencies {
      assert path[k] == stack[i + k];
      if k < |path| - 2 { assert path[k + 1] == stack[i + k + 1]; }
    }
    assert Path(modules, path) && path[0] == name && path[|path| - 1] == name;
  }

  lemma {:induction false} Deeper(modules: Modules, stack: seq<Name>, name: Name)
    requires Path(modules, stack) && name in modules && name !in stack
    requires stack != [] ==> stack[|stack| - 1] in modules && name in modules[stack[|stack| - 1]].dependencies
    ensures Path(modules, stack + [name])
    ensures modules.Keys - StackSet(stack + [name]) < modules.Keys - StackSet(stack)
  {
    var longer := stack + [name];
    forall k | 0 <= k < |longer| - 1 ensures longer[k] in modules && longer[k + 1] in modules[longer[k]].dependencies {
      if k < |stack| - 1 { assert stack[k + 1] in modules[stack[k]].dependencies; }
    }
    assert longer[|stack|] == name;
    assert name in StackSet(longer) && name !in StackSet(stack);
    forall n | n in StackSet(stack) ensures n in StackSet(longer) {
      var i :| 0 <= i < |stack| && stack[i] == n;
      assert longer[i] == n;
    }
  }

  lemma {:induction false} StackPrefix(modules: Modules, stack: seq<Name>, name: Name)
    requires Path(modules, stack + [name])
    ensures Path(modules, stack)
  {
    forall k | 0 <= k < |stack| - 1 ensures stack[k] in modules && stack[k + 1] in modules[stack[k]].dependencies {
      assert (stack + [name])[k + 1] in modules[(stack + [name])[k]].dependencies;
    }
  }

  lemma {:induction false} Restacked(modules: Modules, stack: seq<Name>, name: Name, visited: set<Name>)
    requires Stacked(modules, stack, visited) && Path(modules, stack + [name])
    requires name in modules && name !in visited && name !in stack
    ensures Stacked(modules, stack + [name], visited)
  {
  }

  lemma {:induction false} Unstacked(modules: Modules, stack: seq<Name>, name: Name, visited: set<Name>)
    requires Stacked(modules, stack + [name], visited)
    ensures Stacked(modules, stack, visited + {name})
    ensures name in modules && name !in visited
  {
    StackPrefix(modules, stack, name);
    var longer := stack + [name];
    assert longer[|stack|] == name;
    forall i | 0 <= i < |stack| ensures stack[i] in modules && stack[i] !in visited && stack[i] != name {
      assert longer[i] == stack[i];
    }
    forall i, j | 0 <= i < j < |stack| ensures stack[i] != stack[j] {
      assert longer[i] == stack[i] && longer[j] == stack[j];
    }
  }

  lemma {:induction false} SortedSnoc(modules: Modules, ordered: seq<Module>, visited: set<Name>, next: Module)
    requires Sorted(modules, ordered, visited)
    requires next.name in modules && modules[next.name] == next && next.wellFormed && next.name !in visited
    requires forall k :: 0 <= k < |next.dependencies| ==> next.dependencies[k] in visited
    ensures Sorted(modules, ordered + [next], visited + {next.name})
  {
    Appended(modules, ordered, next);
  }

  lemma {:induction false} NamesSnoc(ordered: seq<Module>, next: Module)
    ensures Names(ordered + [next]) == Names(ordered) + {next.name}
  {
    var longer := ordered + [next];
    assert longer[|ordered|] == next;
    forall n | n in Names(longer) ensures n in Names(ordered) + {next.name} {
      var i :| 0 <= i < |longer| && longer[i].name == n;
      if i < |ordered| { assert ordered[i].name == n; }
    }
    forall n | n in Names(ordered) ensures n in Names(longer) {
      var i :| 0 <= i < |ordered| && ordered[i].name == n;
      assert longer[i].name == n;
    }
  }

  /** The dependencies of the k-th module stand before it. */
  ghost predicate Supported(ordered: seq<Module>, i: nat)
    requires i < |ordered|
  {
    forall k :: 0 <= k < |ordered[i].dependencies| ==> Before(ordered, i, ordered[i].dependencies[k])
  }

  ghost predicate Before(ordered: seq<Module>, i: nat, name: Name)
    requires i <= |ordered|
  {
    exists j :: 0 <= j < i && ordered[j].name == name
  }

  lemma {:induction false} SupportStays(ordered: seq<Module>, next: Module, i: nat)
    requires i < |ordered| && Supported(ordered, i)
    ensures Supported(ordered + [next], i)
  {
    var longer := ordered + [next];
    forall k | 0 <= k < |longer[i].dependencies| ensures Before(longer, i, longer[i].dependencies[k]) {
      assert Before(ordered, i, ordered[i].dependencies[k]);
      var j :| 0 <= j < i && ordered[j].name == ordered[i].dependencies[k];
      assert longer[j].name == longer[i].dependencies[k];
    }
  }

  lemma {:induction false} SupportArrives(ordered: seq<Module>, next: Module)
    requires forall k :: 0 <= k < |next.dependencies| ==> next.dependencies[k] in Names(ordered)
    ensures Supported(ordered + [next], |ordered|)
  {
    var longer, i := ordered + [next], |ordered|;
    forall k | 0 <= k < |longer[i].dependencies| ensures Before(longer, i, longer[i].dependencies[k]) {
      assert next.dependencies[k] in Names(ordered);
      var j :| 0 <= j < |ordered| && ordered[j].name == next.dependencies[k];
      assert longer[j].name == longer[i].dependencies[k];
    }
  }

  lemma {:induction false} Appended(modules: Modules, ordered: seq<Module>, next: Module)
    requires Topological(modules, ordered) && next.name in modules && modules[next.name] == next
    requires next.name !in Names(ordered)
    requires forall k :: 0 <= k < |next.dependencies| ==> next.dependencies[k] in Names(ordered)
    ensures Topological(modules, ordered + [next])
    ensures Names(ordered + [next]) == Names(ordered) + {next.name}
  {
    NamesSnoc(ordered, next);
    forall i | 0 <= i < |ordered| ensures Supported(ordered + [next], i) && ordered[i].name != next.name {
      assert ordered[i].name in Names(ordered);
      SupportStays(ordered, next, i);
    }
    SupportArrives(ordered, next);
  }

  /** Succeeds exactly when, among well-formed modules, every dependency is present and no cycle
      exists; then each module comes once, behind all it depends on. A failure names its reason. */
  method ValidateDependencies(modules: Modules, names: seq<Name>) returns (ordering: Ordering)
    requires ValidModules(modules) && modules.Keys == StackSet(names)
    ensures ordering.Ordered? <==> AllWellFormed(modules) && AllPresent(modules) && !HasCycle(modules)
    ensures ordering.Ordered? ==> Topological(modules, ordering.modules) && Names(ordering.modules) == modules.Keys
    ensures ordering.Unordered? ==> Explains(modules, ordering.reason)
  {
    var sorter := new DependencySorter(modules);
    for i := 0 to |names|
      invariant fresh(sorter) && sorter.modules == modules && sorter.Valid() && sorter.visiting == []
      invariant forall k :: 0 <= k < i ==> names[k] in sorter.visited
    {
      assert names[i] in StackSet(names);
      var failure := sorter.Visit(names[i]);
      if failure.Some? {
        ReasonsAreReal(modules, failure.value);
        return Unordered(failure.value);
      }
    }
    assert sorter.visited == modules.Keys;
    OrderMeansAcyclic(modules, sorter.ordered);
    OrderMeansPresent(modules, sorter.ordered);
    forall name | name in modules ensures modules[name].wellFormed {
      var i := Position(sorter.ordered, name);
    }
    return Ordered(sorter.ordered);
  }

  lemma {:induction false} ReasonsAreReal(modules: Modules, reason: OrderFailure)
    requires Explains(modules, reason)
    ensures !(AllWellFormed(modules) && AllPresent(modules) && !HasCycle(modules))
  {
    match reason
    case Cyclic(name) =>
    case Missing(name) =>
      var other :| other in modules && name in modules[other].dependencies;
      var k :| 0 <= k < |modules[other].dependencies| && modules[other].dependencies[k] == name;
      assert modules[other].dependencies[k] !in modules;
    case Invalid(name) =>
  }
}
