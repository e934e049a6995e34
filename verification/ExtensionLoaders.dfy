/** The extension runner as an object: each method is one synchronous stretch between two awaits. */
module ExtensionLoaders {
  import opened Sequences
  import opened ExtensionOrder
  import opened ExtensionRunners

  class ExtensionLoader {
    var phases: map<GenerationId, Phase>
    var invalidators: set<GenerationId>
    var generations: map<Name, GenerationId>
    var loaded: Modules
    var next: GenerationId
    var control: Control

    function Value(): State
      reads this
    {
      State(phases, invalidators, generations, loaded, next, control)
    }

    constructor ()
      ensures Value() == INITIAL
    {
      phases, invalidators, generations, loaded, next, control := map[], {}, map[], map[], 1, Idle;
    }

    method ConstructGeneration() returns (generation: GenerationId)
      modifies this`phases, this`invalidators, this`next
      ensures Value() == Construct(old(Value())) && generation == old(next)
    {
      generation := next;
      next := next + 1;
      phases := phases[generation := Preparing];
      invalidators := invalidators + {generation};
    }

    method InvalidateGeneration(generation: GenerationId)
      modifies this`phases, this`invalidators
      ensures Value() == Invalidate(old(Value()), generation)
    {
      if generation in phases { phases := phases[generation := Disposed]; }
      invalidators := invalidators - {generation};
    }

    /** Disposes the next of these generations and waits for its callbacks. */
    method CleanUpNext(retired: seq<GenerationId>)
      modifies this`phases, this`invalidators, this`control
      ensures Value() == CleanUp(old(Value()), retired)
    {
      if retired == [] {
        control := Idle;
      } else {
        InvalidateGeneration(retired[0]);
        control := CleaningUp(retired[1..]);
      }
    }

    method AdoptGeneration(current: Module, generation: GenerationId)
      modifies this`phases, this`generations, this`loaded
      ensures Value() == Adopt(old(Value()), current, generation)
    {
      phases := phases[generation := Active];
      generations := generations[current.name := generation];
      loaded := loaded[current.name := current];
    }

    method AdoptEach(prepared: seq<Prepared>)
      modifies this`phases, this`generations, this`loaded
      ensures Value() == AdoptAll(old(Value()), prepared)
    {
      for i := 0 to |prepared|
        invariant Value() == AdoptAll(old(Value()), prepared[..i])
      {
        TakeOneMore(prepared, i);
        AdoptGeneration(prepared[i].current, prepared[i].generation);
      }
      TakeAll(prepared);
    }

    method InvalidatePreviousOf(prepared: seq<Prepared>)
      modifies this`phases, this`invalidators
      ensures Value() == InvalidateAll(old(Value()), prepared)
    {
      for i := 0 to |prepared|
        invariant Value() == InvalidateAll(old(Value()), prepared[..i])
      {
        TakeOneMore(prepared, i);
        if prepared[i].previous.Some? { InvalidateGeneration(prepared[i].previous.value); }
      }
      TakeAll(prepared);
    }

    // ---------- the operations, up to their first await ----------

    /** Refused exactly when the module does not fit among the live ones. */
    method LoadExtension(current: Module) returns (accepted: bool)
      requires Invariant(Value()) && control.Idle?
      modifies this`phases, this`invalidators, this`next, this`control
      ensures accepted <==> Orderable(old(LiveModules(Value()))[current.name := current])
      ensures Step(old(Value()), StartLoad(current), Value())
    {
      var combined := LiveModules(Value())[current.name := current];
      var names := KeysOf(combined);
      var ordering := ValidateDependencies(combined, names);
      if ordering.Unordered? { return false; }
      var generation := ConstructGeneration();
      control := LoadingOne(current, generation);
      return true;
    }

    /** Puts the modules over the live ones; a name given twice is refused. */
    method Combine(modules: seq<Module>) returns (combined: Modules, unique: bool)
      requires ValidModules(loaded)
      ensures unique <==> UniqueModules(modules)
      ensures unique ==> combined == Combined(Value(), modules) && ValidModules(combined)
    {
      combined := LiveModules(Value());
      var seen: set<Name> := {};
      for i := 0 to |modules|
        invariant combined == Combined(Value(), modules[..i]) && ValidModules(combined)
        invariant seen == Names(modules[..i]) && UniqueModules(modules[..i])
      {
        TakeOneMore(modules, i);
        NamesSnoc(modules[..i], modules[i]);
        if modules[i].name in seen {
          RepeatedModule(modules, i);
          return combined, false;
        }
        UniqueSnoc(modules, i);
        seen := seen + {modules[i].name};
        combined := combined[modules[i].name := modules[i]];
      }
      TakeAll(modules);
      return combined, true;
    }

    /** The whole batch is checked before anything of it is prepared, then prepared in dependency
        order. */
    method LoadAll(modules: seq<Module>) returns (accepted: bool, ghost order: seq<Module>)
      requires Invariant(Value()) && control.Idle?
      modifies this
      ensures accepted <==> UniqueModules(modules) && Orderable(Combined(old(Value()), modules))
      ensures Step(old(Value()), StartLoadAll(modules, order), Value())
    {
      order := [];
      var combined, unique := Combine(modules);
      if !unique { return false, []; }
      var names := KeysOf(combined);
      var ordering := ValidateDependencies(combined, names);
      if ordering.Unordered? { return false, []; }
      var ordered := OnlyNamed(ordering.modules, modules);
      FilteredIsPermutation(Value(), modules, ordering.modules);
      order := ordered;
      if ordered == [] {
        Finish([], true);
      } else {
        Prepare(ordered, []);
      }
      return true, order;
    }

    method Prepare(remaining: seq<Module>, prepared: seq<Prepared>)
      requires remaining != []
      modifies this`phases, this`invalidators, this`next, this`control
      ensures Value() == PrepareNext(old(Value()), remaining, prepared)
    {
      var previous := Previous(Value(), remaining[0].name);
      var generation := ConstructGeneration();
      control := LoadingAll(remaining[1..], prepared + [Prepared(remaining[0], generation, previous)]);
    }

    /** Every new generation is adopted before an old one is aborted; any failure disposes the new. */
    method Finish(prepared: seq<Prepared>, mounts: bool)
      modifies this
      ensures Value() == FinishBatch(old(Value()), prepared, mounts)
    {
      if AllPreparing(Value(), prepared) && mounts {
        AdoptEach(prepared);
        InvalidatePreviousOf(prepared);
        CleanUpNext(PreviousBackwards(prepared));
      } else {
        CleanUpNext(GenerationsBackwards(prepared));
      }
    }

    method Commit(current: Module, generation: GenerationId, mounts: bool)
      modifies this
      ensures Value() == FinishOne(old(Value()), current, generation, mounts)
    {
      if IsPreparing(Value(), generation) && mounts {
        var previous := Previous(Value(), current.name);
        AdoptGeneration(current, generation);
        if previous.Some? {
          InvalidateGeneration(previous.value);
          CleanUpNext([previous.value]);
        } else {
          CleanUpNext([]);
        }
      } else {
        CleanUpNext([generation]);
      }
    }

    /** Refused exactly when an active extension depends on it. */
    method UnloadExtension(name: Name) returns (accepted: bool)
      requires Invariant(Value()) && control.Idle?
      modifies this
      ensures accepted <==> !HasDependent(old(Value()), name)
      ensures Step(old(Value()), StartUnload(name), Value())
    {
      if exists other :: other in Live(Value()) && name in loaded[other].dependencies { return false; }
      var bound := name in generations;
      RemoveExtension(name);
      control := if bound then CleaningUp([]) else Idle;
      return true;
    }

    method RemoveExtension(name: Name)
      modifies this`phases, this`invalidators, this`generations, this`loaded
      ensures Value() == Remove(old(Value()), name)
    {
      var bound := Previous(Value(), name);
      generations := generations - {name};
      loaded := loaded - {name};
      if bound.Some? { InvalidateGeneration(bound.value); }
    }

    /** Dependents first; refused exactly when the loaded modules have no order. */
    method DisposeExtensions() returns (accepted: bool, ghost order: seq<Module>)
      requires Invariant(Value()) && control.Idle?
      modifies this
      ensures accepted <==> Orderable(old(loaded))
      ensures Step(old(Value()), StartDispose(order), Value())
    {
      order := [];
      var names := KeysOf(loaded);
      var ordering := ValidateDependencies(loaded, names);
      if ordering.Unordered? { return false, []; }
      order := ordering.modules;
      DisposeFirst(Reversed(ordering.modules));
      return true, order;
    }

    method DisposeFirst(remaining: seq<Module>)
      modifies this
      ensures Value() == DisposeNext(old(Value()), remaining)
    {
      if remaining == [] {
        control := Idle;
      } else {
        RemoveExtension(remaining[0].name);
        control := Disposing(remaining[1..]);
      }
    }

    // ---------- what happens after an await ----------

    method AfterFactory(returned: bool, mounts: bool)
      requires control.LoadingOne? || control.LoadingAll?
      modifies this
      ensures Step(old(Value()), if returned then FactoryReturned(mounts) else FactoryThrew, Value())
    {
      match control {
        case LoadingOne(current, generation) =>
          if returned { Commit(current, generation, mounts); } else { CleanUpNext([generation]); }
        case LoadingAll(remaining, prepared) =>
          if !returned {
            CleanUpNext(GenerationsBackwards(prepared));
          } else if remaining == [] {
            Finish(prepared, mounts);
          } else {
            Prepare(remaining, prepared);
          }
      }
    }

    method AfterCleanUp()
      requires control.CleaningUp? || control.Disposing?
      modifies this
      ensures Step(old(Value()), CleanupDone, Value())
    {
      match control {
        case CleaningUp(retired) => CleanUpNext(retired);
        case Disposing(remaining) => DisposeFirst(remaining);
      }
    }

    /** The host runs every invalidator it still holds, then forgets them. */
    method ClearHost()
      modifies this`phases, this`invalidators
      ensures Step(old(Value()), HostCleared, Value())
    {
      phases := map generation | generation in phases ::
        if generation in invalidators then Disposed else phases[generation];
      invalidators := {};
    }
  }

  /** The names of a map, each once. */
  method KeysOf(modules: Modules) returns (names: seq<Name>)
    ensures StackSet(names) == modules.Keys
  {
    names := [];
    var left := modules.Keys;
    while left != {}
      invariant left <= modules.Keys && StackSet(names) == modules.Keys - left
      decreases |left|
    {
      var name :| name in left;
      StackSetSnoc(names, name);
      names := names + [name];
      left := left - {name};
    }
  }

  lemma {:induction false} StackSetSnoc(names: seq<Name>, name: Name)
    ensures StackSet(names + [name]) == StackSet(names) + {name}
  {
    var longer := names + [name];
    assert longer[|names|] == name;
    forall i | 0 <= i < |names| ensures names[i] in StackSet(longer) { assert longer[i] == names[i]; }
  }

  lemma {:induction false} RepeatedModule(modules: seq<Module>, i: nat)
    requires i < |modules| && modules[i].name in Names(modules[..i])
    ensures !UniqueModules(modules)
  {
    var k :| 0 <= k < i && modules[..i][k].name == modules[i].name;
    assert modules[k].name == modules[i].name;
  }

  lemma {:induction false} UniqueSnoc(modules: seq<Module>, i: nat)
    requires i < |modules| && UniqueModules(modules[..i]) && modules[i].name !in Names(modules[..i])
    ensures UniqueModules(modules[..i + 1])
  {
    var longer := modules[..i + 1];
    forall a, b | 0 <= a < b < |longer| ensures longer[a].name != longer[b].name {
      assert modules[..i][a].name in Names(modules[..i]);
      if b < i { assert modules[..i][a].name != modules[..i][b].name; }
    }
  }

  /** The modules of an order that have a name of the batch. */
  function OnlyNamed(ordered: seq<Module>, modules: seq<Module>): seq<Module> {
    if ordered == [] then []
    else
      var init, last := ordered[..|ordered| - 1], ordered[|ordered| - 1];
      OnlyNamed(init, modules) + if last.name in Names(modules) then [last] else []
  }

  lemma {:induction false} OnlyNamedMembers(ordered: seq<Module>, modules: seq<Module>)
    requires UniqueModules(ordered)
    ensures UniqueModules(OnlyNamed(ordered, modules))
    ensures forall current :: current in OnlyNamed(ordered, modules) <==> current in ordered && current.name in Names(modules)
  {
    if ordered != [] {
      var init, last := ordered[..|ordered| - 1], ordered[|ordered| - 1];
      InitAndLast(ordered);
      forall i, j | 0 <= i < j < |init| ensures init[i].name != init[j].name {
        assert ordered[i] == init[i] && ordered[j] == init[j];
      }
      OnlyNamedMembers(init, modules);
      forall current | current in OnlyNamed(init, modules) ensures current.name != last.name {
        var i :| 0 <= i < |init| && init[i] == current;
        assert ordered[i] == current;
      }
    }
  }

  lemma {:induction false} SameMembersSameMultiset(a: seq<Module>, b: seq<Module>)
    requires UniqueModules(a) && UniqueModules(b) && forall current :: current in a <==> current in b
    ensures multiset(a) == multiset(b)
  {
    forall current ensures multiset(a)[current] == multiset(b)[current] {
      CountedOnce(a, current);
      CountedOnce(b, current);
    }
  }

  lemma {:induction false} CountedOnce(modules: seq<Module>, current: Module)
    requires UniqueModules(modules)
    ensures multiset(modules)[current] == if current in modules then 1 else 0
  {
    if modules != [] {
      var init, last := modules[..|modules| - 1], modules[|modules| - 1];
      InitAndLast(modules);
      forall i, j | 0 <= i < j < |init| ensures init[i].name != init[j].name {
        assert modules[i] == init[i] && modules[j] == init[j];
      }
      CountedOnce(init, current);
      forall i | 0 <= i < |init| ensures init[i] != last { assert modules[i] == init[i]; }
    }
  }

  /** Filtering the order of everything leaves the modules of the batch, each once. */
  lemma {:induction false} FilteredIsPermutation(s: State, modules: seq<Module>, ordered: seq<Module>)
    requires UniqueModules(modules)
    requires Topological(Combined(s, modules), ordered) && Names(ordered) == Combined(s, modules).Keys
    ensures UniqueModules(OnlyNamed(ordered, modules))
    ensures multiset(OnlyNamed(ordered, modules)) == multiset(modules)
  {
    OnlyNamedMembers(ordered, modules);
    CombinedHolds(s, modules);
    var filtered := OnlyNamed(ordered, modules);
    forall current ensures current in filtered <==> current in modules {
      if current in modules {
        var i :| 0 <= i < |modules| && modules[i] == current;
        CombinedFinds(s, modules, i);
        assert current.name in Names(ordered);
        var p := Position(ordered, current.name);
        assert ordered[p] == current;
      }
      if current in filtered {
        var i :| 0 <= i < |modules| && modules[i].name == current.name;
        CombinedFinds(s, modules, i);
        var p :| 0 <= p < |ordered| && ordered[p] == current;
      }
    }
    SameMembersSameMultiset(filtered, modules);
  }
}
