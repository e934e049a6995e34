/** Loading and unloading extensions while their factories and clean-ups are awaited: a state
    machine over its await points. Listeners of an abort signal also run between two of them; what
    they see is the subject of ExtensionAborts. */
module ExtensionRunners {
  import opened Sequences
  import opened Entries
  import opened ExtensionOrder

  type GenerationId = nat

  datatype Phase = Preparing | Active | Disposed

  datatype Prepared = Prepared(current: Module, generation: GenerationId, previous: Option<GenerationId>)

  /** Operations are serialised; each constructor but Idle stands for one that awaits something. */
  datatype Control =
    | Idle
    | LoadingOne(current: Module, generation: GenerationId)
    | LoadingAll(remaining: seq<Module>, prepared: seq<Prepared>)
    | CleaningUp(generations: seq<GenerationId>)
    | Disposing(remaining: seq<Module>)

  datatype State = State(
    phases: map<GenerationId, Phase>,
    invalidators: set<GenerationId>,
    generations: map<Name, GenerationId>,
    loaded: Modules,
    next: GenerationId,
    control: Control)

  const INITIAL := State(map[], {}, map[], map[], 1, Idle)

  /** What happens next. The environment decides how factories and mounts turn out. */
  datatype Event =
    | StartLoad(current: Module)
    | StartLoadAll(modules: seq<Module>, order: seq<Module>)
    | StartUnload(name: Name)
    | StartDispose(order: seq<Module>)
    | FactoryReturned(mounts: bool)
    | FactoryThrew
    | CleanupDone
    | HostCleared

  predicate IsActive(s: State, generation: GenerationId) {
    generation in s.phases && s.phases[generation] == Active
  }

  predicate IsPreparing(s: State, generation: GenerationId) {
    generation in s.phases && s.phases[generation] == Preparing
  }

  function Live(s: State): set<Name> {
    set name | name in s.loaded && name in s.generations && IsActive(s, s.generations[name])
  }

  function LiveModules(s: State): Modules {
    map name | name in s.loaded && name in s.generations && IsActive(s, s.generations[name]) :: s.loaded[name]
  }

  /** The set of active extensions is closed under dependencies. */
  ghost predicate Closed(s: State) {
    forall name, k :: name in Live(s) && 0 <= k < |s.loaded[name].dependencies| ==>
      s.loaded[name].dependencies[k] in Live(s)
  }

  /** The dependency check passes. */
  ghost predicate Orderable(modules: Modules) {
    AllWellFormed(modules) && AllPresent(modules) && !HasCycle(modules)
  }

  // ---------- the pieces of an operation ----------

  /** A new generation prepares, fenced by the host from the start. */
  function Construct(s: State): State {
    s.(phases := s.phases[s.next := Preparing], invalidators := s.invalidators + {s.next}, next := s.next + 1)
  }

  function Invalidate(s: State, generation: GenerationId): State {
    s.(phases := if generation in s.phases then s.phases[generation := Disposed] else s.phases,
       invalidators := s.invalidators - {generation})
  }

  /** Clean-ups run one after the other; the next generation is disposed before its wait begins. */
  function CleanUp(s: State, generations: seq<GenerationId>): State {
    if generations == [] then s.(control := Idle)
    else Invalidate(s, generations[0]).(control := CleaningUp(generations[1..]))
  }

  function Previous(s: State, name: Name): Option<GenerationId> {
    if name in s.generations then Some(s.generations[name]) else None
  }

  function Adopt(s: State, current: Module, generation: GenerationId): State {
    s.(phases := s.phases[generation := Active],
       generations := s.generations[current.name := generation],
       loaded := s.loaded[current.name := current])
  }

  function InvalidatePrevious(s: State, previous: Option<GenerationId>): State {
    if previous.Some? then Invalidate(s, previous.value) else s
  }

  function AdoptAll(s: State, prepared: seq<Prepared>): State {
    if prepared == [] then s
    else
      var last := prepared[|prepared| - 1];
      Adopt(AdoptAll(s, prepared[..|prepared| - 1]), last.current, last.generation)
  }

  function InvalidateAll(s: State, prepared: seq<Prepared>): State {
    if prepared == [] then s
    else InvalidatePrevious(InvalidateAll(s, prepared[..|prepared| - 1]), prepared[|prepared| - 1].previous)
  }

  function GenerationsBackwards(prepared: seq<Prepared>): seq<GenerationId> {
    if prepared == [] then []
    else [prepared[|prepared| - 1].generation] + GenerationsBackwards(prepared[..|prepared| - 1])
  }

  function PreviousBackwards(prepared: seq<Prepared>): seq<GenerationId> {
    if prepared == [] then []
    else
      var last := prepared[|prepared| - 1];
      (if last.previous.Some? then [last.previous.value] else []) + PreviousBackwards(prepared[..|prepared| - 1])
  }

  predicate AllPreparing(s: State, prepared: seq<Prepared>) {
    forall i :: 0 <= i < |prepared| ==> IsPreparing(s, prepared[i].generation)
  }

  /** The end of a batch: everything is swapped at once, or every prepared generation is disposed. */
  function FinishBatch(s: State, prepared: seq<Prepared>, mounts: bool): State {
    if AllPreparing(s, prepared) && mounts then
      CleanUp(InvalidateAll(AdoptAll(s, prepared), prepared), PreviousBackwards(prepared))
    else CleanUp(s, GenerationsBackwards(prepared))
  }

  function PrepareNext(s: State, remaining: seq<Module>, prepared: seq<Prepared>): State
    requires remaining != []
  {
    var current := remaining[0];
    Construct(s).(control :=
      LoadingAll(remaining[1..], prepared + [Prepared(current, s.next, Previous(s, current.name))]))
  }

  function FinishOne(s: State, current: Module, generation: GenerationId, mounts: bool): State {
    if IsPreparing(s, generation) && mounts then
      var previous := Previous(s, current.name);
      CleanUp(InvalidatePrevious(Adopt(s, current, generation), previous),
              if previous.Some? then [previous.value] else [])
    else CleanUp(s, [generation])
  }

  function Remove(s: State, name: Name): State {
    var removed := s.(generations := s.generations - {name}, loaded := s.loaded - {name});
    if name in s.generations then Invalidate(removed, s.generations[name]) else removed
  }

  function DisposeNext(s: State, remaining: seq<Module>): State {
    if remaining == [] then s.(control := Idle)
    else Remove(s, remaining[0].name).(control := Disposing(remaining[1..]))
  }

  function Clear(s: State): State {
    s.(phases := map generation | generation in s.phases ::
         if generation in s.invalidators then Disposed else s.phases[generation],
       invalidators := {})
  }

  /** The live modules with the new ones put over them. */
  function Combined(s: State, modules: seq<Module>): Modules {
    if modules == [] then LiveModules(s)
    else Combined(s, modules[..|modules| - 1])[modules[|modules| - 1].name := modules[|modules| - 1]]
  }

  predicate UniqueModules(modules: seq<Module>) {
    forall i, j :: 0 <= i < j < |modules| ==> modules[i].name != modules[j].name
  }

  predicate HasDependent(s: State, name: Name) {
    exists other :: other in Live(s) && name in s.loaded[other].dependencies
  }

  /** One step. An operation whose checks fail leaves the state as it is. */
  ghost predicate Step(s: State, event: Event, t: State) {
    match event
    case HostCleared => t == Clear(s)
    case StartLoad(current) =>
      s.control.Idle? &&
      (if Orderable(LiveModules(s)[current.name := current])
       then t == Construct(s).(control := LoadingOne(current, s.next)) else t == s)
    case StartLoadAll(modules, order) =>
      s.control.Idle? &&
      (if UniqueModules(modules) && Orderable(Combined(s, modules))
       then UniqueModules(order) && multiset(order) == multiset(modules) &&
            t == (if order == [] then FinishBatch(s, [], true) else PrepareNext(s, order, []))
       else t == s)
    case StartUnload(name) =>
      s.control.Idle? &&
      (if HasDependent(s, name) then t == s
       else t == Remove(s, name).(control := if name in s.generations then CleaningUp([]) else Idle))
    case StartDispose(order) =>
      s.control.Idle? &&
      (if Orderable(s.loaded)
       then Topological(s.loaded, order) && Names(order) == s.loaded.Keys && t == DisposeNext(s, Reversed(order))
       else t == s)
    case FactoryReturned(mounts) => (
      match s.control
      case LoadingOne(current, generation) => t == FinishOne(s, current, generation, mounts)
      case LoadingAll(remaining, prepared) =>
        if remaining == [] then t == FinishBatch(s, prepared, mounts) else t == PrepareNext(s, remaining, prepared)
      case _ => false)
    case FactoryThrew => (
      match s.control
      case LoadingOne(_, generation) => t == CleanUp(s, [generation])
      case LoadingAll(_, prepared) => t == CleanUp(s, GenerationsBackwards(prepared))
      case _ => false)
    case CleanupDone => (
      match s.control
      case CleaningUp(generations) => t == CleanUp(s, generations)
      case Disposing(remaining) => t == DisposeNext(s, remaining)
      case _ => false)
  }

  // ---------- the invariant ----------

  predicate DependsWithin(current: Module, names: set<Name>) {
    forall k :: 0 <= k < |current.dependencies| ==> current.dependencies[k] in names
  }

  function Generations(prepared: seq<Prepared>): set<GenerationId> {
    set i | 0 <= i < |prepared| :: prepared[i].generation
  }

  function PreparedNames(prepared: seq<Prepared>): set<Name> {
    set i | 0 <= i < |prepared| :: prepared[i].current.name
  }

  predicate UniquePrepared(prepared: seq<Prepared>) {
    forall i, j :: 0 <= i < j < |prepared| ==>
      prepared[i].current.name != prepared[j].current.name && prepared[i].generation != prepared[j].generation
  }

  /** A generation no module is bound to. */
  predicate Unbound(s: State, generation: GenerationId) {
    generation in s.phases && forall name :: name in s.generations ==> s.generations[name] != generation
  }

  /** Disposing it takes nothing away from the active extensions. */
  predicate Harmless(s: State, generation: GenerationId) {
    !IsActive(s, generation) || Unbound(s, generation)
  }

  ghost predicate Bookkeeping(s: State) {
    && ValidModules(s.loaded) && s.loaded.Keys == s.generations.Keys
    && (forall generation :: generation in s.phases ==> generation < s.next)
    && (forall generation :: generation in s.phases && s.phases[generation] != Disposed ==> generation in s.invalidators)
    && (forall name :: name in s.generations ==>
         s.generations[name] in s.phases && s.phases[s.generations[name]] != Preparing)
    && (forall a, b :: a in s.generations && b in s.generations && a != b ==> s.generations[a] != s.generations[b])
  }

  predicate NamesApart(remaining: seq<Module>, prepared: seq<Prepared>) {
    && UniquePrepared(prepared) && UniqueModules(remaining)
    && (forall i, j :: 0 <= i < |prepared| && 0 <= j < |remaining| ==> prepared[i].current.name != remaining[j].name)
  }

  predicate PreparedUnbound(s: State, prepared: seq<Prepared>) {
    forall i :: 0 <= i < |prepared| ==>
      && Unbound(s, prepared[i].generation) && !IsActive(s, prepared[i].generation)
      && prepared[i].previous == Previous(s, prepared[i].current.name)
  }

  /** As long as nothing was cleared, everything the batch depends on is live or in the batch. */
  predicate PreparedAvailable(s: State, remaining: seq<Module>, prepared: seq<Prepared>) {
    AllPreparing(s, prepared) ==>
      var available := Live(s) + PreparedNames(prepared) + Names(remaining);
      && (forall i :: 0 <= i < |prepared| ==> DependsWithin(prepared[i].current, available))
      && (forall i :: 0 <= i < |remaining| ==> DependsWithin(remaining[i], available))
  }

  predicate PreparedWell(s: State, remaining: seq<Module>, prepared: seq<Prepared>) {
    NamesApart(remaining, prepared) && PreparedUnbound(s, prepared) && PreparedAvailable(s, remaining, prepared)
  }

  ghost predicate ControlWell(s: State) {
    match s.control
    case Idle => true
    case LoadingOne(current, generation) =>
      && Unbound(s, generation) && !IsActive(s, generation)
      && (IsPreparing(s, generation) ==> DependsWithin(current, Live(s) + {current.name}))
    case LoadingAll(remaining, prepared) => prepared != [] && PreparedWell(s, remaining, prepared)
    case CleaningUp(generations) => forall i :: 0 <= i < |generations| ==> Harmless(s, generations[i])
    case Disposing(remaining) =>
      Topological(s.loaded, Reversed(remaining)) && Names(Reversed(remaining)) == s.loaded.Keys
  }

  ghost predicate Invariant(s: State) {
    Bookkeeping(s) && Closed(s) && ControlWell(s)
  }

  // ---------- small effects ----------

  lemma {:induction false} ConstructEffect(s: State)
    requires Bookkeeping(s)
    ensures Bookkeeping(Construct(s)) && Live(Construct(s)) == Live(s)
    ensures Unbound(Construct(s), s.next) && IsPreparing(Construct(s), s.next)
    ensures forall generation :: Unbound(s, generation) ==> Unbound(Construct(s), generation)
  {
  }

  lemma {:induction false} InvalidateHarmless(s: State, generation: GenerationId)
    requires Bookkeeping(s) && Harmless(s, generation)
    ensures Bookkeeping(Invalidate(s, generation)) && Live(Invalidate(s, generation)) == Live(s)
    ensures Invalidate(s, generation).loaded == s.loaded && Invalidate(s, generation).generations == s.generations
    ensures forall other :: Harmless(s, other) ==> Harmless(Invalidate(s, generation), other)
  {
  }

  lemma {:induction false} CleanUpKeeps(s: State, generations: seq<GenerationId>)
    requires Bookkeeping(s) && Closed(s)
    requires forall i :: 0 <= i < |generations| ==> Harmless(s, generations[i])
    ensures Invariant(CleanUp(s, generations))
  {
    if generations != [] {
      InvalidateHarmless(s, generations[0]);
      var t := CleanUp(s, generations);
      forall i | 0 <= i < |generations[1..]| ensures Harmless(t, generations[1..][i]) {
        assert Harmless(s, generations[i + 1]);
      }
    }
  }

  /** Clearing the host disposes everything that is not disposed: nothing stays active. */
  lemma {:induction false} ClearKeeps(s: State)
    requires Invariant(s)
    ensures Invariant(Clear(s)) && Live(Clear(s)) == {}
  {
    var t := Clear(s);
    forall generation ensures !IsActive(t, generation) && !IsPreparing(t, generation) {
    }
    assert Live(t) == {};
    match s.control
    case LoadingAll(remaining, prepared) =>
      assert !IsPreparing(t, prepared[0].generation);
      assert !AllPreparing(t, prepared);
      forall i | 0 <= i < |prepared| ensures Unbound(t, prepared[i].generation) {
        assert Unbound(s, prepared[i].generation);
      }
    case _ =>
  }

  // ---------- adopting new generations ----------

  lemma {:induction false} AdoptKeepsBookkeeping(s: State, current: Module, generation: GenerationId)
    requires Bookkeeping(s) && Unbound(s, generation) && IsPreparing(s, generation)
    ensures Bookkeeping(Adopt(s, current, generation))
  {
  }

  lemma {:induction false} AdoptMakesLive(s: State, current: Module, generation: GenerationId)
    requires Bookkeeping(s) && Unbound(s, generation)
    ensures Live(Adopt(s, current, generation)) == Live(s) + {current.name}
  {
  }

  lemma {:induction false} AdoptEffect(s: State, current: Module, generation: GenerationId)
    requires Bookkeeping(s) && Unbound(s, generation) && IsPreparing(s, generation)
    ensures
      var t := Adopt(s, current, generation);
      && Bookkeeping(t) && Live(t) == Live(s) + {current.name}
      && (forall other :: Unbound(s, other) && other != generation ==> Unbound(t, other))
      && (current.name in s.generations ==> Unbound(t, s.generations[current.name]))
  {
    AdoptKeepsBookkeeping(s, current, generation);
    AdoptMakesLive(s, current, generation);
  }

  lemma {:induction false} FinishOneKeeps(s: State, current: Module, generation: GenerationId, mounts: bool)
    requires Bookkeeping(s) && Closed(s)
    requires Unbound(s, generation) && !IsActive(s, generation)
    requires IsPreparing(s, generation) ==> DependsWithin(current, Live(s) + {current.name})
    ensures Invariant(FinishOne(s, current, generation, mounts))
  {
    if IsPreparing(s, generation) && mounts {
      AdoptEffect(s, current, generation);
      var adopted, previous := Adopt(s, current, generation), Previous(s, current.name);
      assert Closed(adopted);
      if previous.Some? {
        InvalidateHarmless(adopted, previous.value);
        assert Closed(Invalidate(adopted, previous.value));
        CleanUpKeeps(Invalidate(adopted, previous.value), [previous.value]);
      } else {
        CleanUpKeeps(adopted, []);
      }
    } else {
      CleanUpKeeps(s, [generation]);
    }
  }

  ghost predicate Adoptable(s: State, prepared: seq<Prepared>) {
    UniquePrepared(prepared) && AllPreparing(s, prepared) &&
    forall i :: 0 <= i < |prepared| ==> Unbound(s, prepared[i].generation)
  }

  /** After the swap: the new names are live with their new modules, the rest is as it was, and the
      replaced generations are bound to nothing. */
  ghost predicate Swapped(s: State, prepared: seq<Prepared>, t: State) {
    SwappedModules(s, prepared, t) && SwappedBindings(s, prepared, t) && SwappedPhases(s, prepared, t)
  }

  ghost predicate SwappedModules(s: State, prepared: seq<Prepared>, t: State) {
    && Live(t) == Live(s) + PreparedNames(prepared)
    && (forall i :: 0 <= i < |prepared| ==>
         prepared[i].current.name in t.loaded && t.loaded[prepared[i].current.name] == prepared[i].current)
    && (forall name :: name in s.loaded && name !in PreparedNames(prepared) ==>
         name in t.loaded && t.loaded[name] == s.loaded[name])
  }

  ghost predicate SwappedBindings(s: State, prepared: seq<Prepared>, t: State) {
    && (forall generation :: Unbound(s, generation) && generation !in Generations(prepared) ==> Unbound(t, generation))
    && (forall name :: name in s.generations && name !in PreparedNames(prepared) ==>
         name in t.generations && t.generations[name] == s.generations[name])
    && (forall name :: name in s.generations && name in PreparedNames(prepared) ==> Unbound(t, s.generations[name]))
  }

  ghost predicate SwappedPhases(s: State, prepared: seq<Prepared>, t: State) {
    && (forall generation :: generation !in Generations(prepared) ==>
         (generation in t.phases <==> generation in s.phases) &&
         (generation in s.phases ==> t.phases[generation] == s.phases[generation]))
  }

  lemma {:induction false} PreparedSnoc(prepared: seq<Prepared>)
    requires prepared != []
    ensures
      var init, last := prepared[..|prepared| - 1], prepared[|prepared| - 1];
      && Generations(prepared) == Generations(init) + {last.generation}
      && PreparedNames(prepared) == PreparedNames(init) + {last.current.name}
      && (UniquePrepared(prepared) ==>
            UniquePrepared(init) && last.generation !in Generations(init) && last.current.name !in PreparedNames(init))
  {
    var init, last := prepared[..|prepared| - 1], prepared[|prepared| - 1];
    forall g | g in Generations(prepared) ensures g in Generations(init) + {last.generation} {
      var i :| 0 <= i < |prepared| && prepared[i].generation == g;
      if i < |init| { assert init[i].generation == g; }
    }
    forall n | n in PreparedNames(prepared) ensures n in PreparedNames(init) + {last.current.name} {
      var i :| 0 <= i < |prepared| && prepared[i].current.name == n;
      if i < |init| { assert init[i].current.name == n; }
    }
    forall i | 0 <= i < |init|
      ensures init[i].generation in Generations(prepared) && init[i].current.name in PreparedNames(prepared)
    {
      assert prepared[i] == init[i];
    }
  }

  lemma {:induction false} SwapStepModules(s: State, prepared: seq<Prepared>, middle: State, t: State)
    requires prepared != [] && UniquePrepared(prepared)
    requires SwappedModules(s, prepared[..|prepared| - 1], middle)
    requires t == Adopt(middle, prepared[|prepared| - 1].current, prepared[|prepared| - 1].generation)
    requires Live(t) == Live(middle) + {prepared[|prepared| - 1].current.name}
    ensures SwappedModules(s, prepared, t)
  {
    PreparedSnoc(prepared);
    var init := prepared[..|prepared| - 1];
    forall i | 0 <= i < |prepared|
      ensures prepared[i].current.name in t.loaded && t.loaded[prepared[i].current.name] == prepared[i].current
    {
      if i < |init| { assert init[i] == prepared[i]; }
    }
  }

  lemma {:induction false} SwapStepBindings(s: State, prepared: seq<Prepared>, middle: State, t: State)
    requires prepared != [] && UniquePrepared(prepared)
    requires Unbound(s, prepared[|prepared| - 1].generation)
    requires SwappedBindings(s, prepared[..|prepared| - 1], middle) && SwappedPhases(s, prepared[..|prepared| - 1], middle)
    requires t == Adopt(middle, prepared[|prepared| - 1].current, prepared[|prepared| - 1].generation)
    requires forall other :: Unbound(middle, other) && other != prepared[|prepared| - 1].generation ==> Unbound(t, other)
    requires prepared[|prepared| - 1].current.name in middle.generations ==>
               Unbound(t, middle.generations[prepared[|prepared| - 1].current.name])
    ensures SwappedBindings(s, prepared, t) && SwappedPhases(s, prepared, t)
  {
    PreparedSnoc(prepared);
  }

  lemma {:induction false} SwapStep(s: State, prepared: seq<Prepared>, middle: State, t: State)
    requires prepared != [] && Adoptable(s, prepared)
    requires Bookkeeping(middle) && Swapped(s, prepared[..|prepared| - 1], middle)
    requires t == Adopt(middle, prepared[|prepared| - 1].current, prepared[|prepared| - 1].generation)
    ensures Bookkeeping(t) && Swapped(s, prepared, t)
  {
    var last := prepared[|prepared| - 1];
    PreparedSnoc(prepared);
    assert Unbound(s, prepared[|prepared| - 1].generation) && IsPreparing(s, prepared[|prepared| - 1].generation);
    AdoptEffect(middle, last.current, last.generation);
    SwapStepModules(s, prepared, middle, t);
    SwapStepBindings(s, prepared, middle, t);
  }

  lemma {:induction false} AdoptAllSwaps(s: State, prepared: seq<Prepared>)
    requires Bookkeeping(s) && Adoptable(s, prepared)
    ensures Bookkeeping(AdoptAll(s, prepared)) && Swapped(s, prepared, AdoptAll(s, prepared))
  {
    if prepared != [] {
      var init := prepared[..|prepared| - 1];
      PreparedSnoc(prepared);
      assert Adoptable(s, init);
      AdoptAllSwaps(s, init);
      SwapStep(s, prepared, AdoptAll(s, init), AdoptAll(s, prepared));
    }
  }

  lemma {:induction false} SwapKeepsClosed(s: State, prepared: seq<Prepared>, t: State)
    requires Closed(s) && Swapped(s, prepared, t)
    requires forall i :: 0 <= i < |prepared| ==> DependsWithin(prepared[i].current, Live(s) + PreparedNames(prepared))
    ensures Closed(t)
  {
    forall name, k | name in Live(t) && 0 <= k < |t.loaded[name].dependencies|
      ensures t.loaded[name].dependencies[k] in Live(t)
    {
      if name in PreparedNames(prepared) {
        var i :| 0 <= i < |prepared| && prepared[i].current.name == name;
        assert DependsWithin(prepared[i].current, Live(s) + PreparedNames(prepared));
      } else {
        assert name in Live(s);
      }
    }
  }

  lemma {:induction false} InvalidateAllHarmless(s: State, prepared: seq<Prepared>)
    requires Bookkeeping(s)
    requires forall i :: 0 <= i < |prepared| && prepared[i].previous.Some? ==> Harmless(s, prepared[i].previous.value)
    ensures
      var t := InvalidateAll(s, prepared);
      && Bookkeeping(t) && Live(t) == Live(s) && t.loaded == s.loaded
      && (forall other :: Harmless(s, other) ==> Harmless(t, other))
  {
    if prepared != [] {
      var init, last := prepared[..|prepared| - 1], prepared[|prepared| - 1];
      forall i | 0 <= i < |init| && init[i].previous.Some? ensures Harmless(s, init[i].previous.value) {
        assert init[i] == prepared[i];
      }
      InvalidateAllHarmless(s, init);
      if last.previous.Some? {
        assert Harmless(s, prepared[|prepared| - 1].previous.value);
        InvalidateHarmless(InvalidateAll(s, init), last.previous.value);
      }
    }
  }

  lemma {:induction false} PreviousMembers(prepared: seq<Prepared>, g: GenerationId)
    requires g in PreviousBackwards(prepared)
    ensures exists i :: 0 <= i < |prepared| && prepared[i].previous == Some(g)
  {
    var init, last := prepared[..|prepared| - 1], prepared[|prepared| - 1];
    if last.previous != Some(g) {
      PreviousMembers(init, g);
      var i :| 0 <= i < |init| && init[i].previous == Some(g);
      assert prepared[i].previous == Some(g);
    } else {
      assert prepared[|prepared| - 1].previous == Some(g);
    }
  }

  lemma {:induction false} GenerationMembers(prepared: seq<Prepared>, g: GenerationId)
    requires g in GenerationsBackwards(prepared)
    ensures exists i :: 0 <= i < |prepared| && prepared[i].generation == g
  {
    var init, last := prepared[..|prepared| - 1], prepared[|prepared| - 1];
    if last.generation != g {
      GenerationMembers(init, g);
      var i :| 0 <= i < |init| && init[i].generation == g;
      assert prepared[i].generation == g;
    } else {
      assert prepared[|prepared| - 1].generation == g;
    }
  }

  lemma {:induction false} FailedBatchKeeps(s: State, prepared: seq<Prepared>)
    requires Bookkeeping(s) && Closed(s)
    requires forall i :: 0 <= i < |prepared| ==> !IsActive(s, prepared[i].generation)
    ensures Invariant(CleanUp(s, GenerationsBackwards(prepared)))
  {
    var failed := GenerationsBackwards(prepared);
    forall i | 0 <= i < |failed| ensures Harmless(s, failed[i]) {
      GenerationMembers(prepared, failed[i]);
    }
    CleanUpKeeps(s, failed);
  }

  lemma {:induction false} FinishBatchKeeps(s: State, prepared: seq<Prepared>, mounts: bool)
    requires Bookkeeping(s) && Closed(s) && PreparedWell(s, [], prepared)
    ensures Invariant(FinishBatch(s, prepared, mounts))
  {
    if AllPreparing(s, prepared) && mounts {
      MountedBatchKeeps(s, prepared);
    } else {
      FailedBatchKeeps(s, prepared);
    }
  }

  lemma {:induction false} MountedBatchKeeps(s: State, prepared: seq<Prepared>)
    requires Bookkeeping(s) && Closed(s) && PreparedWell(s, [], prepared) && AllPreparing(s, prepared)
    ensures Invariant(FinishBatch(s, prepared, true))
  {
    var adopted := AdoptAll(s, prepared);
    AdoptAllSwaps(s, prepared);
    assert Live(s) + PreparedNames(prepared) + Names([]) == Live(s) + PreparedNames(prepared);
    SwapKeepsClosed(s, prepared, adopted);
    forall i | 0 <= i < |prepared| && prepared[i].previous.Some?
      ensures Harmless(adopted, prepared[i].previous.value)
    {
      assert prepared[i].current.name in PreparedNames(prepared);
    }
    RetiringKeeps(adopted, prepared);
  }

  lemma {:induction false} RetiringKeeps(adopted: State, prepared: seq<Prepared>)
    requires Bookkeeping(adopted) && Closed(adopted)
    requires forall i :: 0 <= i < |prepared| && prepared[i].previous.Some? ==>
               Harmless(adopted, prepared[i].previous.value)
    ensures Invariant(CleanUp(InvalidateAll(adopted, prepared), PreviousBackwards(prepared)))
  {
    InvalidateAllHarmless(adopted, prepared);
    var replaced, retired := InvalidateAll(adopted, prepared), PreviousBackwards(prepared);
    forall i | 0 <= i < |retired| ensures Harmless(replaced, retired[i]) {
      PreviousMembers(prepared, retired[i]);
    }
    assert Closed(replaced);
    CleanUpKeeps(replaced, retired);
  }

  lemma {:induction false} NamesSplit(modules: seq<Module>)
    requires modules != []
    ensures Names(modules) == Names(modules[1..]) + {modules[0].name}
  {
    var rest := modules[1..];
    forall i | 0 <= i < |rest| ensures rest[i].name in Names(modules) { assert modules[i + 1] == rest[i]; }
    forall n | n in Names(modules) ensures n in Names(rest) + {modules[0].name} {
      var i :| 0 <= i < |modules| && modules[i].name == n;
      if i > 0 { assert rest[i - 1] == modules[i]; }
    }
  }

  lemma {:induction false} PreparedWider(s: State, t: State, remaining: seq<Module>, prepared: seq<Prepared>, longer: seq<Prepared>)
    requires PreparedWell(s, remaining, prepared) && remaining != [] && Bookkeeping(s)
    requires t == Construct(s).(control := t.control) && Live(t) == Live(s)
    requires longer == prepared + [Prepared(remaining[0], s.next, Previous(s, remaining[0].name))]
    ensures PreparedAvailable(t, remaining[1..], longer)
  {
    assert longer[..|longer| - 1] == prepared;
    PreparedSnoc(longer);
    NamesSplit(remaining);
    if AllPreparing(t, longer) {
      forall i | 0 <= i < |prepared| ensures IsPreparing(s, prepared[i].generation) {
        assert longer[i] == prepared[i] && IsPreparing(t, longer[i].generation) && Unbound(s, prepared[i].generation);
      }
      var available := Live(s) + PreparedNames(prepared) + Names(remaining);
      assert available == Live(t) + PreparedNames(longer) + Names(remaining[1..]);
      assert DependsWithin(remaining[0], available);
      forall i | 0 <= i < |longer| ensures DependsWithin(longer[i].current, available) {
        if i < |prepared| { assert longer[i] == prepared[i]; }
      }
      assert forall i :: 0 <= i < |remaining[1..]| ==> remaining[1..][i] == remaining[i + 1];
    }
  }

  lemma {:induction false} NamesStayApart(remaining: seq<Module>, prepared: seq<Prepared>, next: Prepared)
    requires NamesApart(remaining, prepared) && remaining != [] && next.current == remaining[0]
    requires forall i :: 0 <= i < |prepared| ==> prepared[i].generation != next.generation
    ensures NamesApart(remaining[1..], prepared + [next])
  {
    assert forall i :: 0 <= i < |remaining[1..]| ==> remaining[1..][i] == remaining[i + 1];
  }

  lemma {:induction false} PreparedStayUnbound(s: State, prepared: seq<Prepared>, current: Module, control: Control)
    requires Bookkeeping(s) && PreparedUnbound(s, prepared)
    ensures PreparedUnbound(Construct(s).(control := control), prepared + [Prepared(current, s.next, Previous(s, current.name))])
  {
    var t := Construct(s).(control := control);
    forall i | 0 <= i < |prepared| ensures Unbound(t, prepared[i].generation) && !IsActive(t, prepared[i].generation) {
      assert Unbound(s, prepared[i].generation);
    }
  }

  lemma {:induction false} PrepareNextKeeps(s: State, remaining: seq<Module>, prepared: seq<Prepared>)
    requires Bookkeeping(s) && Closed(s) && PreparedWell(s, remaining, prepared) && remaining != []
    ensures Invariant(PrepareNext(s, remaining, prepared))
  {
    ConstructEffect(s);
    var t := PrepareNext(s, remaining, prepared);
    var next := Prepared(remaining[0], s.next, Previous(s, remaining[0].name));
    assert Bookkeeping(t) && Closed(t);
    forall i | 0 <= i < |prepared| ensures prepared[i].generation != s.next {
      assert Unbound(s, prepared[i].generation);
    }
    PreparedWider(s, t, remaining, prepared, prepared + [next]);
    NamesStayApart(remaining, prepared, next);
    PreparedStayUnbound(s, prepared, remaining[0], t.control);
  }

  // ---------- starting operations ----------

  lemma {:induction false} CombinedHolds(s: State, modules: seq<Module>)
    ensures Combined(s, modules).Keys == Live(s) + Names(modules)
  {
    if modules == [] {
      assert LiveModules(s).Keys == Live(s);
    } else {
      CombinedHolds(s, modules[..|modules| - 1]);
      NamesSnoc(modules[..|modules| - 1], modules[|modules| - 1]);
      InitAndLast(modules);
    }
  }

  lemma {:induction false} CombinedFinds(s: State, modules: seq<Module>, i: nat)
    requires UniqueModules(modules) && i < |modules|
    ensures modules[i].name in Combined(s, modules) && Combined(s, modules)[modules[i].name] == modules[i]
  {
    if i < |modules| - 1 {
      CombinedFinds(s, modules[..|modules| - 1], i);
    }
  }

  lemma {:induction false} SameNames(a: seq<Module>, b: seq<Module>)
    requires multiset(a) == multiset(b)
    ensures Names(a) == Names(b) && forall current :: current in a <==> current in b
  {
    forall current ensures current in a <==> current in b {
      assert current in a <==> current in multiset(a);
      assert current in b <==> current in multiset(b);
    }
    forall i | 0 <= i < |a| ensures a[i].name in Names(b) { assert a[i] in b; }
    forall i | 0 <= i < |b| ensures b[i].name in Names(a) { assert b[i] in a; }
  }

  /** The check at the start makes everything a batch depends on available. */
  lemma {:induction false} BatchStartsWell(s: State, modules: seq<Module>, order: seq<Module>)
    requires UniqueModules(modules) && Orderable(Combined(s, modules))
    requires UniqueModules(order) && multiset(order) == multiset(modules)
    ensures PreparedWell(s, order, [])
  {
    CombinedHolds(s, modules);
    SameNames(order, modules);
    var available := Live(s) + PreparedNames([]) + Names(order);
    forall i | 0 <= i < |order| ensures DependsWithin(order[i], available) {
      assert order[i] in modules;
      var j :| 0 <= j < |modules| && modules[j] == order[i];
      CombinedFinds(s, modules, j);
    }
  }

  lemma {:induction false} StartLoadKeeps(s: State, current: Module)
    requires Invariant(s) && s.control.Idle? && Orderable(LiveModules(s)[current.name := current])
    ensures Invariant(Construct(s).(control := LoadingOne(current, s.next)))
  {
    ConstructEffect(s);
    var combined := LiveModules(s)[current.name := current];
    assert combined.Keys == Live(s) + {current.name};
    assert combined[current.name] == current;
  }

  /** Unloading removes one name that no active extension depends on. */
  lemma {:induction false} RemoveEffect(s: State, name: Name)
    requires Bookkeeping(s)
    ensures Bookkeeping(Remove(s, name)) && Live(Remove(s, name)) == Live(s) - {name}
    ensures Remove(s, name).loaded == s.loaded - {name}
  {
  }

  lemma {:induction false} RemoveKeepsClosed(s: State, name: Name)
    requires Bookkeeping(s) && Closed(s) && !HasDependent(s, name)
    ensures Closed(Remove(s, name))
  {
    RemoveEffect(s, name);
  }

  // ---------- disposing everything, dependents first ----------

  /** Nothing depends on the last module of a topological order, and without it the rest is one. */
  lemma {:induction false} NothingNeedsLast(modules: Modules, ordered: seq<Module>)
    requires ordered != [] && Topological(modules, ordered) && Names(ordered) == modules.Keys
    ensures forall name :: name in modules ==> ordered[|ordered| - 1].name !in modules[name].dependencies
  {
    var last := ordered[|ordered| - 1];
    forall name | name in modules ensures last.name !in modules[name].dependencies {
      var i := Position(ordered, name);
      assert Supported(ordered, i);
      forall k | 0 <= k < |ordered[i].dependencies| ensures ordered[i].dependencies[k] != last.name {
        assert Before(ordered, i, ordered[i].dependencies[k]);
      }
    }
  }

  lemma {:induction false} InitStaysOrdered(modules: Modules, ordered: seq<Module>)
    requires ordered != [] && Topological(modules, ordered)
    ensures Topological(modules - {ordered[|ordered| - 1].name}, ordered[..|ordered| - 1])
  {
    var init := ordered[..|ordered| - 1];
    forall i | 0 <= i < |init| ensures Supported(init, i) {
      assert Supported(ordered, i);
      forall k | 0 <= k < |init[i].dependencies| ensures Before(init, i, init[i].dependencies[k]) {
        assert Before(ordered, i, ordered[i].dependencies[k]);
        var j :| 0 <= j < i && ordered[j].name == ordered[i].dependencies[k];
        assert init[j].name == init[i].dependencies[k];
      }
    }
  }

  lemma {:induction false} InitNames(modules: Modules, ordered: seq<Module>)
    requires ordered != [] && Topological(modules, ordered) && Names(ordered) == modules.Keys
    ensures Names(ordered[..|ordered| - 1]) == (modules - {ordered[|ordered| - 1].name}).Keys
  {
    var init, last := ordered[..|ordered| - 1], ordered[|ordered| - 1];
    InitAndLast(ordered);
    NamesSnoc(init, last);
    assert last.name !in Names(init) by {
      forall i | 0 <= i < |init| ensures init[i].name != last.name {
        assert ordered[i] == init[i];
      }
    }
  }

  lemma {:induction false} LastHasNoDependents(modules: Modules, ordered: seq<Module>)
    requires ordered != []
    requires Topological(modules, ordered) && Names(ordered) == modules.Keys
    ensures
      var init, last := ordered[..|ordered| - 1], ordered[|ordered| - 1];
      && (forall name :: name in modules ==> last.name !in modules[name].dependencies)
      && Topological(modules - {last.name}, init) && Names(init) == (modules - {last.name}).Keys
  {
    NothingNeedsLast(modules, ordered);
    InitStaysOrdered(modules, ordered);
    InitNames(modules, ordered);
  }

  lemma {:induction false} RemoveLast(s: State, ordered: seq<Module>)
    requires Bookkeeping(s) && Closed(s) && ordered != []
    requires Topological(s.loaded, ordered) && Names(ordered) == s.loaded.Keys
    ensures
      var init, t := ordered[..|ordered| - 1], Remove(s, ordered[|ordered| - 1].name);
      && Bookkeeping(t) && Closed(t) && Topological(t.loaded, init) && Names(init) == t.loaded.Keys
  {
    LastHasNoDependents(s.loaded, ordered);
    RemoveEffect(s, ordered[|ordered| - 1].name);
    RemoveKeepsClosed(s, ordered[|ordered| - 1].name);
  }

  lemma {:induction false} Recontrolled(s: State, control: Control)
    requires Bookkeeping(s) && Closed(s)
    ensures Bookkeeping(s.(control := control)) && Closed(s.(control := control))
  {
    assert Live(s.(control := control)) == Live(s);
  }

  lemma {:induction false} DisposeNextKeeps(s: State, remaining: seq<Module>)
    requires Bookkeeping(s) && Closed(s)
    requires Topological(s.loaded, Reversed(remaining)) && Names(Reversed(remaining)) == s.loaded.Keys
    ensures Invariant(DisposeNext(s, remaining))
  {
    if remaining != [] {
      var first, rest := remaining[0], remaining[1..];
      ReversedSplit(remaining);
      Snoc(Reversed(rest), first);
      RemoveLast(s, Reversed(remaining));
      Recontrolled(Remove(s, first.name), Disposing(rest));
    } else {
      Recontrolled(s, Idle);
    }
  }

  // ---------- every step, every run ----------

  lemma {:induction false} StepKeepsInvariant(s: State, event: Event, t: State)
    requires Invariant(s) && Step(s, event, t)
    ensures Invariant(t)
  {
    match event
    case HostCleared => ClearKeeps(s);
    case StartLoad(current) =>
      if Orderable(LiveModules(s)[current.name := current]) { StartLoadKeeps(s, current); }
    case StartLoadAll(modules, order) =>
      if UniqueModules(modules) && Orderable(Combined(s, modules)) {
        BatchStartsWell(s, modules, order);
        if order == [] { FinishBatchKeeps(s, [], true); } else { PrepareNextKeeps(s, order, []); }
      }
    case StartUnload(name) =>
      if !HasDependent(s, name) {
        RemoveEffect(s, name);
        RemoveKeepsClosed(s, name);
      }
    case StartDispose(order) =>
      if Orderable(s.loaded) {
        ReversedTwice(order);
        DisposeNextKeeps(s, Reversed(order));
      }
    case FactoryReturned(mounts) => FactoryReturnKeeps(s, mounts, t);
    case FactoryThrew =>
      if s.control.LoadingOne? {
        CleanUpKeeps(s, [s.control.generation]);
      } else {
        FailedBatchKeeps(s, s.control.prepared);
      }
    case CleanupDone =>
      if s.control.CleaningUp? {
        CleanUpKeeps(s, s.control.generations);
      } else {
        DisposeNextKeeps(s, s.control.remaining);
      }
  }

  lemma {:induction false} FactoryReturnKeeps(s: State, mounts: bool, t: State)
    requires Invariant(s) && Step(s, FactoryReturned(mounts), t)
    ensures Invariant(t)
  {
    if s.control.LoadingOne? {
      FinishOneKeeps(s, s.control.current, s.control.generation, mounts);
    } else if s.control.remaining == [] {
      FinishBatchKeeps(s, s.control.prepared, mounts);
    } else {
      PrepareNextKeeps(s, s.control.remaining, s.control.prepared);
    }
  }

  ghost predicate Run(states: seq<State>, events: seq<Event>) {
    && |states| == |events| + 1 && states[0] == INITIAL
    && forall i :: 0 <= i < |events| ==> Step(states[i], events[i], states[i + 1])
  }

  /** In every reachable state, at every await point, the active extensions are closed under
      dependencies. */
  lemma {:induction false} ActiveSetIsAlwaysClosed(states: seq<State>, events: seq<Event>, i: nat)
    requires Run(states, events) && i < |states|
    ensures Invariant(states[i]) && Closed(states[i])
  {
    if i > 0 {
      ActiveSetIsAlwaysClosed(states, events, i - 1);
      assert Step(states[i - 1], events[i - 1], states[i]);
      StepKeepsInvariant(states[i - 1], events[i - 1], states[i]);
    }
  }

  // ---------- disposing after the host was cleared ----------

  const BASE := Module("base", [], true)
  const USER := Module("user", ["base"], true)

  const ONE_LOADING := State(map[1 := Preparing], {1}, map[], map[], 2, LoadingOne(BASE, 1))
  const ONE_LOADED := State(map[1 := Active], {1}, map["base" := 1], map["base" := BASE], 2, Idle)
  const TWO_LOADING := State(map[1 := Active, 2 := Preparing], {1, 2}, map["base" := 1], map["base" := BASE], 3,
                             LoadingOne(USER, 2))
  const TWO_LOADED := State(map[1 := Active, 2 := Active], {1, 2}, map["base" := 1, "user" := 2],
                            map["base" := BASE, "user" := USER], 3, Idle)
  const TWO_CLEARED := State(map[1 := Disposed, 2 := Disposed], {}, map["base" := 1, "user" := 2],
                             map["base" := BASE, "user" := USER], 3, Idle)
  const BASE_LEAVING := State(map[1 := Disposed, 2 := Disposed], {}, map["user" := 2], map["user" := USER], 3, CleaningUp([]))
  const BASE_LEFT := BASE_LEAVING.(control := Idle)

  const STRANDING := [StartLoad(BASE), FactoryReturned(true), StartLoad(USER), FactoryReturned(true), HostCleared,
                      StartUnload("base"), CleanupDone]

  lemma {:induction false} OrderIsOrderable(modules: Modules, ordered: seq<Module>)
    requires ValidModules(modules) && Topological(modules, ordered) && Names(ordered) == modules.Keys
    requires forall i :: 0 <= i < |ordered| ==> ordered[i].wellFormed
    ensures Orderable(modules)
  {
    OrderMeansAcyclic(modules, ordered);
    OrderMeansPresent(modules, ordered);
    forall name | name in modules ensures modules[name].wellFormed {
      var i := Position(ordered, name);
    }
  }

  lemma {:induction false} BothAreOrderable()
    ensures Orderable(map["base" := BASE]) && Orderable(map["base" := BASE, "user" := USER])
  {
    var both := map["base" := BASE, "user" := USER];
    assert both["base"] == BASE && both["user"] == USER;
    NamesSnoc([], BASE);
    NamesSnoc([BASE], USER);
    assert Supported([BASE], 0) && Supported([BASE, USER], 0);
    assert Before([BASE, USER], 1, "base") by { assert [BASE, USER][0].name == "base"; }
    assert Supported([BASE, USER], 1);
    OrderIsOrderable(map["base" := BASE], [BASE]);
    OrderIsOrderable(both, [BASE, USER]);
  }

  lemma {:induction false} BaseLoads()
    ensures Step(INITIAL, STRANDING[0], ONE_LOADING) && Step(ONE_LOADING, STRANDING[1], ONE_LOADED)
  {
    BothAreOrderable();
    assert LiveModules(INITIAL)["base" := BASE] == map["base" := BASE];
    assert Construct(INITIAL).(control := LoadingOne(BASE, 1)) == ONE_LOADING;
    assert FinishOne(ONE_LOADING, BASE, 1, true) == ONE_LOADED;
  }

  lemma {:induction false} UserStarts()
    ensures Step(ONE_LOADED, STRANDING[2], TWO_LOADING)
  {
    BothAreOrderable();
    assert LiveModules(ONE_LOADED)["user" := USER] == map["base" := BASE, "user" := USER];
    assert Construct(ONE_LOADED).(control := LoadingOne(USER, 2)) == TWO_LOADING;
  }

  lemma {:induction false} UserLoads()
    ensures Step(TWO_LOADING, STRANDING[3], TWO_LOADED) && Step(TWO_LOADED, STRANDING[4], TWO_CLEARED)
  {
    assert FinishOne(TWO_LOADING, USER, 2, true) == TWO_LOADED;
    assert Clear(TWO_LOADED) == TWO_CLEARED;
  }

  lemma {:induction false} BaseLeaves()
    ensures Step(TWO_CLEARED, STRANDING[5], BASE_LEAVING) && Step(BASE_LEAVING, STRANDING[6], BASE_LEFT)
  {
    assert Live(TWO_CLEARED) == {};
    assert Remove(TWO_CLEARED, "base").(control := CleaningUp([])) == BASE_LEAVING;
  }

  /** Unloading looks at active dependents only, disposing at all that are loaded: once the host was
      cleared, a dependency can go first, and the runner then refuses to dispose what is left.
      ExtensionDisposal has the exact condition. */
  lemma {:induction false} ClearedHostStrandsDependents()
    ensures Run([INITIAL, ONE_LOADING, ONE_LOADED, TWO_LOADING, TWO_LOADED, TWO_CLEARED, BASE_LEAVING, BASE_LEFT], STRANDING)
    ensures BASE_LEFT.loaded != map[] && BASE_LEFT.control.Idle?
    ensures forall order, t :: Step(BASE_LEFT, StartDispose(order), t) ==> t == BASE_LEFT
  {
    BaseLoads();
    UserStarts();
    UserLoads();
    BaseLeaves();
    UserIsStranded();
  }

  lemma {:induction false} UserIsStranded()
    ensures BASE_LEFT.loaded != map[] && BASE_LEFT.control.Idle? && !Orderable(BASE_LEFT.loaded)
  {
    assert "base" !in BASE_LEFT.loaded && BASE_LEFT.loaded["user"] == USER;
    assert USER.dependencies[0] == "base";
    assert !AllPresent(BASE_LEFT.loaded);
  }
}
