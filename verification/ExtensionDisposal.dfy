/** When the runner refuses to dispose what is loaded: exactly when a cleared host let a dependency
    go before an extension that needs it. */
module ExtensionDisposal {
  import opened Sequences
  import opened ExtensionOrder
  import opened ExtensionRunners

  /** What the dependency check established, without the presence of every dependency. */
  ghost predicate Sane(modules: Modules) {
    AllWellFormed(modules) && !HasCycle(modules)
  }

  /** `checked` is what the dependency check of a batch looked at. */
  ghost predicate Covers(s: State, remaining: seq<Module>, prepared: seq<Prepared>, checked: Modules) {
    && (forall i :: 0 <= i < |prepared| ==>
         prepared[i].current.name in checked && checked[prepared[i].current.name] == prepared[i].current)
    && (forall i :: 0 <= i < |remaining| ==>
         remaining[i].name in checked && checked[remaining[i].name] == remaining[i])
    && (forall name :: name in Live(s) && name !in PreparedNames(prepared) && name !in Names(remaining) ==>
         name in checked && checked[name] == s.loaded[name])
  }

  ghost predicate CheckedBatch(s: State, remaining: seq<Module>, prepared: seq<Prepared>) {
    AllPreparing(s, prepared) ==> exists checked :: Sane(checked) && Covers(s, remaining, prepared, checked)
  }

  /** What is being loaded was checked against what is live, as long as nothing was cleared. */
  ghost predicate ControlChecked(s: State) {
    match s.control
    case LoadingOne(current, generation) =>
      IsPreparing(s, generation) ==> Sane(LiveModules(s)[current.name := current])
    case LoadingAll(remaining, prepared) => CheckedBatch(s, remaining, prepared)
    case _ => true
  }

  ghost predicate OrderKept(s: State) {
    Sane(s.loaded) && ControlChecked(s)
  }

  // ---------- cycles ----------

  lemma {:induction false} PathStaysInside(modules: Modules, path: seq<Name>, inside: set<Name>, i: nat, j: nat)
    requires Path(modules, path) && i <= j < |path| && path[i] in inside
    requires forall name :: name in inside && name in modules ==>
               forall k :: 0 <= k < |modules[name].dependencies| ==> modules[name].dependencies[k] in inside
    ensures path[j] in inside
    decreases j - i
  {
    if i < j {
      assert path[i] in modules && path[i + 1] in modules[path[i]].dependencies;
      PathStaysInside(modules, path, inside, i + 1, j);
    }
  }

  /** Two acyclic pieces make an acyclic whole when the one is closed under dependencies. */
  lemma {:induction false} JoinedAcyclic(whole: Modules, inner: Modules, outer: Modules, inside: set<Name>)
    requires !HasCycle(inner) && !HasCycle(outer)
    requires forall name :: name in inside && name in whole ==>
               && name in inner && inner[name] == whole[name]
               && forall k :: 0 <= k < |whole[name].dependencies| ==> whole[name].dependencies[k] in inside
    requires forall name :: name in whole && name !in inside ==> name in outer && outer[name] == whole[name]
    ensures !HasCycle(whole)
  {
    forall name ensures !OnCycle(whole, name) {
      forall path: seq<Name> | |path| >= 2 && Path(whole, path) && path[0] == name && path[|path| - 1] == name
        ensures false
      {
        JoinedCycle(whole, inner, outer, inside, path);
      }
    }
  }

  lemma {:induction false} JoinedCycle(whole: Modules, inner: Modules, outer: Modules, inside: set<Name>, path: seq<Name>)
    requires forall name :: name in inside && name in whole ==>
               && name in inner && inner[name] == whole[name]
               && forall k :: 0 <= k < |whole[name].dependencies| ==> whole[name].dependencies[k] in inside
    requires forall name :: name in whole && name !in inside ==> name in outer && outer[name] == whole[name]
    requires |path| >= 2 && Path(whole, path) && path[0] == path[|path| - 1]
    ensures HasCycle(inner) || HasCycle(outer)
  {
    if path[0] in inside {
      forall i | 0 <= i < |path| - 1 ensures path[i] in inner && path[i + 1] in inner[path[i]].dependencies {
        PathStaysInside(whole, path, inside, 0, i);
      }
      assert Path(inner, path);
      assert OnCycle(inner, path[0]);
    } else {
      forall i | 0 <= i < |path| - 1 ensures path[i] in outer && path[i + 1] in outer[path[i]].dependencies {
        if path[i] in inside { PathStaysInside(whole, path, inside, i, |path| - 1); }
      }
      assert Path(outer, path);
      assert OnCycle(outer, path[0]);
    }
  }

  lemma {:induction false} FewerStaySane(modules: Modules, fewer: Modules)
    requires Sane(modules)
    requires forall name :: name in fewer ==> name in modules && fewer[name] == modules[name]
    ensures Sane(fewer)
  {
    JoinedAcyclic(fewer, modules, modules, {});
  }

  /** Putting checked modules over the live ones adds no cycle to what is loaded. */
  lemma {:induction false} AdoptedStaysSane(s: State, t: State, checked: Modules)
    requires Sane(s.loaded) && Sane(checked) && Closed(t)
    requires forall name :: name in Live(t) ==> name in checked && checked[name] == t.loaded[name]
    requires forall name :: name in t.loaded && name !in Live(t) ==> name in s.loaded && s.loaded[name] == t.loaded[name]
    ensures Sane(t.loaded)
  {
    JoinedAcyclic(t.loaded, checked, s.loaded, Live(t));
    forall name | name in t.loaded ensures t.loaded[name].wellFormed {
      if name in Live(t) { assert checked[name].wellFormed; }
    }
  }

  // ---------- every step keeps what is loaded orderable but for what is gone ----------

  lemma {:induction false} CleanUpLoaded(s: State, generations: seq<GenerationId>)
    ensures CleanUp(s, generations).loaded == s.loaded
    ensures CleanUp(s, generations).control.Idle? || CleanUp(s, generations).control.CleaningUp?
  {
  }

  lemma {:induction false} AdoptAllLoaded(s: State, prepared: seq<Prepared>)
    ensures AdoptAll(s, prepared).loaded.Keys == s.loaded.Keys + PreparedNames(prepared)
  {
    if prepared != [] {
      AdoptAllLoaded(s, prepared[..|prepared| - 1]);
      PreparedNamesSnoc(prepared);
    }
  }

  lemma {:induction false} PreparedNamesSnoc(prepared: seq<Prepared>)
    requires prepared != []
    ensures PreparedNames(prepared) == PreparedNames(prepared[..|prepared| - 1]) + {prepared[|prepared| - 1].current.name}
  {
    PreparedSnoc(prepared);
  }

  lemma {:induction false} InvalidateAllLoaded(s: State, prepared: seq<Prepared>)
    ensures InvalidateAll(s, prepared).loaded == s.loaded
  {
    if prepared != [] { InvalidateAllLoaded(s, prepared[..|prepared| - 1]); }
  }

  lemma {:induction false} FinishOneStaysSane(s: State, current: Module, generation: GenerationId, mounts: bool)
    requires Bookkeeping(s) && Closed(s) && Sane(s.loaded)
    requires Unbound(s, generation) && !IsActive(s, generation)
    requires IsPreparing(s, generation) ==> DependsWithin(current, Live(s) + {current.name})
    requires IsPreparing(s, generation) ==> Sane(LiveModules(s)[current.name := current])
    ensures OrderKept(FinishOne(s, current, generation, mounts))
  {
    if IsPreparing(s, generation) && mounts {
      AdoptEffect(s, current, generation);
      var t, previous := Adopt(s, current, generation), Previous(s, current.name);
      assert Closed(t);
      AdoptedStaysSane(s, t, LiveModules(s)[current.name := current]);
      CleanUpLoaded(InvalidatePrevious(t, previous), if previous.Some? then [previous.value] else []);
    } else {
      CleanUpLoaded(s, [generation]);
    }
  }

  lemma {:induction false} MountedBatchStaysSane(s: State, prepared: seq<Prepared>)
    requires Bookkeeping(s) && Closed(s) && PreparedWell(s, [], prepared) && AllPreparing(s, prepared)
    requires Sane(s.loaded) && CheckedBatch(s, [], prepared)
    ensures Sane(AdoptAll(s, prepared).loaded)
  {
    var t := AdoptAll(s, prepared);
    AdoptAllSwaps(s, prepared);
    AdoptAllLoaded(s, prepared);
    assert Live(s) + PreparedNames(prepared) + Names([]) == Live(s) + PreparedNames(prepared);
    SwapKeepsClosed(s, prepared, t);
    var checked :| Sane(checked) && Covers(s, [], prepared, checked);
    forall name | name in Live(t) ensures name in checked && checked[name] == t.loaded[name] {
      if name in PreparedNames(prepared) {
        var i :| 0 <= i < |prepared| && prepared[i].current.name == name;
      } else {
        assert name in Live(s) && name !in Names([]);
      }
    }
    AdoptedStaysSane(s, t, checked);
  }

  lemma {:induction false} FinishBatchStaysSane(s: State, prepared: seq<Prepared>, mounts: bool)
    requires Bookkeeping(s) && Closed(s) && PreparedWell(s, [], prepared)
    requires Sane(s.loaded) && CheckedBatch(s, [], prepared)
    ensures OrderKept(FinishBatch(s, prepared, mounts))
  {
    if AllPreparing(s, prepared) && mounts {
      MountedBatchStaysSane(s, prepared);
      InvalidateAllLoaded(AdoptAll(s, prepared), prepared);
      CleanUpLoaded(InvalidateAll(AdoptAll(s, prepared), prepared), PreviousBackwards(prepared));
    } else {
      CleanUpLoaded(s, GenerationsBackwards(prepared));
    }
  }

  lemma {:induction false} StartLoadStaysChecked(s: State, current: Module)
    requires Bookkeeping(s) && Sane(s.loaded) && Orderable(LiveModules(s)[current.name := current])
    ensures OrderKept(Construct(s).(control := LoadingOne(current, s.next)))
  {
    ConstructEffect(s);
    var t := Construct(s).(control := LoadingOne(current, s.next));
    assert Live(t) == Live(s);
    assert LiveModules(t) == LiveModules(s) by { LiveModulesFollow(s, t); }
  }

  lemma {:induction false} LiveModulesFollow(s: State, t: State)
    requires Live(t) == Live(s) && t.loaded == s.loaded
    ensures LiveModules(t) == LiveModules(s)
  {
    assert LiveModules(t).Keys == Live(t) && LiveModules(s).Keys == Live(s);
  }

  lemma {:induction false} CombinedKeepsLive(s: State, modules: seq<Module>, name: Name)
    requires name in Live(s) && name !in Names(modules)
    ensures name in Combined(s, modules) && Combined(s, modules)[name] == s.loaded[name]
  {
    if modules != [] {
      NamesSnoc(modules[..|modules| - 1], modules[|modules| - 1]);
      InitAndLast(modules);
      CombinedKeepsLive(s, modules[..|modules| - 1], name);
    }
  }

  lemma {:induction false} BatchStartsChecked(s: State, modules: seq<Module>, order: seq<Module>)
    requires UniqueModules(modules) && Orderable(Combined(s, modules)) && multiset(order) == multiset(modules)
    ensures CheckedBatch(s, order, [])
  {
    SameNames(order, modules);
    var checked := Combined(s, modules);
    forall i | 0 <= i < |order| ensures order[i].name in checked && checked[order[i].name] == order[i] {
      assert order[i] in modules;
      var j :| 0 <= j < |modules| && modules[j] == order[i];
      CombinedFinds(s, modules, j);
    }
    forall name | name in Live(s) && name !in PreparedNames([]) && name !in Names(order)
      ensures name in checked && checked[name] == s.loaded[name]
    {
      CombinedKeepsLive(s, modules, name);
    }
    assert Covers(s, order, [], checked);
  }

  lemma {:induction false} PrepareNextStaysChecked(s: State, remaining: seq<Module>, prepared: seq<Prepared>)
    requires Bookkeeping(s) && Sane(s.loaded) && remaining != []
    requires PreparedUnbound(s, prepared) && CheckedBatch(s, remaining, prepared)
    ensures OrderKept(PrepareNext(s, remaining, prepared))
  {
    ConstructEffect(s);
    var t := PrepareNext(s, remaining, prepared);
    assert Live(t) == Live(s);
    var longer := prepared + [Prepared(remaining[0], s.next, Previous(s, remaining[0].name))];
    if AllPreparing(t, longer) {
      forall i | 0 <= i < |prepared| ensures IsPreparing(s, prepared[i].generation) {
        assert longer[i] == prepared[i] && IsPreparing(t, longer[i].generation) && Unbound(s, prepared[i].generation);
      }
      var checked :| Sane(checked) && Covers(s, remaining, prepared, checked);
      CoversNext(s, t, remaining, prepared, longer, checked);
    }
  }

  lemma {:induction false} CoversNext(s: State, t: State, remaining: seq<Module>, prepared: seq<Prepared>,
                                      longer: seq<Prepared>, checked: Modules)
    requires remaining != [] && Covers(s, remaining, prepared, checked)
    requires Live(t) == Live(s) && t.loaded == s.loaded
    requires |longer| == |prepared| + 1 && longer[..|longer| - 1] == prepared && longer[|prepared|].current == remaining[0]
    ensures Covers(t, remaining[1..], longer, checked)
  {
    PreparedNamesSnoc(longer);
    NamesSplit(remaining);
    var rest := remaining[1..];
    assert forall i :: 0 <= i < |rest| ==> rest[i] == remaining[i + 1];
    forall i | 0 <= i < |longer|
      ensures longer[i].current.name in checked && checked[longer[i].current.name] == longer[i].current
    {
      if i < |prepared| { assert longer[i] == prepared[i]; }
    }
  }

  lemma {:induction false} ClearStaysChecked(s: State)
    requires Invariant(s) && OrderKept(s)
    ensures OrderKept(Clear(s))
  {
    var t := Clear(s);
    forall generation ensures !IsPreparing(t, generation) {
    }
    if s.control.LoadingAll? {
      assert !IsPreparing(t, s.control.prepared[0].generation);
      assert !AllPreparing(t, s.control.prepared);
    }
  }

  lemma {:induction false} DisposeNextStaysSane(s: State, remaining: seq<Module>)
    requires Bookkeeping(s) && Sane(s.loaded)
    ensures OrderKept(DisposeNext(s, remaining))
  {
    if remaining != [] {
      RemoveEffect(s, remaining[0].name);
      FewerStaySane(s.loaded, Remove(s, remaining[0].name).loaded);
    }
  }

  lemma {:induction false} StepStaysOrdered(s: State, event: Event, t: State)
    requires Invariant(s) && OrderKept(s) && Step(s, event, t)
    ensures OrderKept(t)
  {
    match event
    case HostCleared => ClearStaysChecked(s);
    case StartLoad(current) =>
      if Orderable(LiveModules(s)[current.name := current]) { StartLoadStaysChecked(s, current); }
    case StartLoadAll(modules, order) =>
      if UniqueModules(modules) && Orderable(Combined(s, modules)) {
        BatchStartsWell(s, modules, order);
        BatchStartsChecked(s, modules, order);
        if order == [] { FinishBatchStaysSane(s, [], true); } else { PrepareNextStaysChecked(s, order, []); }
      }
    case StartUnload(name) =>
      if !HasDependent(s, name) {
        RemoveEffect(s, name);
        FewerStaySane(s.loaded, Remove(s, name).loaded);
      }
    case StartDispose(order) =>
      if Orderable(s.loaded) { DisposeNextStaysSane(s, Reversed(order)); }
    case CleanupDone =>
      if s.control.CleaningUp? {
        CleanUpLoaded(s, s.control.generations);
      } else {
        DisposeNextStaysSane(s, s.control.remaining);
      }
    case _ => LoadingStaysOrdered(s, event, t);
  }

  lemma {:induction false} LoadingStaysOrdered(s: State, event: Event, t: State)
    requires Invariant(s) && OrderKept(s) && Step(s, event, t) && (event.FactoryReturned? || event.FactoryThrew?)
    ensures OrderKept(t)
  {
    if event.FactoryThrew? {
      if s.control.LoadingOne? {
        CleanUpLoaded(s, [s.control.generation]);
      } else {
        CleanUpLoaded(s, GenerationsBackwards(s.control.prepared));
      }
    } else if s.control.LoadingOne? {
      FinishOneStaysSane(s, s.control.current, s.control.generation, event.mounts);
    } else if s.control.remaining == [] {
      FinishBatchStaysSane(s, s.control.prepared, event.mounts);
    } else {
      PrepareNextStaysChecked(s, s.control.remaining, s.control.prepared);
    }
  }

  lemma {:induction false} AlwaysOrdered(states: seq<State>, events: seq<Event>, i: nat)
    requires Run(states, events) && i < |states|
    ensures OrderKept(states[i])
  {
    if i == 0 {
      FewerStaySane(map["base" := BASE], INITIAL.loaded) by { BothAreOrderable(); }
    } else {
      AlwaysOrdered(states, events, i - 1);
      ActiveSetIsAlwaysClosed(states, events, i - 1);
      assert Step(states[i - 1], events[i - 1], states[i]);
      StepStaysOrdered(states[i - 1], events[i - 1], states[i]);
    }
  }

  // ---------- when disposing is refused ----------

  /** A loaded but inactive extension needs one that is not loaded any more. */
  predicate Stranded(s: State) {
    exists name, needed ::
      name in s.loaded && name !in Live(s) && needed in s.loaded[name].dependencies && needed !in s.loaded
  }

  /** In every reachable state: the dependency check that `dispose` starts with fails exactly when an
      inactive extension is stranded. Nothing but a missing dependency ever makes it fail. */
  lemma {:induction false} DisposalRefusedExactly(states: seq<State>, events: seq<Event>, i: nat)
    requires Run(states, events) && i < |states|
    ensures !Orderable(states[i].loaded) <==> Stranded(states[i])
  {
    AlwaysOrdered(states, events, i);
    ActiveSetIsAlwaysClosed(states, events, i);
    var s := states[i];
    if !AllPresent(s.loaded) {
      var name, k :| name in s.loaded && 0 <= k < |s.loaded[name].dependencies| && s.loaded[name].dependencies[k] !in s.loaded;
      assert name !in Live(s);
      assert s.loaded[name].dependencies[k] in s.loaded[name].dependencies;
    }
    if Stranded(s) {
      var name, needed :|
        name in s.loaded && name !in Live(s) && needed in s.loaded[name].dependencies && needed !in s.loaded;
      var k :| 0 <= k < |s.loaded[name].dependencies| && s.loaded[name].dependencies[k] == needed;
      assert s.loaded[name].dependencies[k] !in s.loaded;
    }
  }

  /** Everything loaded is active. */
  predicate AllLive(s: State) {
    Live(s) == s.loaded.Keys
  }

  lemma {:induction false} CleanUpKeepsLive(s: State, generations: seq<GenerationId>)
    requires Bookkeeping(s) && AllLive(s)
    requires forall i :: 0 <= i < |generations| ==> Harmless(s, generations[i])
    ensures AllLive(CleanUp(s, generations))
  {
    if generations != [] {
      InvalidateHarmless(s, generations[0]);
      assert Live(CleanUp(s, generations)) == Live(s);
    } else {
      assert Live(CleanUp(s, generations)) == Live(s);
    }
  }

  lemma {:induction false} FinishOneKeepsLive(s: State, current: Module, generation: GenerationId, mounts: bool)
    requires Bookkeeping(s) && AllLive(s) && Unbound(s, generation) && !IsActive(s, generation)
    ensures AllLive(FinishOne(s, current, generation, mounts))
  {
    if IsPreparing(s, generation) && mounts {
      AdoptEffect(s, current, generation);
      var adopted, previous := Adopt(s, current, generation), Previous(s, current.name);
      if previous.Some? {
        InvalidateHarmless(adopted, previous.value);
        CleanUpKeepsLive(Invalidate(adopted, previous.value), [previous.value]);
      } else {
        CleanUpKeepsLive(adopted, []);
      }
    } else {
      CleanUpKeepsLive(s, [generation]);
    }
  }

  lemma {:induction false} FailedBatchKeepsLive(s: State, prepared: seq<Prepared>)
    requires Bookkeeping(s) && AllLive(s)
    requires forall i :: 0 <= i < |prepared| ==> !IsActive(s, prepared[i].generation)
    ensures AllLive(CleanUp(s, GenerationsBackwards(prepared)))
  {
    var failed := GenerationsBackwards(prepared);
    forall i | 0 <= i < |failed| ensures Harmless(s, failed[i]) {
      GenerationMembers(prepared, failed[i]);
    }
    CleanUpKeepsLive(s, failed);
  }

  lemma {:induction false} FinishBatchKeepsLive(s: State, prepared: seq<Prepared>, mounts: bool)
    requires Bookkeeping(s) && AllLive(s) && PreparedWell(s, [], prepared)
    ensures AllLive(FinishBatch(s, prepared, mounts))
  {
    if AllPreparing(s, prepared) && mounts {
      var adopted := AdoptAll(s, prepared);
      AdoptAllSwaps(s, prepared);
      AdoptAllLoaded(s, prepared);
      forall i | 0 <= i < |prepared| && prepared[i].previous.Some?
        ensures Harmless(adopted, prepared[i].previous.value)
      {
        assert prepared[i].current.name in PreparedNames(prepared);
      }
      RetiringKeepsLive(adopted, prepared);
    } else {
      FailedBatchKeepsLive(s, prepared);
    }
  }

  lemma {:induction false} RetiringKeepsLive(adopted: State, prepared: seq<Prepared>)
    requires Bookkeeping(adopted) && AllLive(adopted)
    requires forall i :: 0 <= i < |prepared| && prepared[i].previous.Some? ==>
               Harmless(adopted, prepared[i].previous.value)
    ensures AllLive(CleanUp(InvalidateAll(adopted, prepared), PreviousBackwards(prepared)))
  {
    InvalidateAllHarmless(adopted, prepared);
    var replaced, retired := InvalidateAll(adopted, prepared), PreviousBackwards(prepared);
    forall i | 0 <= i < |retired| ensures Harmless(replaced, retired[i]) {
      PreviousMembers(prepared, retired[i]);
    }
    CleanUpKeepsLive(replaced, retired);
  }

  lemma {:induction false} ConstructKeepsLive(s: State, control: Control)
    requires Bookkeeping(s) && AllLive(s)
    ensures AllLive(Construct(s).(control := control))
  {
    ConstructEffect(s);
    assert Live(Construct(s).(control := control)) == Live(Construct(s));
  }

  lemma {:induction false} RemoveKeepsLive(s: State, name: Name, control: Control)
    requires Bookkeeping(s) && AllLive(s)
    ensures AllLive(Remove(s, name).(control := control))
  {
    RemoveEffect(s, name);
    assert Live(Remove(s, name).(control := control)) == Live(Remove(s, name));
  }

  lemma {:induction false} DisposeNextKeepsLive(s: State, remaining: seq<Module>)
    requires Bookkeeping(s) && AllLive(s)
    ensures AllLive(DisposeNext(s, remaining))
  {
    if remaining == [] {
      assert Live(DisposeNext(s, remaining)) == Live(s);
    } else {
      RemoveKeepsLive(s, remaining[0].name, Disposing(remaining[1..]));
    }
  }

  lemma {:induction false} StepKeepsLive(s: State, event: Event, t: State)
    requires Invariant(s) && AllLive(s) && Step(s, event, t) && !event.HostCleared?
    ensures AllLive(t)
  {
    match event
    case StartLoad(current) =>
      if t != s { ConstructKeepsLive(s, LoadingOne(current, s.next)); }
    case StartLoadAll(modules, order) =>
      if UniqueModules(modules) && Orderable(Combined(s, modules)) {
        BatchStartsWell(s, modules, order);
        if order == [] { FinishBatchKeepsLive(s, [], true); } else { ConstructKeepsLive(s, t.control); }
      }
    case StartUnload(name) =>
      if !HasDependent(s, name) { RemoveKeepsLive(s, name, t.control); }
    case StartDispose(order) =>
      if Orderable(s.loaded) { DisposeNextKeepsLive(s, Reversed(order)); }
    case CleanupDone =>
      if s.control.CleaningUp? {
        CleanUpKeepsLive(s, s.control.generations);
      } else {
        DisposeNextKeepsLive(s, s.control.remaining);
      }
    case _ => LoadingKeepsLive(s, event, t);
  }

  lemma {:induction false} LoadingKeepsLive(s: State, event: Event, t: State)
    requires Invariant(s) && AllLive(s) && Step(s, event, t) && (event.FactoryReturned? || event.FactoryThrew?)
    ensures AllLive(t)
  {
    if event.FactoryThrew? {
      if s.control.LoadingOne? {
        CleanUpKeepsLive(s, [s.control.generation]);
      } else {
        FailedBatchKeepsLive(s, s.control.prepared);
      }
    } else if s.control.LoadingOne? {
      FinishOneKeepsLive(s, s.control.current, s.control.generation, event.mounts);
    } else if s.control.remaining == [] {
      FinishBatchKeepsLive(s, s.control.prepared, event.mounts);
    } else {
      ConstructKeepsLive(s, t.control);
    }
  }

  lemma {:induction false} UnclearedIsAllLive(states: seq<State>, events: seq<Event>, i: nat)
    requires Run(states, events) && i < |states|
    requires forall k :: 0 <= k < i ==> !events[k].HostCleared?
    ensures AllLive(states[i])
  {
    if i > 0 {
      UnclearedIsAllLive(states, events, i - 1);
      ActiveSetIsAlwaysClosed(states, events, i - 1);
      assert Step(states[i - 1], events[i - 1], states[i]);
      StepKeepsLive(states[i - 1], events[i - 1], states[i]);
    }
  }

  /** Unless the host was cleared, everything loaded is active and disposing is never refused. */
  lemma {:induction false} OnlyClearingStrands(states: seq<State>, events: seq<Event>, i: nat)
    requires Run(states, events) && i < |states|
    requires forall k :: 0 <= k < i ==> !events[k].HostCleared?
    ensures Live(states[i]) == states[i].loaded.Keys && Orderable(states[i].loaded)
  {
    UnclearedIsAllLive(states, events, i);
    DisposalRefusedExactly(states, events, i);
  }
}
