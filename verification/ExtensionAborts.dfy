/** What listeners of an abort signal can see: they run at once, inside the synchronous part of an
    operation, between two awaits. */
module ExtensionAborts {
  import opened Sequences
  import opened ExtensionOrder
  import opened ExtensionRunners

  /** Generations invalidated one by one, the listeners of each running before the next. */
  function InvalidateEach(s: State, generations: seq<GenerationId>): State {
    if generations == [] then s
    else Invalidate(InvalidateEach(s, generations[..|generations| - 1]), generations[|generations| - 1])
  }

  lemma {:induction false} InvalidateEachEffect(s: State, generations: seq<GenerationId>)
    ensures
      var t := InvalidateEach(s, generations);
      && t == s.(phases := t.phases, invalidators := t.invalidators)
      && t.phases.Keys == s.phases.Keys
      && (forall g :: g in s.phases ==> t.phases[g] == if g in generations then Disposed else s.phases[g])
      && (forall g :: g in t.invalidators <==> g in s.invalidators && g !in generations)
  {
    if generations != [] {
      InitAndLast(generations);
      InvalidateEachEffect(s, generations[..|generations| - 1]);
    }
  }

  /** Aborting these generations spares nobody who needs one of them. */
  predicate TakesDependents(s: State, generations: seq<GenerationId>) {
    forall name, needed :: name in Live(s) && needed in Live(s) && needed in s.loaded[name].dependencies ==>
      (s.generations[needed] in generations ==> s.generations[name] in generations)
  }

  /** The state in which the listeners of the last of them run: the active set is closed exactly
      when the generations aborted so far include those of every dependent. */
  lemma {:induction false} InvalidatedClosedExactly(s: State, generations: seq<GenerationId>)
    requires Bookkeeping(s) && Closed(s)
    ensures Closed(InvalidateEach(s, generations)) <==> TakesDependents(s, generations)
  {
    var t := InvalidateEach(s, generations);
    InvalidateEachEffect(s, generations);
    LiveAfterwards(s, generations);
    if Closed(t) {
      forall name, needed |
        name in Live(s) && needed in Live(s) && needed in s.loaded[name].dependencies && s.generations[needed] in generations
        ensures s.generations[name] in generations
      {
        var k :| 0 <= k < |s.loaded[name].dependencies| && s.loaded[name].dependencies[k] == needed;
        assert needed !in Live(t);
        assert t.loaded[name].dependencies[k] == needed;
      }
    } else {
      var name, k :| name in Live(t) && 0 <= k < |t.loaded[name].dependencies| && t.loaded[name].dependencies[k] !in Live(t);
      var needed := t.loaded[name].dependencies[k];
      assert needed in Live(s) && needed in s.loaded[name].dependencies;
      assert s.generations[needed] in generations && s.generations[name] !in generations;
    }
  }

  lemma {:induction false} LiveAfterwards(s: State, generations: seq<GenerationId>)
    ensures forall name ::
      name in Live(InvalidateEach(s, generations)) <==> name in Live(s) && s.generations[name] !in generations
  {
    InvalidateEachEffect(s, generations);
  }

  /** Clearing the host is such a sequence over everything that is fenced, so that its listeners see
      the states after each prefix of it. */
  lemma {:induction false} ClearIsStepwise(s: State, invalidators: seq<GenerationId>)
    requires forall g :: g in invalidators <==> g in s.invalidators
    ensures InvalidateEach(s, invalidators) == Clear(s)
  {
    InvalidateEachEffect(s, invalidators);
    var t, u := InvalidateEach(s, invalidators), Clear(s);
    assert t.phases == u.phases;
    assert t.invalidators == u.invalidators;
  }

  /** The host runs its invalidators in the order in which the generations were made. */
  predicate InOrder(generations: seq<GenerationId>) {
    forall i, j :: 0 <= i < j < |generations| ==> generations[i] < generations[j]
  }

  /** An active extension needs one whose generation is older than its own. */
  predicate NeedsOlder(s: State) {
    exists name, needed ::
      name in Live(s) && needed in Live(s) && needed in s.loaded[name].dependencies &&
      s.generations[needed] < s.generations[name]
  }

  lemma {:induction false} LiveIsFenced(s: State, invalidators: seq<GenerationId>, name: Name) returns (i: nat)
    requires Bookkeeping(s) && name in Live(s) && forall g :: g in invalidators <==> g in s.invalidators
    ensures i < |invalidators| && invalidators[i] == s.generations[name]
  {
    assert s.generations[name] in invalidators;
    i :| 0 <= i < |invalidators| && invalidators[i] == s.generations[name];
  }

  lemma {:induction false} OlderGoesFirst(s: State, invalidators: seq<GenerationId>, name: Name, needed: Name) returns (k: nat)
    requires Bookkeeping(s) && Closed(s) && InOrder(invalidators) && forall g :: g in invalidators <==> g in s.invalidators
    requires name in Live(s) && needed in Live(s) && needed in s.loaded[name].dependencies
    requires s.generations[needed] < s.generations[name]
    ensures k <= |invalidators| && !Closed(InvalidateEach(s, invalidators[..k]))
  {
    var i := LiveIsFenced(s, invalidators, needed);
    var j := LiveIsFenced(s, invalidators, name);
    k := i + 1;
    var aborted := invalidators[..k];
    assert aborted[i] == s.generations[needed];
    forall m | 0 <= m < k ensures aborted[m] != s.generations[name] {
      assert invalidators[m] <= invalidators[i] < invalidators[j];
    }
    InvalidatedClosedExactly(s, aborted);
  }

  lemma {:induction false} DependentsGoFirst(s: State, invalidators: seq<GenerationId>, k: nat)
    requires Bookkeeping(s) && Closed(s) && InOrder(invalidators) && forall g :: g in invalidators <==> g in s.invalidators
    requires !NeedsOlder(s) && k <= |invalidators|
    ensures Closed(InvalidateEach(s, invalidators[..k]))
  {
    var aborted := invalidators[..k];
    forall name, needed |
      name in Live(s) && needed in Live(s) && needed in s.loaded[name].dependencies && s.generations[needed] in aborted
      ensures s.generations[name] in aborted
    {
      var i :| 0 <= i < k && aborted[i] == s.generations[needed];
      var j := LiveIsFenced(s, invalidators, name);
      assert invalidators[i] == s.generations[needed];
      assert j <= i;
      assert aborted[j] == s.generations[name];
    }
    InvalidatedClosedExactly(s, aborted);
  }

  /** While the host is cleared, the listeners of every abort see a closed set exactly when no active
      extension needs an older generation: when dependencies were always reloaded after dependents. */
  lemma {:induction false} ClearMomentsClosedExactly(s: State, invalidators: seq<GenerationId>)
    requires Bookkeeping(s) && Closed(s) && InOrder(invalidators) && forall g :: g in invalidators <==> g in s.invalidators
    ensures (forall k :: 0 <= k <= |invalidators| ==> Closed(InvalidateEach(s, invalidators[..k]))) <==> !NeedsOlder(s)
  {
    if NeedsOlder(s) {
      var name, needed :|
        name in Live(s) && needed in Live(s) && needed in s.loaded[name].dependencies &&
        s.generations[needed] < s.generations[name];
      var k := OlderGoesFirst(s, invalidators, name, needed);
    } else {
      forall k | 0 <= k <= |invalidators| ensures Closed(InvalidateEach(s, invalidators[..k])) {
        DependentsGoFirst(s, invalidators, k);
      }
    }
  }

  /** A reload in the moment its predecessor is aborted: the new generation is active but not bound
      to its name yet. */
  function CommitMoment(s: State, name: Name, generation: GenerationId): State
    requires name in s.generations
  {
    Invalidate(s.(phases := s.phases[generation := Active]), s.generations[name])
  }

  predicate HasOtherDependent(s: State, name: Name) {
    exists other :: other in Live(s) && other != name && name in s.loaded[other].dependencies
  }

  /** In that moment the active set is closed exactly when no other active extension needs the
      reloaded one; at the next await it is closed again. */
  lemma {:induction false} CommitMomentClosedExactly(s: State, name: Name, generation: GenerationId)
    requires Bookkeeping(s) && Closed(s) && Unbound(s, generation) && name in Live(s)
    ensures Closed(CommitMoment(s, name, generation)) <==> !HasOtherDependent(s, name)
  {
    var t := CommitMoment(s, name, generation);
    assert forall other :: other in Live(t) <==> other in Live(s) && other != name;
    if Closed(t) {
      forall other | other in Live(s) && other != name ensures name !in s.loaded[other].dependencies {
        var needed := t.loaded[other].dependencies;
        assert other in Live(t);
        assert forall k :: 0 <= k < |needed| ==> needed[k] in Live(t);
      }
    } else {
      var other, k :| other in Live(t) && 0 <= k < |t.loaded[other].dependencies| && t.loaded[other].dependencies[k] !in Live(t);
      assert s.loaded[other].dependencies[k] in Live(s);
      assert name in s.loaded[other].dependencies;
    }
  }

  /** A batch adopts every new generation before it aborts an old one, so the listeners of every
      abort see a closed set, with every module of the batch in place. */
  lemma {:induction false} BatchMomentsAreClosed(s: State, prepared: seq<Prepared>, k: nat)
    requires Bookkeeping(s) && Closed(s) && PreparedWell(s, [], prepared) && AllPreparing(s, prepared)
    requires k <= |prepared|
    ensures
      var t := InvalidateAll(AdoptAll(s, prepared), prepared[..k]);
      && Closed(t) && Live(t) == Live(s) + PreparedNames(prepared)
      && forall i :: 0 <= i < |prepared| ==>
           prepared[i].current.name in t.loaded && t.loaded[prepared[i].current.name] == prepared[i].current
  {
    var adopted, aborted := AdoptAll(s, prepared), prepared[..k];
    AdoptAllSwaps(s, prepared);
    assert Live(s) + PreparedNames(prepared) + Names([]) == Live(s) + PreparedNames(prepared);
    SwapKeepsClosed(s, prepared, adopted);
    forall i | 0 <= i < |aborted| && aborted[i].previous.Some? ensures Harmless(adopted, aborted[i].previous.value) {
      assert aborted[i] == prepared[i];
      assert prepared[i].current.name in PreparedNames(prepared);
    }
    InvalidateAllHarmless(adopted, aborted);
  }

  // ---------- listeners that see a gap ----------

  const BASE_RELOADING := State(map[1 := Active, 2 := Active, 3 := Preparing], {1, 2, 3}, map["base" := 1, "user" := 2],
                                map["base" := BASE, "user" := USER], 4, LoadingOne(BASE, 3))

  const TWO_RUN := [INITIAL, ONE_LOADING, ONE_LOADED, TWO_LOADING, TWO_LOADED]
  const LOADING_TWO := [StartLoad(BASE), FactoryReturned(true), StartLoad(USER), FactoryReturned(true)]

  lemma {:induction false} TwoAreLoaded()
    ensures Run(TWO_RUN, LOADING_TWO)
  {
    BaseLoads();
    UserStarts();
    UserLoads();
    assert forall k :: 0 <= k < 4 ==> LOADING_TWO[k] == STRANDING[k];
  }

  lemma {:induction false} TwoAreLive()
    ensures Live(TWO_LOADED) == {"base", "user"} && Bookkeeping(TWO_LOADED) && Closed(TWO_LOADED)
  {
    TwoAreLoaded();
    ActiveSetIsAlwaysClosed(TWO_RUN, LOADING_TWO, 4);
  }

  lemma {:induction false} UserNeedsBase()
    ensures "base" in USER.dependencies
  {
    assert USER.dependencies[0] == "base";
  }

  /** Two extensions, the second needing the first, and the host is cleared: when the first is
      aborted its dependent is still active. */
  lemma {:induction false} ClearShowsGap()
    ensures Run(TWO_RUN, LOADING_TWO) && Step(TWO_LOADED, HostCleared, TWO_CLEARED)
    ensures InvalidateEach(TWO_LOADED, [1, 2]) == TWO_CLEARED && !Closed(InvalidateEach(TWO_LOADED, [1]))
  {
    TwoAreLoaded();
    UserLoads();
    ClearIsStepwise(TWO_LOADED, [1, 2]);
    FirstAbortShowsGap();
  }

  lemma {:induction false} FirstAbortShowsGap()
    ensures !Closed(InvalidateEach(TWO_LOADED, [1]))
  {
    TwoAreLive();
    UserNeedsBase();
    InvalidatedClosedExactly(TWO_LOADED, [1]);
    var name, needed := "user", "base";
    assert name in Live(TWO_LOADED) && needed in Live(TWO_LOADED) && needed in TWO_LOADED.loaded[name].dependencies;
    assert TWO_LOADED.generations[needed] in [1] && TWO_LOADED.generations[name] !in [1];
  }

  /** The first of them is reloaded: when its old generation is aborted, the new one is active but
      the name is still bound to the old one, and the dependent has nothing active to rely on. */
  lemma {:induction false} ReloadShowsGap()
    ensures Run(TWO_RUN, LOADING_TWO) && Step(TWO_LOADED, StartLoad(BASE), BASE_RELOADING)
    ensures IsPreparing(BASE_RELOADING, 3) && !Closed(CommitMoment(BASE_RELOADING, "base", 3))
  {
    TwoAreLoaded();
    BaseReloads();
    UserNeedsBase();
    CommitMomentClosedExactly(BASE_RELOADING, "base", 3);
    assert "user" in Live(BASE_RELOADING) && "base" in BASE_RELOADING.loaded["user"].dependencies;
  }

  lemma {:induction false} BaseReloads()
    ensures Step(TWO_LOADED, StartLoad(BASE), BASE_RELOADING)
    ensures Bookkeeping(BASE_RELOADING) && Closed(BASE_RELOADING) && Unbound(BASE_RELOADING, 3)
    ensures Live(BASE_RELOADING) == {"base", "user"}
  {
    TwoAreLive();
    BothAreOrderable();
    assert LiveModules(TWO_LOADED)["base" := BASE] == map["base" := BASE, "user" := USER];
    assert Construct(TWO_LOADED).(control := LoadingOne(BASE, 3)) == BASE_RELOADING;
    ConstructEffect(TWO_LOADED);
    assert Live(BASE_RELOADING) == Live(TWO_LOADED);
  }
}
