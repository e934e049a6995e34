/** The runner together with the host it mounts into: what is registered belongs to what is active. */
module ExtensionRegistrations {
  import opened Sequences
  import opened Entries
  import opened ExtensionOrder
  import R = ExtensionRunners
  import opened ExtensionMounts
  import opened MountHistories

  type Generation = R.GenerationId
  type Mounts = map<Generation, Mount>

  /** `mounts` holds the latest mount of every generation that ever had one. */
  datatype Site = Site(runner: R.State, host: Host, mounts: Mounts)

  const NEW_SITE := Site(R.INITIAL, Host(map[], map[], [], 0), map[])

  /** What happens on a site: a step of the runner; the return of a factory, with what the generations
      in preparation have staged; or a change of what an active generation registers. */
  datatype Occurrence =
    | Runs(event: R.Event)
    | Returns(stages: seq<Stage>)
    | Changes(generation: Generation, stage: Stage)

  function Active(s: R.State): set<Generation> {
    set generation | generation in s.phases && s.phases[generation] == R.Active
  }

  // ---------- what the host goes through ----------

  function DisposeOf(host: Host, mounts: Mounts, generation: Generation): Host {
    if generation in mounts then Dispose(host, mounts[generation]) else host
  }

  /** The next generation of a clean-up is disposed before its callbacks are awaited. */
  function CleanedUp(host: Host, mounts: Mounts, generations: seq<Generation>): Host {
    if generations == [] then host else DisposeOf(host, mounts, generations[0])
  }

  function DisposeNamed(site: Site, name: Name): Host {
    if name in site.runner.generations then DisposeOf(site.host, site.mounts, site.runner.generations[name])
    else site.host
  }

  function DisposeFirst(site: Site, remaining: seq<Module>): Host {
    if remaining == [] then site.host else DisposeNamed(site, remaining[0].name)
  }

  ghost function HostAfter(site: Site, event: R.Event): Host {
    match event
    case HostCleared => Host(map[], map[], [], site.host.nextToken)
    case StartUnload(name) => if R.HasDependent(site.runner, name) then site.host else DisposeNamed(site, name)
    case StartDispose(order) =>
      if R.Orderable(site.runner.loaded) then DisposeFirst(site, Reversed(order)) else site.host
    case FactoryThrew => (
      match site.runner.control
      case LoadingOne(_, generation) => CleanedUp(site.host, site.mounts, [generation])
      case LoadingAll(_, prepared) => CleanedUp(site.host, site.mounts, R.GenerationsBackwards(prepared))
      case _ => site.host)
    case CleanupDone => (
      match site.runner.control
      case CleaningUp(generations) => CleanedUp(site.host, site.mounts, generations)
      case Disposing(remaining) => DisposeFirst(site, remaining)
      case _ => site.host)
    case _ => site.host
  }

  function MountsOf(mounts: Mounts, generations: seq<Generation>): seq<Mount> {
    if generations == [] then []
    else
      var last := generations[|generations| - 1];
      MountsOf(mounts, generations[..|generations| - 1]) + if last in mounts then [mounts[last]] else []
  }

  function Replaced(previous: Option<Generation>): seq<Generation> {
    if previous.Some? then [previous.value] else []
  }

  /** The generations a batch replaces, in its order. */
  function AllReplaced(prepared: seq<R.Prepared>): seq<Generation> {
    if prepared == [] then []
    else AllReplaced(prepared[..|prepared| - 1]) + Replaced(prepared[|prepared| - 1].previous)
  }

  function WithMounts(mounts: Mounts, prepared: seq<R.Prepared>, added: seq<Mount>): Mounts
    requires |prepared| == |added|
  {
    if prepared == [] then mounts
    else WithMounts(mounts, prepared[..|prepared| - 1], added[..|added| - 1])
           [prepared[|prepared| - 1].generation := added[|added| - 1]]
  }

  /** A single generation is mounted in place of its predecessor, if nothing foreign is in the way. */
  ghost predicate CommitsOne(site: Site, current: Module, generation: Generation, stage: Stage, after: Site) {
    var previous := Replaced(R.Previous(site.runner, current.name));
    match MountGeneration(site.host, stage, MountsOf(site.mounts, previous))
    case Mounted(host, mount) =>
      && after.runner == R.FinishOne(site.runner, current, generation, true)
      && after.mounts == site.mounts[generation := mount]
      && after.host == CleanedUp(host, after.mounts, previous)
    case Refused(_) => FailsOne(site, current, generation, after)
  }

  ghost predicate FailsOne(site: Site, current: Module, generation: Generation, after: Site) {
    && after.runner == R.FinishOne(site.runner, current, generation, false)
    && after.mounts == site.mounts && after.host == CleanedUp(site.host, site.mounts, [generation])
  }

  ghost predicate CommitsAll(site: Site, prepared: seq<R.Prepared>, stages: seq<Stage>, after: Site) {
    var replaced := MountsOf(site.mounts, AllReplaced(prepared));
    if !Preflight(site.host, stages, replaced) then FailsAll(site, site.host, prepared, after)
    else
      match Cutover(site.host, stages, replaced)
      case BatchRefused(host, _) => FailsAll(site, host, prepared, after)
      case AllMounted(host, added) =>
        && |added| == |prepared|
        && after.runner == R.FinishBatch(site.runner, prepared, true)
        && after.mounts == WithMounts(site.mounts, prepared, added)
        && after.host == CleanedUp(host, after.mounts, R.PreviousBackwards(prepared))
  }

  ghost predicate FailsAll(site: Site, host: Host, prepared: seq<R.Prepared>, after: Site) {
    && after.runner == R.FinishBatch(site.runner, prepared, false)
    && after.mounts == site.mounts && after.host == CleanedUp(host, site.mounts, R.GenerationsBackwards(prepared))
  }

  /** Nobody registers a command under a name that starts with two slashes. */
  predicate Plain(stages: seq<Stage>) {
    forall i :: 0 <= i < |stages| ==> ValidStage(stages[i]) && NormalisedNames(stages[i].names)
  }

  ghost predicate Moves(site: Site, occurrence: Occurrence, after: Site) {
    match occurrence
    case Runs(event) =>
      && !event.FactoryReturned? && R.Step(site.runner, event, after.runner)
      && after.mounts == site.mounts && after.host == HostAfter(site, event)
    case Returns(stages) => (
      match site.runner.control
      case LoadingOne(current, generation) =>
        |stages| == 1 && Plain(stages) &&
        if R.IsPreparing(site.runner, generation) then CommitsOne(site, current, generation, stages[0], after)
        else FailsOne(site, current, generation, after)
      case LoadingAll(remaining, prepared) =>
        if remaining != [] then after == site.(runner := R.PrepareNext(site.runner, remaining, prepared))
        else
          |stages| == |prepared| && Plain(stages) &&
          if R.AllPreparing(site.runner, prepared) then CommitsAll(site, prepared, stages, after)
          else FailsAll(site, site.host, prepared, after)
      case _ => false)
    case Changes(generation, stage) =>
      && Plain([stage]) && generation in Active(site.runner) && after.runner == site.runner
      && match MountGeneration(site.host, stage, MountsOf(site.mounts, [generation]))
         case Mounted(host, mount) => after.host == host && after.mounts == site.mounts[generation := mount]
         case Refused(_) => after == site
  }

  // ---------- registrations and their owners ----------

  ghost predicate WellMounted(host: Host, mounts: Mounts) {
    forall g :: g in mounts ==>
      && ValidMount(mounts[g]) && NormalisedNames(mounts[g].names)
      && forall key :: key in mounts[g].tokens ==> mounts[g].tokens[key] < host.nextToken
  }

  /** No two generations hold the same token. */
  ghost predicate TokensApart(mounts: Mounts) {
    forall g, h, key :: g in mounts && h in mounts && g != h && key in mounts[g].tokens && key in mounts[h].tokens ==>
      mounts[g].tokens[key] != mounts[h].tokens[key]
  }

  ghost predicate OwnedBy(host: Host, mounts: Mounts, active: set<Generation>, key: Key) {
    exists g :: g in active && g in mounts && Owns(host, mounts[g], key)
  }

  /** Everything registered belongs to an active generation. */
  ghost predicate AllOwned(host: Host, mounts: Mounts, active: set<Generation>) {
    forall key :: key in host.registry ==> OwnedBy(host, mounts, active, key)
  }

  /** An active generation has everything it registered. */
  ghost predicate AllHeld(host: Host, mounts: Mounts, active: set<Generation>) {
    forall g :: g in active ==> g in mounts && Holds(host, mounts[g])
  }

  ghost predicate Kept(host: Host, mounts: Mounts, active: set<Generation>) {
    && ValidHost(host) && WellMounted(host, mounts) && TokensApart(mounts)
    && AllOwned(host, mounts, active) && AllHeld(host, mounts, active)
  }

  // ---------- disposing one ----------

  /** Exactly what the mount owned is gone. */
  ghost predicate Takes(host: Host, mount: Mount, after: Host) {
    && Shrinks(host, after) && ValidHost(after)
    && (forall key :: key in host.registry ==> (key !in after.registry <==> Owns(host, mount, key)))
  }

  lemma {:induction false} DisposeTakes(host: Host, mounts: Mounts, g: Generation)
    requires ValidHost(host) && WellMounted(host, mounts) && g in mounts
    ensures Takes(host, mounts[g], Dispose(host, mounts[g]))
  {
    DisposeRemovesOwned(host, mounts[g]);
  }

  lemma {:induction false} OthersKeepTheirs(host: Host, mounts: Mounts, g: Generation, h: Generation, after: Host, key: Key)
    requires ValidHost(host) && TokensApart(mounts) && g in mounts && h in mounts && g != h
    requires Takes(host, mounts[g], after) && Owns(host, mounts[h], key)
    ensures Owns(after, mounts[h], key)
  {
    assert !Owns(host, mounts[g], key);
  }

  lemma {:induction false} OwnedAfterDisposal(host: Host, mounts: Mounts, active: set<Generation>, g: Generation, after: Host)
    requires ValidHost(host) && TokensApart(mounts) && AllOwned(host, mounts, active) && g in mounts
    requires Takes(host, mounts[g], after)
    ensures AllOwned(after, mounts, active - {g})
  {
    forall key | key in after.registry ensures OwnedBy(after, mounts, active - {g}, key) {
      assert OwnedBy(host, mounts, active, key);
      var h :| h in active && h in mounts && Owns(host, mounts[h], key);
      assert h != g;
      OthersKeepTheirs(host, mounts, g, h, after, key);
    }
  }

  lemma {:induction false} HeldAfterDisposal(host: Host, mounts: Mounts, active: set<Generation>, g: Generation, after: Host)
    requires ValidHost(host) && TokensApart(mounts) && AllHeld(host, mounts, active) && g in mounts
    requires Takes(host, mounts[g], after)
    ensures AllHeld(after, mounts, active - {g})
  {
    forall h | h in active - {g} ensures h in mounts && Holds(after, mounts[h]) {
      assert Holds(host, mounts[h]);
      forall key | key in mounts[h].tokens ensures Owns(after, mounts[h], key) {
        OthersKeepTheirs(host, mounts, g, h, after, key);
      }
    }
  }

  /** Disposing a generation takes away its registrations and nobody else's. */
  lemma {:induction false} DisposingKeeps(host: Host, mounts: Mounts, active: set<Generation>, g: Generation)
    requires Kept(host, mounts, active)
    ensures Kept(DisposeOf(host, mounts, g), mounts, active - {g})
    ensures g in mounts ==> Takes(host, mounts[g], DisposeOf(host, mounts, g))
  {
    if g in mounts {
      DisposeTakes(host, mounts, g);
      OwnedAfterDisposal(host, mounts, active, g, Dispose(host, mounts[g]));
      HeldAfterDisposal(host, mounts, active, g, Dispose(host, mounts[g]));
    } else {
      assert active - {g} == active;
    }
  }

  // ---------- installing one ----------

  /** The stage is registered under new tokens and nothing else has changed. */
  ghost predicate Adds(host: Host, stage: Stage, mount: Mount, after: Host) {
    && ValidHost(after) && ValidMount(mount) && mount.names == stage.names && host.nextToken <= after.nextToken
    && Holds(after, mount) && mount.tokens.Keys == stage.registry.Keys
    && (forall key :: key in mount.tokens ==> host.nextToken <= mount.tokens[key] < after.nextToken)
    && (forall key :: key in host.tokens && key !in stage.registry ==> key in after.tokens && after.tokens[key] == host.tokens[key])
    && after.registry.Keys == host.registry.Keys + stage.registry.Keys
  }

  lemma {:induction false} InstallAdds(host: Host, stage: Stage)
    requires ValidHost(host) && ValidStage(stage)
    ensures Adds(host, stage, MountOf(host, stage), Install(host, stage))
  {
    InstallEffect(host, stage);
    FreshTokensAreFresh(stage.names, host.nextToken);
  }

  lemma {:induction false} ApartAfterInstall(host: Host, mounts: Mounts, g: Generation, stage: Stage, mount: Mount, after: Host)
    requires WellMounted(host, mounts) && TokensApart(mounts) && Adds(host, stage, mount, after)
    requires NormalisedNames(stage.names)
    ensures WellMounted(after, mounts[g := mount]) && TokensApart(mounts[g := mount])
  {
  }

  lemma {:induction false} OwnedAfterInstall(host: Host, mounts: Mounts, active: set<Generation>, g: Generation,
                                             stage: Stage, mount: Mount, after: Host)
    requires ValidHost(host) && AllOwned(host, mounts, active) && g !in active && Adds(host, stage, mount, after)
    ensures AllOwned(after, mounts[g := mount], active + {g})
  {
    var more, all := mounts[g := mount], active + {g};
    forall key | key in after.registry ensures OwnedBy(after, more, all, key) {
      if key in stage.registry {
        assert g in all && Owns(after, more[g], key);
      } else {
        OwnerStays(host, mounts, active, g, stage, mount, after, key);
      }
    }
  }

  lemma {:induction false} OwnerStays(host: Host, mounts: Mounts, active: set<Generation>, g: Generation,
                                      stage: Stage, mount: Mount, after: Host, key: Key)
    requires ValidHost(host) && AllOwned(host, mounts, active) && g !in active && Adds(host, stage, mount, after)
    requires key in host.registry && key !in stage.registry
    ensures OwnedBy(after, mounts[g := mount], active + {g}, key)
  {
    assert OwnedBy(host, mounts, active, key);
    var h :| h in active && h in mounts && Owns(host, mounts[h], key);
    assert h in active + {g} && Owns(after, mounts[g := mount][h], key);
  }

  lemma {:induction false} HeldAfterInstall(host: Host, mounts: Mounts, active: set<Generation>, g: Generation,
                                            stage: Stage, mount: Mount, after: Host)
    requires ValidHost(host) && AllHeld(host, mounts, active) && g !in active && Adds(host, stage, mount, after)
    requires stage.registry.Keys !! host.registry.Keys
    ensures AllHeld(after, mounts[g := mount], active + {g})
  {
    var more := mounts[g := mount];
    forall h | h in active ensures h in more && Holds(after, more[h]) {
      assert Holds(host, mounts[h]);
      forall key | key in mounts[h].tokens ensures Owns(after, mounts[h], key) {
        assert Owns(host, mounts[h], key);
      }
    }
  }

  /** Installing over free names adds one active generation with exactly its stage. */
  lemma {:induction false} InstallingKeeps(host: Host, mounts: Mounts, active: set<Generation>, g: Generation, stage: Stage)
    requires Kept(host, mounts, active) && g !in active
    requires ValidStage(stage) && NormalisedNames(stage.names) && stage.registry.Keys !! host.registry.Keys
    ensures Kept(Install(host, stage), mounts[g := MountOf(host, stage)], active + {g})
  {
    InstallAdds(host, stage);
    ApartAfterInstall(host, mounts, g, stage, MountOf(host, stage), Install(host, stage));
    OwnedAfterInstall(host, mounts, active, g, stage, MountOf(host, stage), Install(host, stage));
    HeldAfterInstall(host, mounts, active, g, stage, MountOf(host, stage), Install(host, stage));
  }

  lemma {:induction false} ClearedKeeps(host: Host, mounts: Mounts, active: set<Generation>)
    requires Kept(host, mounts, active)
    ensures Kept(Host(map[], map[], [], host.nextToken), mounts, {})
  {
  }

  // ---------- a single mount ----------

  /** Nothing that is staged is left registered once what stood in its place is disposed. */
  lemma {:induction false} FreeAfterDisposal(host: Host, mounts: Mounts, active: set<Generation>, stage: Stage, g: Generation)
    requires Kept(host, mounts, active) && ValidStage(stage)
    requires FirstForeign(host, stage.names, MountsOf(mounts, [g])).None?
    ensures stage.registry.Keys !! DisposeOf(host, mounts, g).registry.Keys
  {
    DisposingKeeps(host, mounts, active, g);
    NoneForeign(host, stage.names, MountsOf(mounts, [g]));
    forall key | key in stage.registry ensures key !in DisposeOf(host, mounts, g).registry {
      assert key in NameSet(stage.names);
      NameIsFree(host, mounts, g, key, DisposeOf(host, mounts, g));
    }
  }

  lemma {:induction false} NameIsFree(host: Host, mounts: Mounts, g: Generation, key: Key, after: Host)
    requires key in host.registry ==> SomeOwner(host, MountsOf(mounts, [g]), key)
    requires if g in mounts then Takes(host, mounts[g], after) else after == host
    ensures key !in after.registry
  {
    OneMountOf(mounts, [g]);
    if key in host.registry && g in mounts {
      assert [mounts[g]][0] == mounts[g];
      assert Owns(host, mounts[g], key);
    }
  }

  lemma {:induction false} OneMountOf(mounts: Mounts, previous: seq<Generation>)
    requires |previous| <= 1
    ensures MountsOf(mounts, previous) ==
            if previous != [] && previous[0] in mounts then [mounts[previous[0]]] else []
  {
    if previous != [] {
      assert previous[..0] == [];
      assert MountsOf(mounts, []) == [];
    }
  }

  lemma {:induction false} DisposeOne(host: Host, mounts: Mounts, g: Generation)
    ensures DisposeAll(host, if g in mounts then [mounts[g]] else []) == DisposeOf(host, mounts, g)
  {
    if g in mounts {
      assert [mounts[g]][..0] == [];
      assert DisposeAll(host, []) == host;
    }
  }

  lemma {:induction false} NoneForeign(host: Host, names: seq<Key>, previous: seq<Mount>)
    requires FirstForeign(host, names, previous).None?
    ensures forall key :: key in NameSet(names) && key in host.registry ==> SomeOwner(host, previous, key)
  {
    if names != [] {
      NoneForeign(host, names[1..], previous);
      forall key | key in NameSet(names) && key in host.registry ensures SomeOwner(host, previous, key) {
        if key != names[0] { assert key in NameSet(names[1..]); }
      }
    }
  }

  lemma {:induction false} MountingKeeps(host: Host, mounts: Mounts, active: set<Generation>, g: Generation, stage: Stage)
    requires Kept(host, mounts, active) && g !in active && ValidStage(stage) && NormalisedNames(stage.names)
    ensures match MountGeneration(host, stage, [])
            case Refused(_) => true
            case Mounted(after, mount) => Kept(after, mounts[g := mount], active + {g})
  {
    if FirstForeign(host, stage.names, []).None? {
      NoneForeign(host, stage.names, []);
      forall key | key in stage.registry ensures key !in host.registry {
        assert key in NameSet(stage.names);
      }
      InstallingKeeps(host, mounts, active, g, stage);
    }
  }

  lemma {:induction false} RemountingKeeps(host: Host, mounts: Mounts, active: set<Generation>, g: Generation,
                                           stage: Stage, previous: Generation)
    requires Kept(host, mounts, active) && (g in active ==> g == previous)
    requires ValidStage(stage) && NormalisedNames(stage.names)
    ensures match MountGeneration(host, stage, MountsOf(mounts, [previous]))
            case Refused(_) => true
            case Mounted(after, mount) => Kept(after, mounts[g := mount], active - {previous} + {g})
  {
    if FirstForeign(host, stage.names, MountsOf(mounts, [previous])).None? {
      OneMountOf(mounts, [previous]);
      DisposeOne(host, mounts, previous);
      DisposingKeeps(host, mounts, active, previous);
      FreeAfterDisposal(host, mounts, active, stage, previous);
      InstallingKeeps(DisposeOf(host, mounts, previous), mounts, active - {previous}, g, stage);
    }
  }

  // ---------- a batch ----------

  function Members(generations: seq<Generation>): set<Generation> {
    set g | g in generations
  }

  lemma {:induction false} MembersSnoc(generations: seq<Generation>)
    requires generations != []
    ensures Members(generations) ==
            Members(generations[..|generations| - 1]) + {generations[|generations| - 1]}
  {
    InitAndLast(generations);
  }

  /** Disposing all replaced generations leaves the others as they were. */
  lemma {:induction false} ReplacingKeeps(host: Host, mounts: Mounts, active: set<Generation>, generations: seq<Generation>)
    requires Kept(host, mounts, active)
    ensures Kept(DisposeAll(host, MountsOf(mounts, generations)), mounts, active - Members(generations))
  {
    if generations == [] {
      assert active - Members(generations) == active;
    } else {
      var init, last := generations[..|generations| - 1], generations[|generations| - 1];
      ReplacingKeeps(host, mounts, active, init);
      MembersSnoc(generations);
      DisposeOneMore(host, mounts, generations);
      DisposingKeeps(DisposeAll(host, MountsOf(mounts, init)), mounts, active - Members(init), last);
      assert active - Members(init) - {last} == active - Members(generations);
    }
  }

  lemma {:induction false} DisposeOneMore(host: Host, mounts: Mounts, generations: seq<Generation>)
    requires generations != []
    ensures DisposeAll(host, MountsOf(mounts, generations)) ==
            DisposeOf(DisposeAll(host, MountsOf(mounts, generations[..|generations| - 1])), mounts,
                      generations[|generations| - 1])
  {
    var earlier, last := MountsOf(mounts, generations[..|generations| - 1]), generations[|generations| - 1];
    if last in mounts { Snoc(earlier, mounts[last]); } else { ConcatNothing(earlier); }
  }

  lemma {:induction false} MountsAreValid(host: Host, mounts: Mounts, generations: seq<Generation>)
    requires WellMounted(host, mounts)
    ensures ValidMounts(MountsOf(mounts, generations))
  {
    if generations != [] { MountsAreValid(host, mounts, generations[..|generations| - 1]); }
  }

  lemma {:induction false} PlainSplit(stages: seq<Stage>)
    requires stages != [] && Plain(stages)
    ensures Plain(stages[..|stages| - 1])
    ensures ValidStage(stages[|stages| - 1]) && NormalisedNames(stages[|stages| - 1].names)
  {
    var init := stages[..|stages| - 1];
    forall i | 0 <= i < |init| ensures ValidStage(init[i]) && NormalisedNames(init[i].names) {
      assert init[i] == stages[i];
    }
    assert ValidStage(stages[|stages| - 1]);
  }

  lemma {:induction false} PlainIsValid(host: Host, stages: seq<Stage>)
    requires Plain(stages)
    ensures ValidStages(stages) && NoSlashRegistered(host, stages)
  {
    forall i, key | 0 <= i < |stages| && key in stages[i].registry ensures !Slashed(key) {
      assert ValidStage(stages[i]) && NormalisedNames(stages[i].names);
      assert key in NameSet(stages[i].names);
    }
  }

  /** Mounting a batch over free names makes every generation of it active with exactly its stage. */
  lemma {:induction false} BatchKeeps(host: Host, mounts: Mounts, active: set<Generation>,
                                      prepared: seq<R.Prepared>, stages: seq<Stage>)
    requires Kept(host, mounts, active) && |prepared| == |stages| && R.UniquePrepared(prepared)
    requires R.Generations(prepared) !! active
    requires Plain(stages) && Disjoint(stages) && Clear(host, stages)
    ensures
      var result := MountEach(host, stages);
      && result.AllMounted? && |result.mounts| == |prepared|
      && Kept(result.host, WithMounts(mounts, prepared, result.mounts), active + R.Generations(prepared))
  {
    if prepared == [] {
      assert active + R.Generations(prepared) == active;
    } else {
      PlainIsValid(host, stages);
      DisjointPrefix(stages, host);
      PlainSplit(stages);
      R.PreparedSnoc(prepared);
      BatchKeeps(host, mounts, active, prepared[..|prepared| - 1], stages[..|stages| - 1]);
      LastOfBatchKeeps(host, mounts, active, prepared, stages);
    }
  }

  lemma {:induction false} LastOfBatchKeeps(host: Host, mounts: Mounts, active: set<Generation>,
                                            prepared: seq<R.Prepared>, stages: seq<Stage>)
    requires prepared != [] && |prepared| == |stages| && R.UniquePrepared(prepared) && R.Generations(prepared) !! active
    requires ValidHost(host) && Plain(stages) && Disjoint(stages) && Clear(host, stages) && ValidStages(stages)
    requires
      var init, result := prepared[..|prepared| - 1], MountEach(host, stages[..|stages| - 1]);
      && result.AllMounted? && |result.mounts| == |init|
      && Kept(result.host, WithMounts(mounts, init, result.mounts), active + R.Generations(init))
    ensures
      var result := MountEach(host, stages);
      && result.AllMounted? && |result.mounts| == |prepared|
      && Kept(result.host, WithMounts(mounts, prepared, result.mounts), active + R.Generations(prepared))
  {
    var init, first := prepared[..|prepared| - 1], stages[..|stages| - 1];
    var p, last := prepared[|prepared| - 1], stages[|stages| - 1];
    var earlier := MountEach(host, first);
    DisjointPrefix(stages, host);
    PlainSplit(stages);
    MountEachSucceeds(host, first);
    LastMounts(earlier.host, last, host.registry + Union(first));
    R.PreparedSnoc(prepared);
    InstallingKeeps(earlier.host, WithMounts(mounts, init, earlier.mounts), active + R.Generations(init), p.generation, last);
    Snoc(earlier.mounts, MountOf(earlier.host, last));
    assert active + R.Generations(init) + {p.generation} == active + R.Generations(prepared);
  }

  /** After preflight a batch without slashed names always goes through. */
  lemma {:induction false} CutoverKeeps(host: Host, mounts: Mounts, active: set<Generation>, prepared: seq<R.Prepared>,
                                        stages: seq<Stage>, replaced: seq<Generation>)
    requires Kept(host, mounts, active) && |prepared| == |stages| && R.UniquePrepared(prepared)
    requires R.Generations(prepared) !! active && Plain(stages)
    requires Preflight(host, stages, MountsOf(mounts, replaced))
    ensures
      var result := Cutover(host, stages, MountsOf(mounts, replaced));
      && result.AllMounted? && |result.mounts| == |prepared|
      && Kept(result.host, WithMounts(mounts, prepared, result.mounts),
              active - Members(replaced) + R.Generations(prepared))
  {
    MountsAreValid(host, mounts, replaced);
    PlainIsValid(host, stages);
    ClearedExactly(host, stages, MountsOf(mounts, replaced));
    ReplacingKeeps(host, mounts, active, replaced);
    BatchKeeps(DisposeAll(host, MountsOf(mounts, replaced)), mounts, active - Members(replaced), prepared, stages);
  }

  // ---------- the active generations ----------

  lemma {:induction false} CleanUpDeactivates(s: R.State, generations: seq<Generation>)
    ensures Active(R.CleanUp(s, generations)) == if generations == [] then Active(s) else Active(s) - {generations[0]}
  {
  }

  lemma {:induction false} RemoveDeactivates(s: R.State, name: Name)
    ensures Active(R.Remove(s, name)) ==
            if name in s.generations then Active(s) - {s.generations[name]} else Active(s)
  {
  }

  lemma {:induction false} ClearDeactivates(s: R.State)
    requires R.Bookkeeping(s)
    ensures Active(R.Clear(s)) == {}
  {
  }

  lemma {:induction false} ConstructActivatesNothing(s: R.State, control: R.Control)
    requires R.Bookkeeping(s)
    ensures Active(R.Construct(s).(control := control)) == Active(s)
  {
  }

  lemma {:induction false} AdoptActivates(s: R.State, current: Module, generation: Generation)
    ensures Active(R.Adopt(s, current, generation)) == Active(s) + {generation}
  {
  }

  lemma {:induction false} InvalidateDeactivates(s: R.State, generation: Generation)
    ensures Active(R.Invalidate(s, generation)) == Active(s) - {generation}
  {
  }

  lemma {:induction false} AdoptAllActivates(s: R.State, prepared: seq<R.Prepared>)
    ensures Active(R.AdoptAll(s, prepared)) == Active(s) + R.Generations(prepared)
  {
    if prepared != [] {
      var init, last := prepared[..|prepared| - 1], prepared[|prepared| - 1];
      AdoptAllActivates(s, init);
      AdoptActivates(R.AdoptAll(s, init), last.current, last.generation);
      R.PreparedSnoc(prepared);
      assert Active(s) + R.Generations(init) + {last.generation} == Active(s) + R.Generations(prepared);
    } else {
      assert Active(s) + R.Generations(prepared) == Active(s);
    }
  }

  lemma {:induction false} InvalidateAllDeactivates(s: R.State, prepared: seq<R.Prepared>)
    ensures Active(R.InvalidateAll(s, prepared)) == Active(s) - Members(AllReplaced(prepared))
  {
    if prepared != [] {
      var init, last := prepared[..|prepared| - 1], prepared[|prepared| - 1];
      InvalidateAllDeactivates(s, init);
      if last.previous.Some? {
        InvalidateDeactivates(R.InvalidateAll(s, init), last.previous.value);
        Snoc(AllReplaced(init), last.previous.value);
        MembersSnoc(AllReplaced(prepared));
        assert Active(s) - Members(AllReplaced(init)) - {last.previous.value} == Active(s) - Members(AllReplaced(prepared));
      } else {
        ConcatNothing(AllReplaced(init));
      }
    } else {
      assert Active(s) - Members(AllReplaced(prepared)) == Active(s);
    }
  }

  // ---------- every move, every run ----------

  lemma {:induction false} CleaningUpKeeps(s: R.State, host: Host, mounts: Mounts, generations: seq<Generation>)
    requires Kept(host, mounts, Active(s))
    ensures Kept(CleanedUp(host, mounts, generations), mounts, Active(R.CleanUp(s, generations)))
  {
    CleanUpDeactivates(s, generations);
    if generations != [] { DisposingKeeps(host, mounts, Active(s), generations[0]); }
  }

  lemma {:induction false} RemovingKeeps(site: Site, name: Name, control: R.Control)
    requires Kept(site.host, site.mounts, Active(site.runner))
    ensures Kept(DisposeNamed(site, name), site.mounts, Active(R.Remove(site.runner, name).(control := control)))
  {
    RemoveDeactivates(site.runner, name);
    assert Active(R.Remove(site.runner, name).(control := control)) == Active(R.Remove(site.runner, name));
    if name in site.runner.generations {
      DisposingKeeps(site.host, site.mounts, Active(site.runner), site.runner.generations[name]);
    }
  }

  lemma {:induction false} DisposingFirstKeeps(site: Site, remaining: seq<Module>)
    requires Kept(site.host, site.mounts, Active(site.runner))
    ensures Kept(DisposeFirst(site, remaining), site.mounts, Active(R.DisposeNext(site.runner, remaining)))
  {
    if remaining != [] {
      RemovingKeeps(site, remaining[0].name, R.Disposing(remaining[1..]));
    } else {
      assert Active(R.DisposeNext(site.runner, remaining)) == Active(site.runner);
    }
  }

  lemma {:induction false} EventKeeps(site: Site, event: R.Event, after: Site)
    requires R.Invariant(site.runner) && Kept(site.host, site.mounts, Active(site.runner))
    requires Moves(site, Runs(event), after)
    ensures Kept(after.host, after.mounts, Active(after.runner))
  {
    var s, t := site.runner, after.runner;
    match event
    case HostCleared =>
      ClearDeactivates(s);
      ClearedKeeps(site.host, site.mounts, Active(s));
    case StartLoad(current) =>
      if t != s { ConstructActivatesNothing(s, t.control); }
    case StartLoadAll(modules, order) =>
      if t != s {
        if order == [] {
          CleanUpDeactivates(s, []);
        } else {
          ConstructActivatesNothing(s, t.control);
        }
      }
    case StartUnload(name) =>
      if !R.HasDependent(s, name) { RemovingKeeps(site, name, t.control); }
    case StartDispose(order) =>
      if R.Orderable(s.loaded) { DisposingFirstKeeps(site, Reversed(order)); }
    case FactoryThrew => ThrowKeeps(site, after);
    case CleanupDone =>
      if s.control.CleaningUp? {
        CleaningUpKeeps(s, site.host, site.mounts, s.control.generations);
      } else {
        DisposingFirstKeeps(site, s.control.remaining);
      }
  }

  lemma {:induction false} ThrowKeeps(site: Site, after: Site)
    requires Kept(site.host, site.mounts, Active(site.runner)) && Moves(site, Runs(R.FactoryThrew), after)
    ensures Kept(after.host, after.mounts, Active(after.runner))
  {
    if site.runner.control.LoadingOne? {
      CleaningUpKeeps(site.runner, site.host, site.mounts, [site.runner.control.generation]);
    } else {
      CleaningUpKeeps(site.runner, site.host, site.mounts, R.GenerationsBackwards(site.runner.control.prepared));
    }
  }

  lemma {:induction false} FailsOneKeeps(site: Site, current: Module, generation: Generation, after: Site)
    requires Kept(site.host, site.mounts, Active(site.runner)) && FailsOne(site, current, generation, after)
    ensures Kept(after.host, after.mounts, Active(after.runner))
  {
    CleaningUpKeeps(site.runner, site.host, site.mounts, [generation]);
  }

  lemma {:induction false} FailsAllKeeps(site: Site, prepared: seq<R.Prepared>, after: Site)
    requires Kept(site.host, site.mounts, Active(site.runner)) && FailsAll(site, site.host, prepared, after)
    ensures Kept(after.host, after.mounts, Active(after.runner))
  {
    CleaningUpKeeps(site.runner, site.host, site.mounts, R.GenerationsBackwards(prepared));
  }

  lemma {:induction false} CommitsOneKeeps(site: Site, current: Module, generation: Generation, stage: Stage, after: Site)
    requires R.Bookkeeping(site.runner) && Kept(site.host, site.mounts, Active(site.runner)) && Plain([stage])
    requires R.IsPreparing(site.runner, generation) && R.Unbound(site.runner, generation)
    requires CommitsOne(site, current, generation, stage, after)
    ensures Kept(after.host, after.mounts, Active(after.runner))
  {
    var previous := R.Previous(site.runner, current.name);
    var mounting := MountGeneration(site.host, stage, MountsOf(site.mounts, Replaced(previous)));
    if mounting.Refused? {
      FailsOneKeeps(site, current, generation, after);
    } else if previous.None? {
      FirstOfNameKeeps(site, current, generation, stage, after);
    } else {
      NextOfNameKeeps(site, current, generation, stage, previous.value, after);
    }
  }

  lemma {:induction false} FirstOfNameKeeps(site: Site, current: Module, generation: Generation, stage: Stage, after: Site)
    requires Kept(site.host, site.mounts, Active(site.runner)) && Plain([stage])
    requires R.IsPreparing(site.runner, generation) && R.Previous(site.runner, current.name).None?
    requires CommitsOne(site, current, generation, stage, after)
    requires MountGeneration(site.host, stage, []).Mounted?
    ensures Kept(after.host, after.mounts, Active(after.runner))
  {
    assert MountsOf(site.mounts, []) == [];
    assert ValidStage([stage][0]) && NormalisedNames([stage][0].names);
    MountingKeeps(site.host, site.mounts, Active(site.runner), generation, stage);
    AdoptActivates(site.runner, current, generation);
    CleaningUpKeeps(R.Adopt(site.runner, current, generation), MountGeneration(site.host, stage, []).host, after.mounts, []);
  }

  lemma {:induction false} NextOfNameKeeps(site: Site, current: Module, generation: Generation, stage: Stage,
                                           previous: Generation, after: Site)
    requires Kept(site.host, site.mounts, Active(site.runner)) && Plain([stage]) && previous != generation
    requires R.IsPreparing(site.runner, generation) && R.Previous(site.runner, current.name) == Some(previous)
    requires CommitsOne(site, current, generation, stage, after)
    requires MountGeneration(site.host, stage, MountsOf(site.mounts, [previous])).Mounted?
    ensures Kept(after.host, after.mounts, Active(after.runner))
  {
    assert ValidStage([stage][0]) && NormalisedNames([stage][0].names);
    RemountingKeeps(site.host, site.mounts, Active(site.runner), generation, stage, previous);
    var adopted := R.Adopt(site.runner, current, generation);
    AdoptActivates(site.runner, current, generation);
    InvalidateDeactivates(adopted, previous);
    assert Active(site.runner) + {generation} - {previous} == Active(site.runner) - {previous} + {generation};
    CleaningUpKeeps(R.Invalidate(adopted, previous), MountGeneration(site.host, stage, MountsOf(site.mounts, [previous])).host,
                    after.mounts, [previous]);
  }

  lemma {:induction false} CommitsAllKeeps(site: Site, prepared: seq<R.Prepared>, stages: seq<Stage>, after: Site)
    requires R.Bookkeeping(site.runner) && Kept(site.host, site.mounts, Active(site.runner))
    requires |stages| == |prepared| && Plain(stages)
    requires R.PreparedWell(site.runner, [], prepared) && R.AllPreparing(site.runner, prepared)
    requires CommitsAll(site, prepared, stages, after)
    ensures Kept(after.host, after.mounts, Active(after.runner))
  {
    var s, active, gone := site.runner, Active(site.runner), AllReplaced(prepared);
    if !Preflight(site.host, stages, MountsOf(site.mounts, gone)) {
      FailsAllKeeps(site, prepared, after);
    } else {
      assert R.Generations(prepared) !! active;
      CutoverKeeps(site.host, site.mounts, active, prepared, stages, gone);
      var replaced := R.InvalidateAll(R.AdoptAll(s, prepared), prepared);
      AdoptAllActivates(s, prepared);
      InvalidateAllDeactivates(R.AdoptAll(s, prepared), prepared);
      NewAreNotReplaced(s, prepared);
      assert Active(replaced) == active - Members(gone) + R.Generations(prepared);
      CleaningUpKeeps(replaced, Cutover(site.host, stages, MountsOf(site.mounts, gone)).host, after.mounts,
                      R.PreviousBackwards(prepared));
    }
  }

  lemma {:induction false} ReplacedWereBound(s: R.State, prepared: seq<R.Prepared>, g: Generation)
    requires R.PreparedUnbound(s, prepared) && g in AllReplaced(prepared)
    ensures exists name :: name in s.generations && s.generations[name] == g
  {
    var init, last := prepared[..|prepared| - 1], prepared[|prepared| - 1];
    if g in AllReplaced(init) {
      forall i | 0 <= i < |init|
        ensures R.Unbound(s, init[i].generation) && !R.IsActive(s, init[i].generation) &&
                init[i].previous == R.Previous(s, init[i].current.name)
      {
        assert init[i] == prepared[i];
      }
      ReplacedWereBound(s, init, g);
    } else {
      assert prepared[|prepared| - 1].previous == R.Previous(s, last.current.name);
    }
  }

  lemma {:induction false} NewAreNotReplaced(s: R.State, prepared: seq<R.Prepared>)
    requires R.PreparedUnbound(s, prepared)
    ensures R.Generations(prepared) !! Members(AllReplaced(prepared))
  {
    forall g | g in R.Generations(prepared) ensures g !in AllReplaced(prepared) {
      var i :| 0 <= i < |prepared| && prepared[i].generation == g;
      assert R.Unbound(s, g);
      if g in AllReplaced(prepared) {
        ReplacedWereBound(s, prepared, g);
      }
    }
  }

  lemma {:induction false} ReturnKeeps(site: Site, stages: seq<Stage>, after: Site)
    requires R.Invariant(site.runner) && Kept(site.host, site.mounts, Active(site.runner))
    requires Moves(site, Returns(stages), after)
    ensures Kept(after.host, after.mounts, Active(after.runner))
  {
    match site.runner.control
    case LoadingOne(current, generation) =>
      if R.IsPreparing(site.runner, generation) {
        assert stages == [stages[0]];
        CommitsOneKeeps(site, current, generation, stages[0], after);
      } else {
        FailsOneKeeps(site, current, generation, after);
      }
    case LoadingAll(remaining, prepared) =>
      if remaining != [] {
        ConstructActivatesNothing(site.runner, after.runner.control);
      } else if R.AllPreparing(site.runner, prepared) {
        CommitsAllKeeps(site, prepared, stages, after);
      } else {
        FailsAllKeeps(site, prepared, after);
      }
  }

  lemma {:induction false} ChangeKeeps(site: Site, generation: Generation, stage: Stage, after: Site)
    requires Kept(site.host, site.mounts, Active(site.runner)) && Moves(site, Changes(generation, stage), after)
    ensures Kept(after.host, after.mounts, Active(after.runner))
  {
    assert ValidStage([stage][0]) && NormalisedNames([stage][0].names);
    RemountingKeeps(site.host, site.mounts, Active(site.runner), generation, stage, generation);
    assert Active(site.runner) - {generation} + {generation} == Active(site.runner);
  }

  /** Every move of a site is a step of its runner, with mounting decided by the host, or leaves the
      runner alone. */
  lemma {:induction false} MovesAreSteps(site: Site, occurrence: Occurrence, after: Site)
    requires Moves(site, occurrence, after)
    ensures after.runner == site.runner || exists event :: R.Step(site.runner, event, after.runner)
  {
    match occurrence
    case Runs(event) =>
    case Changes(_, _) =>
    case Returns(stages) =>
      assert R.Step(site.runner, R.FactoryReturned(true), after.runner) ||
             R.Step(site.runner, R.FactoryReturned(false), after.runner);
  }

  lemma {:induction false} MoveKeeps(site: Site, occurrence: Occurrence, after: Site)
    requires R.Invariant(site.runner) && Kept(site.host, site.mounts, Active(site.runner))
    requires Moves(site, occurrence, after)
    ensures R.Invariant(after.runner) && Kept(after.host, after.mounts, Active(after.runner))
  {
    MovesAreSteps(site, occurrence, after);
    if after.runner != site.runner {
      var event :| R.Step(site.runner, event, after.runner);
      R.StepKeepsInvariant(site.runner, event, after.runner);
    }
    match occurrence
    case Runs(event) => EventKeeps(site, event, after);
    case Returns(stages) => ReturnKeeps(site, stages, after);
    case Changes(generation, stage) => ChangeKeeps(site, generation, stage, after);
  }

  ghost predicate Visit(sites: seq<Site>, occurrences: seq<Occurrence>) {
    && |sites| == |occurrences| + 1 && sites[0] == NEW_SITE
    && forall i :: 0 <= i < |occurrences| ==> Moves(sites[i], occurrences[i], sites[i + 1])
  }

  lemma {:induction false} AlwaysKept(sites: seq<Site>, occurrences: seq<Occurrence>, i: nat)
    requires Visit(sites, occurrences) && i < |sites|
    ensures R.Invariant(sites[i].runner) && Kept(sites[i].host, sites[i].mounts, Active(sites[i].runner))
  {
    if i == 0 {
      assert R.Live(R.INITIAL) == {};
      assert Active(R.INITIAL) == {};
    } else {
      AlwaysKept(sites, occurrences, i - 1);
      assert Moves(sites[i - 1], occurrences[i - 1], sites[i]);
      MoveKeeps(sites[i - 1], occurrences[i - 1], sites[i]);
    }
  }

  /** In every reachable state whatever is registered belongs to exactly one active generation, and
      every active generation has all it registered: a failed load, a reload, an unloaded or a
      cleared extension leaves nothing behind and takes nothing along. */
  lemma {:induction false} RegistrationsFollowActivity(sites: seq<Site>, occurrences: seq<Occurrence>, i: nat)
    requires Visit(sites, occurrences) && i < |sites|
    ensures
      var site := sites[i];
      && (forall key :: key in site.host.registry ==>
            exists g :: g in Active(site.runner) && g in site.mounts && Owns(site.host, site.mounts[g], key))
      && (forall g, h, key :: g in site.mounts && h in site.mounts && g != h ==>
            !(Owns(site.host, site.mounts[g], key) && Owns(site.host, site.mounts[h], key)))
      && (forall g :: g in Active(site.runner) ==>
            g in site.mounts && forall key :: key in site.mounts[g].names ==> Owns(site.host, site.mounts[g], key))
      && (Active(site.runner) == {} ==> site.host.registry == map[])
  {
    AlwaysKept(sites, occurrences, i);
    var site := sites[i];
    forall key | key in site.host.registry
      ensures exists g :: g in Active(site.runner) && g in site.mounts && Owns(site.host, site.mounts[g], key)
    {
      assert OwnedBy(site.host, site.mounts, Active(site.runner), key);
    }
    forall g | g in Active(site.runner)
      ensures g in site.mounts && forall key :: key in site.mounts[g].names ==> Owns(site.host, site.mounts[g], key)
    {
      assert Holds(site.host, site.mounts[g]) && ValidMount(site.mounts[g]);
      forall key | key in site.mounts[g].names ensures key in site.mounts[g].tokens {
        assert key in NameSet(site.mounts[g].names);
      }
    }
  }

  // ---------- which mounts succeed ----------

  /** Another active generation has registered one of the staged names. */
  ghost predicate Contested(site: Site, stage: Stage, previous: Generation) {
    exists key, g ::
      key in stage.registry && g in Active(site.runner) && g != previous && g in site.mounts &&
      Owns(site.host, site.mounts[g], key)
  }

  lemma {:induction false} OwnedByOthersIsInTheWay(site: Site, previous: Generation, g: Generation, key: Key)
    requires Kept(site.host, site.mounts, Active(site.runner))
    requires g in site.mounts && g != previous && Owns(site.host, site.mounts[g], key)
    ensures InTheWay(site.host, MountsOf(site.mounts, [previous]), key)
  {
    OneMountOf(site.mounts, [previous]);
    var mounts := MountsOf(site.mounts, [previous]);
    forall i | 0 <= i < |mounts| ensures !Owns(site.host, mounts[i], key) {
      assert mounts[i] == site.mounts[previous];
    }
  }

  lemma {:induction false} GenerationOwns(host: Host, mounts: Mounts, g: Generation, key: Key)
    requires g in mounts && Owns(host, mounts[g], key)
    ensures SomeOwner(host, MountsOf(mounts, [g]), key)
  {
    OneMountOf(mounts, [g]);
    assert Owns(host, [mounts[g]][0], key);
  }

  lemma {:induction false} InTheWayIsOwnedByOthers(site: Site, previous: Generation, key: Key) returns (g: Generation)
    requires Kept(site.host, site.mounts, Active(site.runner))
    requires InTheWay(site.host, MountsOf(site.mounts, [previous]), key)
    ensures g in Active(site.runner) && g in site.mounts && g != previous && Owns(site.host, site.mounts[g], key)
  {
    assert OwnedBy(site.host, site.mounts, Active(site.runner), key);
    g :| g in Active(site.runner) && g in site.mounts && Owns(site.host, site.mounts[g], key);
    GenerationOwns(site.host, site.mounts, g, key);
  }

  lemma {:induction false} RefusedIsContested(site: Site, stage: Stage, previous: Generation)
    requires Kept(site.host, site.mounts, Active(site.runner)) && ValidStage(stage)
    requires MountGeneration(site.host, stage, MountsOf(site.mounts, [previous])).Refused?
    ensures Contested(site, stage, previous)
  {
    var before := MountsOf(site.mounts, [previous]);
    FirstForeignExactly(site.host, stage.names, before);
    var k :| 0 <= k < |stage.names| && InTheWay(site.host, before, stage.names[k]);
    var g := InTheWayIsOwnedByOthers(site, previous, stage.names[k]);
    assert stage.names[k] in NameSet(stage.names);
  }

  lemma {:induction false} ContestedIsRefused(site: Site, stage: Stage, previous: Generation)
    requires Kept(site.host, site.mounts, Active(site.runner)) && ValidStage(stage) && Contested(site, stage, previous)
    ensures MountGeneration(site.host, stage, MountsOf(site.mounts, [previous])).Refused?
  {
    var key, g :|
      key in stage.registry && g in Active(site.runner) && g != previous && g in site.mounts &&
      Owns(site.host, site.mounts[g], key);
    OwnedByOthersIsInTheWay(site, previous, g, key);
    FirstForeignExactly(site.host, stage.names, MountsOf(site.mounts, [previous]));
    assert key in NameSet(stage.names);
  }

  /** In every reachable state: mounting in place of a generation, as a reload does and a change of what
      an active generation registers, is refused exactly when another active generation has registered
      one of the names. Keeping one's own names, and adding free ones, always succeeds. */
  lemma {:induction false} RemountRefusedExactly(sites: seq<Site>, occurrences: seq<Occurrence>, i: nat, stage: Stage, previous: Generation)
    requires Visit(sites, occurrences) && i < |sites| && ValidStage(stage)
    ensures MountGeneration(sites[i].host, stage, MountsOf(sites[i].mounts, [previous])).Refused? <==>
            Contested(sites[i], stage, previous)
  {
    AlwaysKept(sites, occurrences, i);
    if Contested(sites[i], stage, previous) { ContestedIsRefused(sites[i], stage, previous); }
    if MountGeneration(sites[i].host, stage, MountsOf(sites[i].mounts, [previous])).Refused? {
      RefusedIsContested(sites[i], stage, previous);
    }
  }
}
