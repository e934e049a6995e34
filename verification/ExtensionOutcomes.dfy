/** How the operations of the runner end: what is loaded then, what is disposed, and in which order. */
module ExtensionOutcomes {
  import opened Sequences
  import opened ExtensionOrder
  import opened ExtensionRunners

  /** What follows the callbacks that are awaited. */
  function Continued(s: State): State {
    match s.control
    case CleaningUp(generations) => CleanUp(s, generations)
    case Disposing(remaining) => DisposeNext(s, remaining)
    case _ => s
  }

  lemma {:induction false} ContinuingIsAStep(s: State)
    requires s.control.CleaningUp? || s.control.Disposing?
    ensures Step(s, CleanupDone, Continued(s))
  {
  }

  function Times(s: State, n: nat): State
    decreases n
  {
    if n == 0 then s else Times(Continued(s), n - 1)
  }

  // ---------- cleaning up ----------

  /** The phases after these generations were disposed. */
  predicate DisposedAlso(s: State, generations: seq<GenerationId>, t: State) {
    && t.loaded == s.loaded && t.generations == s.generations && t.phases.Keys == s.phases.Keys
    && forall g :: g in s.phases ==> t.phases[g] == if g in generations then Disposed else s.phases[g]
  }

  lemma {:induction false} DisposedChain(s: State, first: GenerationId, rest: seq<GenerationId>, middle: State, t: State)
    requires DisposedAlso(s, [first], middle) && DisposedAlso(middle, rest, t)
    ensures DisposedAlso(s, [first] + rest, t)
  {
  }

  /** However many generations are to be cleaned up, waiting that often disposes them all, and nothing
      else, and ends the operation. */
  lemma {:induction false} CleaningUpEnds(s: State, generations: seq<GenerationId>)
    ensures
      var t := Times(CleanUp(s, generations), |generations|);
      t.control.Idle? && DisposedAlso(s, generations, t)
    decreases |generations|
  {
    if generations != [] {
      var first, rest := generations[0], generations[1..];
      var middle := CleanUp(s, generations);
      CleaningUpEnds(middle, rest);
      assert DisposedAlso(s, [first], middle);
      DisposedChain(s, first, rest, middle, Times(CleanUp(middle, rest), |rest|));
      assert generations == [first] + rest;
    }
  }

  /** They go one after the other: when the k-th is disposed, those behind it are not yet. */
  lemma {:induction false} CleaningUpGoesInOrder(s: State, generations: seq<GenerationId>, k: nat)
    requires k < |generations|
    ensures DisposedAlso(s, generations[..k + 1], Times(CleanUp(s, generations), k))
    ensures Times(CleanUp(s, generations), k).control == CleaningUp(generations[k + 1..])
    decreases k
  {
    var first, rest, middle := generations[0], generations[1..], CleanUp(s, generations);
    assert DisposedAlso(s, [first], middle);
    if k == 0 {
      assert generations[..1] == [first];
    } else {
      CleaningUpGoesInOrder(middle, rest, k - 1);
      DisposedChain(s, first, rest[..k], middle, Times(CleanUp(middle, rest), k - 1));
      assert generations[..k + 1] == [first] + rest[..k];
      assert rest[k..] == generations[k + 1..];
    }
  }

  function NewOnes(prepared: seq<Prepared>): seq<GenerationId> {
    if prepared == [] then [] else NewOnes(prepared[..|prepared| - 1]) + [prepared[|prepared| - 1].generation]
  }

  function OldOnes(prepared: seq<Prepared>): seq<GenerationId> {
    if prepared == [] then []
    else
      var last := prepared[|prepared| - 1];
      OldOnes(prepared[..|prepared| - 1]) + if last.previous.Some? then [last.previous.value] else []
  }

  /** A failed batch is taken back, and a successful one retires its predecessors, last first. */
  lemma {:induction false} LastGoesFirst(prepared: seq<Prepared>)
    ensures GenerationsBackwards(prepared) == Reversed(NewOnes(prepared))
    ensures PreviousBackwards(prepared) == Reversed(OldOnes(prepared))
  {
    if prepared != [] {
      var init, last := prepared[..|prepared| - 1], prepared[|prepared| - 1];
      LastGoesFirst(init);
      ReversedSnoc(NewOnes(init), last.generation);
      if last.previous.Some? { ReversedSnoc(OldOnes(init), last.previous.value); } else { ConcatNothing(OldOnes(init)); }
    }
  }

  // ---------- one extension ----------

  /** A load that goes through: the name stands for the new generation, which is active, and the one it
      had before is disposed; all others are as they were. */
  lemma {:induction false} LoadGoesThrough(s: State, current: Module, generation: GenerationId)
    requires IsPreparing(s, generation) && Unbound(s, generation)
    ensures
      var t := FinishOne(s, current, generation, true);
      && t.loaded == s.loaded[current.name := current] && t.generations == s.generations[current.name := generation]
      && IsActive(t, generation)
      && (forall g :: g in s.phases && g != generation ==>
            g in t.phases && t.phases[g] ==
              if current.name in s.generations && g == s.generations[current.name] then Disposed else s.phases[g])
  {
  }

  /** A load that does not: the new generation is disposed, and all else is as it was. */
  lemma {:induction false} LoadComesToNothing(s: State, current: Module, generation: GenerationId, mounts: bool)
    requires generation in s.phases && (!IsPreparing(s, generation) || !mounts)
    ensures DisposedAlso(s, [generation], FinishOne(s, current, generation, mounts))
  {
  }

  // ---------- a batch ----------

  /** After the swap every name of the batch stands for its new generation. */
  lemma {:induction false} AdoptionBinds(s: State, prepared: seq<Prepared>, i: nat)
    requires UniquePrepared(prepared) && i < |prepared|
    ensures
      var t, p := AdoptAll(s, prepared), prepared[i];
      && p.current.name in t.loaded && t.loaded[p.current.name] == p.current
      && p.current.name in t.generations && t.generations[p.current.name] == p.generation && IsActive(t, p.generation)
    decreases |prepared|
  {
    var init, last := prepared[..|prepared| - 1], prepared[|prepared| - 1];
    if i < |init| {
      assert UniquePrepared(init) by {
        forall a, b | 0 <= a < b < |init|
          ensures init[a].current.name != init[b].current.name && init[a].generation != init[b].generation
        {
          assert prepared[a] == init[a] && prepared[b] == init[b];
        }
      }
      AdoptionBinds(s, init, i);
      assert prepared[i] == init[i] && prepared[i].current.name != prepared[|prepared| - 1].current.name;
    }
  }

  lemma {:induction false} AbortingDisposesOld(s: State, prepared: seq<Prepared>)
    ensures
      var t := InvalidateAll(s, prepared);
      && t.loaded == s.loaded && t.generations == s.generations && t.phases.Keys == s.phases.Keys
      && forall g :: g in s.phases ==> t.phases[g] == if g in OldOnes(prepared) then Disposed else s.phases[g]
  {
    if prepared != [] {
      var init, last := prepared[..|prepared| - 1], prepared[|prepared| - 1];
      AbortingDisposesOld(s, init);
      if last.previous.Some? { Snoc(OldOnes(init), last.previous.value); } else { ConcatNothing(OldOnes(init)); }
    }
  }

  /** A batch that goes through: every module of it is loaded under its name with its new generation
      active, and every generation it replaces is disposed. */
  lemma {:induction false} BatchGoesThrough(s: State, prepared: seq<Prepared>, i: nat)
    requires UniquePrepared(prepared) && i < |prepared| && AllPreparing(s, prepared) && PreparedUnbound(s, prepared)
    ensures
      var t, p := FinishBatch(s, prepared, true), prepared[i];
      && p.current.name in t.loaded && t.loaded[p.current.name] == p.current
      && p.current.name in t.generations && t.generations[p.current.name] == p.generation && IsActive(t, p.generation)
      && (p.previous.Some? && p.previous.value in s.phases ==>
            p.previous.value in t.phases && t.phases[p.previous.value] == Disposed)
  {
    var adopted := AdoptAll(s, prepared);
    AdoptionBinds(s, prepared, i);
    AbortingDisposesOld(adopted, prepared);
    NewIsNotOld(s, prepared, prepared[i].generation);
    OldOnesMembers(prepared, i);
    AdoptionKeepsPhases(s, prepared);
    RetiredWereOld(prepared);
    var replaced := InvalidateAll(adopted, prepared);
    assert FinishBatch(s, prepared, true) == CleanUp(replaced, PreviousBackwards(prepared));
  }

  lemma {:induction false} AdoptionKeepsPhases(s: State, prepared: seq<Prepared>)
    ensures s.phases.Keys <= AdoptAll(s, prepared).phases.Keys
  {
    if prepared != [] { AdoptionKeepsPhases(s, prepared[..|prepared| - 1]); }
  }

  lemma {:induction false} OldOnesMembers(prepared: seq<Prepared>, i: nat)
    requires i < |prepared|
    ensures prepared[i].previous.Some? ==> prepared[i].previous.value in OldOnes(prepared)
  {
    if i < |prepared| - 1 { OldOnesMembers(prepared[..|prepared| - 1], i); }
  }

  lemma {:induction false} OldWasBound(s: State, prepared: seq<Prepared>, g: GenerationId)
    requires PreparedUnbound(s, prepared) && g in OldOnes(prepared)
    ensures exists name :: name in s.generations && s.generations[name] == g
  {
    var init, last := prepared[..|prepared| - 1], prepared[|prepared| - 1];
    if g in OldOnes(init) {
      forall i | 0 <= i < |init|
        ensures Unbound(s, init[i].generation) && !IsActive(s, init[i].generation) &&
                init[i].previous == Previous(s, init[i].current.name)
      {
        assert init[i] == prepared[i];
      }
      OldWasBound(s, init, g);
    } else {
      assert prepared[|prepared| - 1].previous == Previous(s, last.current.name);
    }
  }

  lemma {:induction false} NewIsNotOld(s: State, prepared: seq<Prepared>, g: GenerationId)
    requires PreparedUnbound(s, prepared) && Unbound(s, g)
    ensures g !in OldOnes(prepared)
  {
    if g in OldOnes(prepared) { OldWasBound(s, prepared, g); }
  }

  lemma {:induction false} RetiredWereOld(prepared: seq<Prepared>)
    ensures forall g :: g in PreviousBackwards(prepared) <==> g in OldOnes(prepared)
  {
    if prepared != [] { RetiredWereOld(prepared[..|prepared| - 1]); }
  }

  /** A batch that does not: waiting for its clean-ups disposes every generation of it, last first, and
      leaves all else as it was. */
  lemma {:induction false} BatchComesToNothing(s: State, prepared: seq<Prepared>, mounts: bool)
    requires !AllPreparing(s, prepared) || !mounts
    ensures
      var t := Times(FinishBatch(s, prepared, mounts), |prepared|);
      t.control.Idle? && DisposedAlso(s, Reversed(NewOnes(prepared)), t)
  {
    LastGoesFirst(prepared);
    AsManyNew(prepared);
    CleaningUpEnds(s, GenerationsBackwards(prepared));
  }

  lemma {:induction false} AsManyNew(prepared: seq<Prepared>)
    ensures |GenerationsBackwards(prepared)| == |prepared|
  {
    if prepared != [] { AsManyNew(prepared[..|prepared| - 1]); }
  }

  // ---------- disposing ----------

  lemma {:induction false} DisposingContinues(s: State, remaining: seq<Module>)
    requires remaining != []
    ensures Continued(DisposeNext(s, remaining)) == DisposeNext(DisposeNext(s, remaining), remaining[1..])
  {
  }

  /** Disposing modules whose names are all that is loaded leaves nothing loaded, and ends. */
  lemma {:induction false} DisposingEnds(s: State, remaining: seq<Module>)
    requires s.loaded.Keys <= Names(remaining) && s.generations.Keys <= Names(remaining)
    ensures
      var t := Times(DisposeNext(s, remaining), |remaining|);
      t.control.Idle? && t.loaded == map[] && t.generations == map[]
    decreases |remaining|
  {
    if remaining != [] {
      var t := DisposeNext(s, remaining);
      NamesSplit(remaining);
      DisposingContinues(s, remaining);
      DisposingEnds(t, remaining[1..]);
    }
  }

  /** A dispose that is accepted ends with nothing loaded, having removed each extension before those it
      needs: the k-th to go is the k-th from the end of a topological order. */
  lemma {:induction false} AcceptedDisposeRemovesAll(s: State, order: seq<Module>, t: State)
    requires Invariant(s) && Orderable(s.loaded) && Step(s, StartDispose(order), t)
    ensures Topological(s.loaded, order) && t == DisposeNext(s, Reversed(order))
    ensures Times(t, |order|).control.Idle? && Times(t, |order|).loaded == map[] && Times(t, |order|).generations == map[]
  {
    SameNamesReversed(order);
    DisposingEnds(s, Reversed(order));
  }

  lemma {:induction false} SameNamesReversed(order: seq<Module>)
    ensures Names(Reversed(order)) == Names(order)
  {
    if order != [] {
      var init, last := order[..|order| - 1], order[|order| - 1];
      SameNamesReversed(init);
      InitAndLast(order);
      NamesSnoc(init, last);
      ReversedSnoc(init, last);
      NamesSplit(Reversed(order));
      assert Reversed(order)[1..] == Reversed(init);
    }
  }
}
