/** The host that extensions register with, changed in place. */
module ExtensionHosts {
  import opened Sequences
  import opened Entries
  import opened ExtensionMounts

  datatype MountResult = Accepted(mount: Mount) | Rejected(reason: Refusal)
  datatype BatchResult = Replaced(mounts: seq<Mount>) | NotReplaced(reason: Refusal)

  class ExtensionHost {
    var registry: map<Key, Definition>
    var tokens: map<Key, Token>
    var hooks: seq<Hook>
    var nextToken: Token

    function Value(): Host
      reads this
    {
      Host(registry, tokens, hooks, nextToken)
    }

    constructor ()
      ensures Value() == Host(map[], map[], [], 0) && ValidHost(Value())
    {
      registry, tokens, hooks, nextToken := map[], map[], [], 0;
    }

    /** Registering replaces whatever had the name and issues a new token. */
    method Register(key: Key, definition: Definition) returns (token: Token)
      requires ValidHost(Value())
      modifies this
      ensures ValidHost(Value()) && hooks == old(hooks)
      ensures registry == old(registry)[key := definition] && tokens == old(tokens)[key := token]
      ensures forall other :: other in old(tokens) ==> old(tokens)[other] != token
    {
      token := nextToken;
      registry := registry[key := definition];
      tokens := tokens[key := token];
      nextToken := nextToken + 1;
    }

    method UnregisterKey(key: Key)
      modifies this`registry, this`tokens
      ensures Value() == Unregister(old(Value()), key)
    {
      tokens := tokens - {Target(key)};
      registry := registry - {Target(key)};
    }

    method DisposeMount(mount: Mount)
      modifies this`registry, this`tokens, this`hooks
      ensures Value() == Dispose(old(Value()), mount)
    {
      for i := 0 to |mount.names|
        invariant Value() == DisposeNames(old(Value()), mount, mount.names[..i])
      {
        assert mount.names[..i + 1][..i] == mount.names[..i];
        if Owns(Value(), mount, mount.names[i]) { UnregisterKey(mount.names[i]); }
      }
      assert mount.names[..|mount.names|] == mount.names;
      hooks := WithoutHooks(hooks, mount.hooks);
    }

    method DisposeMounts(mounts: seq<Mount>)
      modifies this`registry, this`tokens, this`hooks
      ensures Value() == DisposeAll(old(Value()), mounts)
    {
      for i := 0 to |mounts|
        invariant Value() == DisposeAll(old(Value()), mounts[..i])
      {
        TakeOneMore(mounts, i);
        DisposeMount(mounts[i]);
      }
      TakeAll(mounts);
    }

    /** Every check comes first; then the old mount is disposed and the stage installed. */
    method Mount(stage: Stage, previous: seq<Mount>) returns (result: MountResult)
      requires |previous| <= 1
      modifies this
      ensures match MountGeneration(old(Value()), stage, previous)
              case Refused(reason) => result == Rejected(reason) && Value() == old(Value())
              case Mounted(host, mount) => result == Accepted(mount) && Value() == host
      // Accepted exactly when no staged name is registered by anybody but the mount to be replaced.
      ensures result.Accepted? <==> forall i :: 0 <= i < |stage.names| ==> !InTheWay(old(Value()), previous, stage.names[i])
      ensures result.Rejected? ==> result.reason.ForeignOwner? && InTheWay(old(Value()), previous, result.reason.key)
    {
      FirstForeignExactly(Value(), stage.names, previous);
      var foreign := FirstForeign(Value(), stage.names, previous);
      if foreign.Some? { return Rejected(ForeignOwner(foreign.value)); }
      DisposeMounts(previous);
      result := Accepted(MountOf(Value(), stage));
      registry := registry + stage.registry;
      tokens := tokens + FreshTokens(stage.names, nextToken);
      hooks := hooks + stage.hooks;
      nextToken := nextToken + |stage.names|;
    }

    /** The preflight of a batch: scans every staged name once, remembering what it has seen. */
    method Check(stages: seq<Stage>, previous: seq<Mount>) returns (refusal: Option<Refusal>)
      requires ValidStages(stages)
      ensures refusal.None? <==> Preflight(Value(), stages, previous)
    {
      var seen: set<Key> := {};
      for i := 0 to |stages|
        invariant seen == Union(stages[..i]).Keys
        invariant Preflight(Value(), stages[..i], previous)
      {
        var names := stages[i].names;
        assert ValidStage(stages[i]);
        for j := 0 to |names|
          invariant seen == Union(stages[..i]).Keys + NameSet(names[..j])
          invariant forall k :: 0 <= k < j ==>
            names[k] !in Union(stages[..i]) && (names[k] in registry ==> SomeOwner(Value(), previous, names[k]))
        {
          var key := names[j];
          if key in seen {
            assert key !in NameSet(names[..j]);
            RepeatedName(stages, i, key);
            return Some(DuplicateName(key));
          }
          if key in registry && !SomeOwner(Value(), previous, key) {
            assert key in stages[i].registry;
            return Some(ForeignOwner(key));
          }
          NameSetTake(names, j);
          seen := seen + {key};
        }
        TakeAll(names);
        TakeOneMore(stages, i);
        PreflightSnoc(Value(), stages, i, previous);
      }
      TakeAll(stages);
      return None;
    }

    /** Replaces a group of generations: nothing changes unless the whole group passes preflight,
        and unless a registered, staged name with a slash is not dropped it is replaced as a whole. */
    method MountBatch(stages: seq<Stage>, previous: seq<Mount>) returns (result: BatchResult)
      requires ValidHost(Value()) && ValidStages(stages)
      modifies this
      ensures !Preflight(old(Value()), stages, previous) ==> result.NotReplaced? && Value() == old(Value())
      ensures Preflight(old(Value()), stages, previous) ==>
              match Cutover(old(Value()), stages, previous)
              case AllMounted(host, mounts) => result == Replaced(mounts) && Value() == host
              case BatchRefused(host, reason) => result == NotReplaced(reason) && Value() == host
      ensures Preflight(old(Value()), stages, previous) && ValidMounts(previous) ==>
                (result.Replaced? <==> SlashedDropped(old(Value()), stages, OwnedNames(old(Value()), previous)))
      ensures Preflight(old(Value()), stages, previous) && ValidMounts(previous) && result.Replaced? ==>
                OwnStages(Value(), stages, result.mounts) && ValidHost(Value())
    {
      ghost var before := Value();
      var refusal := Check(stages, previous);
      if refusal.Some? { return NotReplaced(refusal.value); }
      if ValidMounts(previous) { CutoverOwns(before, stages, previous); }
      DisposeMounts(previous);
      result := MountStages(stages);
    }

    /** Mounts one stage after the other, up to the first that is refused. */
    method MountStages(stages: seq<Stage>) returns (result: BatchResult)
      modifies this
      ensures match MountEach(old(Value()), stages)
              case AllMounted(host, mounts) => result == Replaced(mounts) && Value() == host
              case BatchRefused(host, reason) => result == NotReplaced(reason) && Value() == host
    {
      ghost var cleared := Value();
      var mounts: seq<ExtensionMounts.Mount> := [];
      for i := 0 to |stages|
        invariant MountEach(cleared, stages[..i]) == AllMounted(Value(), mounts)
      {
        TakeOneMore(stages, i);
        var mounted := Mount(stages[i], []);
        if mounted.Rejected? {
          RefusalStays(cleared, stages, i);
          return NotReplaced(mounted.reason);
        }
        mounts := mounts + [mounted.mount];
      }
      TakeAll(stages);
      return Replaced(mounts);
    }
  }

  lemma {:induction false} RefusalStays(host: Host, stages: seq<Stage>, i: nat)
    requires i < |stages| && MountEach(host, stages[..i + 1]).BatchRefused?
    ensures MountEach(host, stages) == MountEach(host, stages[..i + 1])
    decreases |stages|
  {
    if i + 1 == |stages| {
      assert stages[..i + 1] == stages;
    } else {
      var init := stages[..|stages| - 1];
      assert init[..i + 1] == stages[..i + 1];
      RefusalStays(host, init, i);
    }
  }

  lemma {:induction false} RepeatedName(stages: seq<Stage>, i: nat, key: Key)
    requires i < |stages| && key in stages[i].registry && key in Union(stages[..i])
    ensures !Disjoint(stages)
  {
    UnionKeys(stages[..i], key);
    var k :| 0 <= k < i && key in stages[..i][k].registry;
    assert key in stages[k].registry.Keys * stages[i].registry.Keys;
    assert !(stages[k].registry.Keys !! stages[i].registry.Keys);
  }

  lemma {:induction false} PreflightSnoc(host: Host, stages: seq<Stage>, i: nat, previous: seq<Mount>)
    requires i < |stages| && ValidStage(stages[i]) && Preflight(host, stages[..i], previous)
    requires forall k :: 0 <= k < |stages[i].names| ==>
      stages[i].names[k] !in Union(stages[..i]) &&
      (stages[i].names[k] in host.registry ==> SomeOwner(host, previous, stages[i].names[k]))
    ensures Preflight(host, stages[..i + 1], previous)
  {
    var longer := stages[..i + 1];
    forall a, b | 0 <= a < b < |longer| ensures longer[a].registry.Keys !! longer[b].registry.Keys {
      if b < i {
        assert stages[..i][a].registry.Keys !! stages[..i][b].registry.Keys;
      } else {
        forall key | key in stages[i].registry ensures key !in stages[a].registry {
          UnionKeys(stages[..i], key);
          assert key in NameSet(stages[i].names);
          assert stages[..i][a] == stages[a];
        }
      }
    }
    forall a, key | 0 <= a < |longer| && key in longer[a].registry && key in host.registry
      ensures SomeOwner(host, previous, key)
    {
      if a < i { assert key in stages[..i][a].registry; } else { assert key in NameSet(stages[i].names); }
    }
  }

  lemma {:induction false} NameSetTake(names: seq<Key>, j: nat)
    requires j < |names|
    ensures NameSet(names[..j + 1]) == NameSet(names[..j]) + {names[j]}
  {
    TakeOneMore(names, j);
    forall key | key in NameSet(names[..j + 1]) ensures key in NameSet(names[..j]) + {names[j]} {
      var k :| 0 <= k < j + 1 && names[..j + 1][k] == key;
      if k < j { assert names[..j][k] == key; }
    }
    forall key | key in NameSet(names[..j]) ensures key in NameSet(names[..j + 1]) {
      var k :| 0 <= k < j && names[..j][k] == key;
      assert names[..j + 1][k] == key;
    }
    assert names[..j + 1][j] == names[j];
  }
}
