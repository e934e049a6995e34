/** Registration mounts: ownership tokens, disposal, and the batch cutover, on values. */
module ExtensionMounts {
  import opened Sequences
  import opened Entries

  datatype Kind = Tools | Commands | Shortcuts
  datatype Key = Key(kind: Kind, name: string)

  type Definition = string
  type Hook = nat
  type Token = nat

  /** What a host holds. Hooks stand for its three arrays of callbacks, which are treated alike. */
  datatype Host = Host(registry: map<Key, Definition>, tokens: map<Key, Token>, hooks: seq<Hook>, nextToken: Token)

  /** A prepared set of registrations; `names` lists them in insertion order. */
  datatype Stage = Stage(names: seq<Key>, registry: map<Key, Definition>, hooks: seq<Hook>)

  /** The identities a generation received when it was mounted. */
  datatype Mount = Mount(names: seq<Key>, tokens: map<Key, Token>, hooks: seq<Hook>)

  datatype Refusal = ForeignOwner(key: Key) | DuplicateName(key: Key)
  datatype Mounting = Mounted(host: Host, mount: Mount) | Refused(reason: Refusal)
  datatype BatchMounting = AllMounted(host: Host, mounts: seq<Mount>) | BatchRefused(host: Host, reason: Refusal)

  function NameSet(names: seq<Key>): set<Key> {
    set key | key in names
  }

  predicate ValidStage(stage: Stage) {
    && (forall i, j :: 0 <= i < j < |stage.names| ==> stage.names[i] != stage.names[j])
    && stage.registry.Keys == NameSet(stage.names)
  }

  predicate ValidMount(mount: Mount) {
    mount.tokens.Keys == NameSet(mount.names)
  }

  /** Every registration has a token and tokens are never reissued. */
  predicate ValidHost(host: Host) {
    host.tokens.Keys == host.registry.Keys && forall key :: key in host.tokens ==> host.tokens[key] < host.nextToken
  }

  /** Unregistering a command strips one leading slash; mounting does not. */
  function Target(key: Key): Key {
    if key.kind.Commands? && key.name != "" && key.name[0] == '/' then Key(Commands, key.name[1..]) else key
  }

  predicate Normalised(key: Key) {
    Target(key) == key
  }

  predicate Owns(host: Host, mount: Mount, key: Key) {
    key in mount.tokens && key in host.tokens && host.tokens[key] == mount.tokens[key]
  }

  function Unregister(host: Host, key: Key): Host {
    host.(registry := host.registry - {Target(key)}, tokens := host.tokens - {Target(key)})
  }

  function DisposeNames(host: Host, mount: Mount, names: seq<Key>): Host {
    if names == [] then host
    else
      var earlier := DisposeNames(host, mount, names[..|names| - 1]);
      var key := names[|names| - 1];
      if Owns(earlier, mount, key) then Unregister(earlier, key) else earlier
  }

  function WithoutHooks(hooks: seq<Hook>, gone: seq<Hook>): seq<Hook> {
    if hooks == [] then []
    else
      var last := hooks[|hooks| - 1];
      WithoutHooks(hooks[..|hooks| - 1], gone) + if last in gone then [] else [last]
  }

  function Dispose(host: Host, mount: Mount): Host {
    var disposed := DisposeNames(host, mount, mount.names);
    disposed.(hooks := WithoutHooks(disposed.hooks, mount.hooks))
  }

  function DisposeAll(host: Host, mounts: seq<Mount>): Host {
    if mounts == [] then host
    else Dispose(DisposeAll(host, mounts[..|mounts| - 1]), mounts[|mounts| - 1])
  }

  /** Fresh tokens, in the order of the names. */
  function FreshTokens(names: seq<Key>, first: Token): map<Key, Token> {
    if names == [] then map[]
    else FreshTokens(names[..|names| - 1], first)[names[|names| - 1] := first + |names| - 1]
  }

  function Install(host: Host, stage: Stage): Host {
    Host(host.registry + stage.registry, host.tokens + FreshTokens(stage.names, host.nextToken),
         host.hooks + stage.hooks, host.nextToken + |stage.names|)
  }

  function MountOf(host: Host, stage: Stage): Mount {
    Mount(stage.names, FreshTokens(stage.names, host.nextToken), stage.hooks)
  }

  /** The first staged name that is registered without belonging to `previous`. */
  function FirstForeign(host: Host, names: seq<Key>, previous: seq<Mount>): Option<Key> {
    if names == [] then None
    else if names[0] in host.registry && !SomeOwner(host, previous, names[0]) then Some(names[0])
    else FirstForeign(host, names[1..], previous)
  }

  predicate SomeOwner(host: Host, mounts: seq<Mount>, key: Key) {
    exists i :: 0 <= i < |mounts| && Owns(host, mounts[i], key)
  }

  /** A staged name is in the way when it is registered and the mounts to be replaced do not own it. */
  predicate InTheWay(host: Host, previous: seq<Mount>, key: Key) {
    key in host.registry && !SomeOwner(host, previous, key)
  }

  /** The answer is the first name in the way, if there is one. */
  lemma {:induction false} FirstForeignExactly(host: Host, names: seq<Key>, previous: seq<Mount>)
    ensures
      var foreign := FirstForeign(host, names, previous);
      && (foreign.None? <==> forall i :: 0 <= i < |names| ==> !InTheWay(host, previous, names[i]))
      && (foreign.Some? ==> exists i :: 0 <= i < |names| && names[i] == foreign.value && InTheWay(host, previous, names[i]) &&
                                        forall j :: 0 <= j < i ==> !InTheWay(host, previous, names[j]))
  {
    if names != [] && !InTheWay(host, previous, names[0]) {
      var rest := names[1..];
      FirstForeignExactly(host, rest, previous);
      assert forall i :: 0 <= i < |rest| ==> rest[i] == names[i + 1];
      var foreign := FirstForeign(host, rest, previous);
      if foreign.Some? {
        var i :| 0 <= i < |rest| && rest[i] == foreign.value && InTheWay(host, previous, rest[i]) &&
                 forall j :: 0 <= j < i ==> !InTheWay(host, previous, rest[j]);
        assert names[i + 1] == foreign.value;
        forall j | 0 <= j < i + 1 ensures !InTheWay(host, previous, names[j]) {
          if j > 0 { assert !InTheWay(host, previous, rest[j - 1]); }
        }
      } else {
        forall i | 0 <= i < |names| ensures !InTheWay(host, previous, names[i]) {
          if i > 0 { assert !InTheWay(host, previous, rest[i - 1]); }
        }
      }
    }
  }

  /** `previous` holds at most one mount here. */
  function MountGeneration(host: Host, stage: Stage, previous: seq<Mount>): Mounting {
    var foreign := FirstForeign(host, stage.names, previous);
    if foreign.Some? then Refused(ForeignOwner(foreign.value))
    else
      var cleared := DisposeAll(host, previous);
      Mounted(Install(cleared, stage), MountOf(cleared, stage))
  }

  function MountEach(host: Host, stages: seq<Stage>): BatchMounting {
    if stages == [] then AllMounted(host, [])
    else match MountEach(host, stages[..|stages| - 1])
      case BatchRefused(after, reason) => BatchRefused(after, reason)
      case AllMounted(after, mounts) => (
        match MountGeneration(after, stages[|stages| - 1], [])
        case Refused(reason) => BatchRefused(after, reason)
        case Mounted(installed, mount) => AllMounted(installed, mounts + [mount]))
  }

  // ---------- preflight ----------

  predicate Disjoint(stages: seq<Stage>) {
    forall i, j :: 0 <= i < j < |stages| ==> stages[i].registry.Keys !! stages[j].registry.Keys
  }

  /** No name twice, and every registered name belongs to a generation being replaced. */
  predicate Preflight(host: Host, stages: seq<Stage>, previous: seq<Mount>) {
    && Disjoint(stages)
    && forall i, key :: 0 <= i < |stages| && key in stages[i].registry && key in host.registry ==>
         SomeOwner(host, previous, key)
  }

  /** Old generations are disposed and new ones mounted one by one, without naming the old ones. */
  function Cutover(host: Host, stages: seq<Stage>, previous: seq<Mount>): BatchMounting {
    MountEach(DisposeAll(host, previous), stages)
  }

  // ---------- what disposal removes ----------

  predicate Slashed(key: Key) {
    Target(key) != key
  }

  /** Only commands have slashed names; unregistering takes the first slash off, and nothing else. */
  lemma {:induction false} OnlyCommandsAreSlashed(key: Key)
    ensures Slashed(key) <==> key.kind.Commands? && key.name != "" && key.name[0] == '/'
    ensures Slashed(key) ==> Target(key).kind == key.kind && "/" + Target(key).name == key.name
    ensures !Slashed(key) ==> Target(key) == key
  {
    if key.kind.Commands? && key.name != "" && key.name[0] == '/' { assert |Target(key).name| < |key.name|; }
  }

  predicate NormalisedNames(names: seq<Key>) {
    forall i :: 0 <= i < |names| ==> Normalised(names[i])
  }

  /** Names registered with at most two leading slashes, of which the host strips one. */
  predicate SingleSlashNames(names: seq<Key>) {
    forall j :: 0 <= j < |names| ==> !Slashed(Target(names[j]))
  }

  /** An owned name among these is unregistered as `key`. */
  predicate Frees(host: Host, mount: Mount, names: seq<Key>, key: Key) {
    exists name :: name in names && Owns(host, mount, name) && Target(name) == key
  }

  /** Disposal never adds or changes anything. */
  ghost predicate Shrinks(host: Host, after: Host) {
    && after.nextToken == host.nextToken && after.registry.Keys == after.tokens.Keys
    && (forall key :: key in after.tokens ==> key in host.tokens && after.tokens[key] == host.tokens[key])
    && (forall key :: key in after.registry ==> key in host.registry && after.registry[key] == host.registry[key])
  }

  lemma {:induction false} FreesSnoc(host: Host, mount: Mount, names: seq<Key>, key: Key)
    requires names != []
    ensures
      var init, last := names[..|names| - 1], names[|names| - 1];
      Frees(host, mount, names, key) <==>
        Frees(host, mount, init, key) || (Owns(host, mount, last) && Target(last) == key)
  {
    InitAndLast(names);
    var init := names[..|names| - 1];
    if Frees(host, mount, init, key) {
      var name :| name in init && Owns(host, mount, name) && Target(name) == key;
      assert name in names;
    }
    if Owns(host, mount, names[|names| - 1]) && Target(names[|names| - 1]) == key {
      assert names[|names| - 1] in names;
    }
  }

  /** One turn of the loop: the name's target goes if the name is still owned. */
  lemma {:induction false} DisposeNamesStep(host: Host, mount: Mount, names: seq<Key>, key: Key)
    requires host.registry.Keys == host.tokens.Keys && names != []
    requires Shrinks(host, DisposeNames(host, mount, names[..|names| - 1]))
    ensures
      var earlier, last := DisposeNames(host, mount, names[..|names| - 1]), names[|names| - 1];
      && Shrinks(host, DisposeNames(host, mount, names))
      && (key in DisposeNames(host, mount, names).registry <==>
            key in earlier.registry && !(Target(last) == key && Owns(host, mount, last) && last in earlier.registry))
  {
  }

  /** Whatever goes was freed by an owned name, and every owned name frees its target unless
      another freed the name itself first. */
  lemma {:induction false} DisposeNamesFrees(host: Host, mount: Mount, names: seq<Key>, key: Key)
    requires host.registry.Keys == host.tokens.Keys
    ensures Shrinks(host, DisposeNames(host, mount, names))
    ensures key in host.registry && key !in DisposeNames(host, mount, names).registry ==> Frees(host, mount, names, key)
    ensures forall name :: name in names && Owns(host, mount, name) && Target(name) == key &&
                           (Slashed(name) ==> !Frees(host, mount, names, name)) ==>
              key !in DisposeNames(host, mount, names).registry
  {
    if names != [] {
      var init, last := names[..|names| - 1], names[|names| - 1];
      InitAndLast(names);
      DisposeNamesFrees(host, mount, init, key);
      DisposeNamesFrees(host, mount, init, last);
      DisposeNamesStep(host, mount, names, key);
      FreesSnoc(host, mount, names, key);
      forall name | name in names && Owns(host, mount, name) && Target(name) == key &&
                    (Slashed(name) ==> !Frees(host, mount, names, name))
        ensures key !in DisposeNames(host, mount, names).registry
      {
        FreesSnoc(host, mount, names, name);
      }
    }
  }

  lemma {:induction false} DisposeNamesKeepsHooks(host: Host, mount: Mount, names: seq<Key>)
    ensures DisposeNames(host, mount, names).hooks == host.hooks
  {
    if names != [] { DisposeNamesKeepsHooks(host, mount, names[..|names| - 1]); }
  }

  /** What one mount removes, whatever its names. With names of one slash at most, a key goes
      exactly when a name the mount still holds the token of is unregistered as that key. */
  lemma {:induction false} DisposeRemovesOwned(host: Host, mount: Mount)
    requires host.registry.Keys == host.tokens.Keys && ValidMount(mount)
    ensures
      var after := Dispose(host, mount);
      && Shrinks(host, after) && after.hooks == WithoutHooks(host.hooks, mount.hooks)
      && (forall key :: key in host.registry && key !in after.registry ==> Frees(host, mount, mount.names, key))
      && (forall name :: Owns(host, mount, name) && (Slashed(name) ==> !Frees(host, mount, mount.names, name)) ==>
            Target(name) !in after.registry)
      && (SingleSlashNames(mount.names) ==> forall key :: key in host.registry ==>
            (key !in after.registry <==> Frees(host, mount, mount.names, key)))
      && (NormalisedNames(mount.names) ==> forall key :: key in host.registry ==>
            (key !in after.registry <==> Owns(host, mount, key)))
  {
    DisposeNamesKeepsHooks(host, mount, mount.names);
    forall key ensures
      && Shrinks(host, Dispose(host, mount))
      && (key in host.registry && key !in Dispose(host, mount).registry ==> Frees(host, mount, mount.names, key))
      && (forall name :: Owns(host, mount, name) && Target(name) == key &&
                         (Slashed(name) ==> !Frees(host, mount, mount.names, name)) ==>
            key !in Dispose(host, mount).registry)
    {
      DisposeNamesFrees(host, mount, mount.names, key);
      forall name | Owns(host, mount, name) ensures name in mount.names {
        assert name in NameSet(mount.names);
      }
    }
    if SingleSlashNames(mount.names) {
      forall key, name | name in mount.names && Target(name) == key ensures !Slashed(key) {
      }
    }
  }

  predicate ValidMounts(mounts: seq<Mount>) {
    forall i :: 0 <= i < |mounts| ==> ValidMount(mounts[i])
  }

  predicate NormalisedMounts(mounts: seq<Mount>) {
    forall i :: 0 <= i < |mounts| ==> NormalisedNames(mounts[i].names)
  }

  predicate SingleSlash(mounts: seq<Mount>) {
    forall i :: 0 <= i < |mounts| ==> SingleSlashNames(mounts[i].names)
  }

  /** A name some mount owns is unregistered as `key`. */
  predicate Freed(host: Host, mounts: seq<Mount>, key: Key) {
    exists i :: 0 <= i < |mounts| && Frees(host, mounts[i], mounts[i].names, key)
  }

  lemma {:induction false} SomeOwnerSnoc(host: Host, mounts: seq<Mount>, key: Key)
    requires mounts != []
    ensures SomeOwner(host, mounts, key) <==>
            SomeOwner(host, mounts[..|mounts| - 1], key) || Owns(host, mounts[|mounts| - 1], key)
  {
    var init := mounts[..|mounts| - 1];
    if SomeOwner(host, init, key) {
      var i :| 0 <= i < |init| && Owns(host, init[i], key);
      assert Owns(host, mounts[i], key);
    }
    if SomeOwner(host, mounts, key) {
      var i :| 0 <= i < |mounts| && Owns(host, mounts[i], key);
      if i < |init| { assert Owns(host, init[i], key); }
    }
  }

  lemma {:induction false} FreedSnoc(host: Host, mounts: seq<Mount>, key: Key)
    requires mounts != []
    ensures
      var last := mounts[|mounts| - 1];
      Freed(host, mounts, key) <==>
        Freed(host, mounts[..|mounts| - 1], key) || Frees(host, last, last.names, key)
  {
    var init := mounts[..|mounts| - 1];
    if Freed(host, init, key) {
      var i :| 0 <= i < |init| && Frees(host, init[i], init[i].names, key);
      assert Frees(host, mounts[i], mounts[i].names, key);
    }
    if Freed(host, mounts, key) {
      var i :| 0 <= i < |mounts| && Frees(host, mounts[i], mounts[i].names, key);
      if i < |init| { assert Frees(host, init[i], init[i].names, key); }
    }
  }

  lemma {:induction false} MountsSplit(mounts: seq<Mount>)
    requires mounts != [] && ValidMounts(mounts)
    ensures ValidMounts(mounts[..|mounts| - 1]) && ValidMount(mounts[|mounts| - 1])
  {
    var init := mounts[..|mounts| - 1];
    forall i | 0 <= i < |init| ensures ValidMount(init[i]) { assert ValidMount(mounts[i]); }
    assert ValidMount(mounts[|mounts| - 1]);
  }

  lemma {:induction false} FreesEarlier(host: Host, earlier: Host, mount: Mount, key: Key)
    requires Shrinks(host, earlier) && Frees(earlier, mount, mount.names, key)
    ensures Frees(host, mount, mount.names, key)
  {
    var name :| name in mount.names && Owns(earlier, mount, name) && Target(name) == key;
    assert Owns(host, mount, name);
  }

  lemma {:induction false} DisposeAllShrinks(host: Host, mounts: seq<Mount>)
    requires host.registry.Keys == host.tokens.Keys && ValidMounts(mounts)
    ensures Shrinks(host, DisposeAll(host, mounts))
  {
    if mounts != [] {
      MountsSplit(mounts);
      DisposeAllShrinks(host, mounts[..|mounts| - 1]);
      DisposeRemovesOwned(DisposeAll(host, mounts[..|mounts| - 1]), mounts[|mounts| - 1]);
    }
  }

  /** What goes was freed by a name that one of the mounts owned. */
  lemma {:induction false} GoneWasFreed(host: Host, mounts: seq<Mount>, key: Key)
    requires host.registry.Keys == host.tokens.Keys && ValidMounts(mounts)
    requires key in host.registry && key !in DisposeAll(host, mounts).registry
    ensures Freed(host, mounts, key)
  {
    var init, last := mounts[..|mounts| - 1], mounts[|mounts| - 1];
    MountsSplit(mounts);
    DisposeAllShrinks(host, init);
    FreedSnoc(host, mounts, key);
    var earlier := DisposeAll(host, init);
    if key in earlier.registry {
      DisposeRemovesOwned(earlier, last);
      FreesEarlier(host, earlier, last, key);
    } else {
      GoneWasFreed(host, init, key);
    }
  }

  /** An owned name takes its target along, unless it has a slash and was itself freed before. */
  lemma {:induction false} OwnedFreesTarget(host: Host, mounts: seq<Mount>, name: Key)
    requires host.registry.Keys == host.tokens.Keys && ValidMounts(mounts)
    requires SomeOwner(host, mounts, name) && (Slashed(name) ==> !Freed(host, mounts, name))
    ensures Target(name) !in DisposeAll(host, mounts).registry
  {
    var init, last := mounts[..|mounts| - 1], mounts[|mounts| - 1];
    MountsSplit(mounts);
    DisposeAllShrinks(host, init);
    FreedSnoc(host, mounts, name);
    SomeOwnerSnoc(host, mounts, name);
    var earlier := DisposeAll(host, init);
    DisposeRemovesOwned(earlier, last);
    if SomeOwner(host, init, name) {
      OwnedFreesTarget(host, init, name);
    } else if name in earlier.registry {
      if Slashed(name) && Frees(earlier, last, last.names, name) {
        FreesEarlier(host, earlier, last, name);
      }
      assert Owns(earlier, last, name);
    } else {
      GoneWasFreed(host, init, name);
    }
  }

  lemma {:induction false} FreedIsUnslashed(host: Host, mounts: seq<Mount>, key: Key)
    requires SingleSlash(mounts) && Freed(host, mounts, key)
    ensures !Slashed(key)
  {
    var i :| 0 <= i < |mounts| && Frees(host, mounts[i], mounts[i].names, key);
    assert SingleSlashNames(mounts[i].names);
  }

  lemma {:induction false} FreedByOwned(host: Host, mounts: seq<Mount>, key: Key)
    requires Freed(host, mounts, key)
    ensures exists name :: SomeOwner(host, mounts, name) && Target(name) == key
  {
    var i :| 0 <= i < |mounts| && Frees(host, mounts[i], mounts[i].names, key);
    var name :| name in mounts[i].names && Owns(host, mounts[i], name) && Target(name) == key;
    assert SomeOwner(host, mounts, name);
  }

  lemma {:induction false} NormalisedFreesOwned(host: Host, mounts: seq<Mount>, key: Key)
    requires NormalisedMounts(mounts) && ValidMounts(mounts)
    ensures SingleSlash(mounts) && (Freed(host, mounts, key) <==> SomeOwner(host, mounts, key))
  {
    forall i | 0 <= i < |mounts| ensures SingleSlashNames(mounts[i].names) {
      assert NormalisedNames(mounts[i].names);
    }
    if SomeOwner(host, mounts, key) {
      var i :| 0 <= i < |mounts| && Owns(host, mounts[i], key);
      assert ValidMount(mounts[i]) && NormalisedNames(mounts[i].names);
      assert key in NameSet(mounts[i].names);
      assert Frees(host, mounts[i], mounts[i].names, key);
    }
    if Freed(host, mounts, key) {
      var i :| 0 <= i < |mounts| && Frees(host, mounts[i], mounts[i].names, key);
      assert NormalisedNames(mounts[i].names);
      assert Owns(host, mounts[i], key);
    }
  }

  /** What disposing one mount after the other removes. Nothing goes that no owned name is
      unregistered as; with names of one slash at most that is exact, and without slashes it is
      what the mounts own. */
  lemma {:induction false} DisposeAllRemovesOwned(host: Host, mounts: seq<Mount>)
    requires host.registry.Keys == host.tokens.Keys && ValidMounts(mounts)
    ensures
      var after := DisposeAll(host, mounts);
      && Shrinks(host, after)
      && (forall key :: key in host.registry && key !in after.registry ==> Freed(host, mounts, key))
      && (forall key :: SomeOwner(host, mounts, key) && !Slashed(key) ==> key !in after.registry)
      && (SingleSlash(mounts) ==> forall key :: key in host.registry ==>
            (key !in after.registry <==> Freed(host, mounts, key)))
      && (NormalisedMounts(mounts) ==> forall key :: key in host.registry ==>
            (key !in after.registry <==> SomeOwner(host, mounts, key)))
  {
    var after := DisposeAll(host, mounts);
    DisposeAllShrinks(host, mounts);
    forall key | key in host.registry && key !in after.registry ensures Freed(host, mounts, key) {
      GoneWasFreed(host, mounts, key);
    }
    forall key | SomeOwner(host, mounts, key) && !Slashed(key) ensures key !in after.registry {
      OwnedFreesTarget(host, mounts, key);
    }
    if SingleSlash(mounts) {
      forall key | Freed(host, mounts, key) ensures key !in after.registry {
        SingleSlashFrees(host, mounts, key);
      }
    }
    if NormalisedMounts(mounts) {
      forall key | key in host.registry ensures key !in after.registry <==> SomeOwner(host, mounts, key) {
        NormalisedFreesOwned(host, mounts, key);
        if Freed(host, mounts, key) { SingleSlashFrees(host, mounts, key); }
      }
    }
  }

  lemma {:induction false} SingleSlashFrees(host: Host, mounts: seq<Mount>, key: Key)
    requires host.registry.Keys == host.tokens.Keys && ValidMounts(mounts) && SingleSlash(mounts)
    requires Freed(host, mounts, key)
    ensures key !in DisposeAll(host, mounts).registry
  {
    FreedByOwned(host, mounts, key);
    var name :| SomeOwner(host, mounts, name) && Target(name) == key;
    if Slashed(name) && Freed(host, mounts, name) {
      FreedIsUnslashed(host, mounts, name);
    }
    OwnedFreesTarget(host, mounts, name);
  }

  // ---------- exactly what disposal removes, whatever the names ----------

  /** Names disposed in this order drop `key`: one of them is unregistered as `key`, and no earlier
      one has dropped that name before its turn. */
  predicate Drops(order: seq<Key>, key: Key) {
    order != [] &&
    (Drops(order[..|order| - 1], key) ||
     (Target(order[|order| - 1]) == key && !Drops(order[..|order| - 1], order[|order| - 1])))
  }

  lemma {:induction false} DropsSnoc(order: seq<Key>, last: Key, key: Key)
    ensures Drops(order + [last], key) <==> Drops(order, key) || (Target(last) == key && !Drops(order, last))
  {
    Snoc(order, last);
  }

  /** A name without a slash is dropped exactly if it, or its slashed form, comes to its turn; at the
      latest when it is itself in the order. */
  lemma {:induction false} UnslashedDrops(order: seq<Key>, key: Key)
    requires key in order && !Slashed(key)
    ensures Drops(order, key)
  {
    InitAndLast(order);
    if key in order[..|order| - 1] { UnslashedDrops(order[..|order| - 1], key); }
  }

  /** What is dropped is the target of a name in the order. */
  lemma {:induction false} DroppedIsTarget(order: seq<Key>, key: Key)
    requires Drops(order, key)
    ensures exists name :: name in order && Target(name) == key
  {
    if Drops(order[..|order| - 1], key) {
      DroppedIsTarget(order[..|order| - 1], key);
      var name :| name in order[..|order| - 1] && Target(name) == key;
      assert name in order;
    } else {
      assert order[|order| - 1] in order;
    }
  }

  function OwnedOf(host: Host, mount: Mount, names: seq<Key>): seq<Key> {
    if names == [] then []
    else
      var last := names[|names| - 1];
      OwnedOf(host, mount, names[..|names| - 1]) + if Owns(host, mount, last) then [last] else []
  }

  /** The names the mounts own, in the order in which they are disposed. */
  function OwnedNames(host: Host, mounts: seq<Mount>): seq<Key> {
    if mounts == [] then []
    else OwnedNames(host, mounts[..|mounts| - 1]) + OwnedOf(host, mounts[|mounts| - 1], mounts[|mounts| - 1].names)
  }

  /** So far the names in `order` have been disposed. */
  ghost predicate DroppedSoFar(host: Host, order: seq<Key>, now: Host) {
    Shrinks(host, now) && forall key :: key in now.registry <==> key in host.registry && !Drops(order, key)
  }

  lemma {:induction false} OneMoreDropped(host: Host, order: seq<Key>, now: Host, mount: Mount, name: Key)
    requires host.registry.Keys == host.tokens.Keys && DroppedSoFar(host, order, now)
    ensures DroppedSoFar(host, order + if Owns(host, mount, name) then [name] else [],
                         if Owns(now, mount, name) then Unregister(now, name) else now)
  {
    if Owns(host, mount, name) {
      assert Owns(now, mount, name) <==> !Drops(order, name);
      forall key ensures Drops(order + [name], key) <==> Drops(order, key) || (Target(name) == key && !Drops(order, name)) {
        DropsSnoc(order, name, key);
      }
    } else {
      ConcatNothing(order);
    }
  }

  lemma {:induction false} NamesDropped(host: Host, order: seq<Key>, now: Host, mount: Mount, names: seq<Key>)
    requires host.registry.Keys == host.tokens.Keys && DroppedSoFar(host, order, now)
    ensures DroppedSoFar(host, order + OwnedOf(host, mount, names), DisposeNames(now, mount, names))
  {
    if names == [] {
      ConcatNothing(order);
    } else {
      var init, last := names[..|names| - 1], names[|names| - 1];
      NamesDropped(host, order, now, mount, init);
      OneMoreDropped(host, order + OwnedOf(host, mount, init), DisposeNames(now, mount, init), mount, last);
      ConcatAssociates(order, OwnedOf(host, mount, init), if Owns(host, mount, last) then [last] else []);
    }
  }

  /** Exactly: disposing mounts one after the other removes what their owned names drop, whatever
      slashes the names carry. */
  lemma {:induction false} DisposedExactly(host: Host, mounts: seq<Mount>)
    requires host.registry.Keys == host.tokens.Keys
    ensures
      var after := DisposeAll(host, mounts);
      && Shrinks(host, after)
      && (forall key :: key in after.registry <==> key in host.registry && !Drops(OwnedNames(host, mounts), key))
  {
    if mounts != [] {
      var init, last := mounts[..|mounts| - 1], mounts[|mounts| - 1];
      DisposedExactly(host, init);
      NamesDropped(host, OwnedNames(host, init), DisposeAll(host, init), last, last.names);
    }
  }

  lemma {:induction false} OwnedOfMembers(host: Host, mount: Mount, names: seq<Key>, key: Key)
    ensures key in OwnedOf(host, mount, names) <==> key in names && Owns(host, mount, key)
  {
    if names != [] {
      OwnedOfMembers(host, mount, names[..|names| - 1], key);
      InitAndLast(names);
    }
  }

  lemma {:induction false} OwnedNamesMembers(host: Host, mounts: seq<Mount>, key: Key)
    requires ValidMounts(mounts)
    ensures key in OwnedNames(host, mounts) <==> SomeOwner(host, mounts, key)
  {
    if mounts != [] {
      var last := mounts[|mounts| - 1];
      MountsSplit(mounts);
      OwnedNamesMembers(host, mounts[..|mounts| - 1], key);
      OwnedOfMembers(host, last, last.names, key);
      SomeOwnerSnoc(host, mounts, key);
      assert key in mounts[|mounts| - 1].tokens <==> key in NameSet(last.names);
    }
  }

  predicate Holds(host: Host, mount: Mount) {
    forall key :: key in mount.tokens ==> Owns(host, mount, key)
  }

  function AllNames(mounts: seq<Mount>): seq<Key> {
    if mounts == [] then [] else AllNames(mounts[..|mounts| - 1]) + mounts[|mounts| - 1].names
  }

  lemma {:induction false} HolderOwnsAll(host: Host, mount: Mount, names: seq<Key>)
    requires forall i :: 0 <= i < |names| ==> Owns(host, mount, names[i])
    ensures OwnedOf(host, mount, names) == names
  {
    if names != [] {
      var init := names[..|names| - 1];
      forall i | 0 <= i < |init| ensures Owns(host, mount, init[i]) { assert init[i] == names[i]; }
      HolderOwnsAll(host, mount, init);
      InitAndLast(names);
      assert Owns(host, mount, names[|names| - 1]);
    }
  }

  /** Mounts that still hold all they registered, as those of active generations do, own all names. */
  lemma {:induction false} HoldersOwnAll(host: Host, mounts: seq<Mount>)
    requires ValidMounts(mounts) && forall i :: 0 <= i < |mounts| ==> Holds(host, mounts[i])
    ensures OwnedNames(host, mounts) == AllNames(mounts)
  {
    if mounts != [] {
      var init, last := mounts[..|mounts| - 1], mounts[|mounts| - 1];
      MountsSplit(mounts);
      forall i | 0 <= i < |init| ensures Holds(host, init[i]) { assert init[i] == mounts[i]; }
      HoldersOwnAll(host, init);
      assert Holds(host, mounts[|mounts| - 1]);
      forall i | 0 <= i < |last.names| ensures Owns(host, last, last.names[i]) {
        assert last.names[i] in NameSet(last.names);
      }
      HolderOwnsAll(host, last, last.names);
    }
  }

  function HooksOf(mounts: seq<Mount>): seq<Hook> {
    if mounts == [] then [] else HooksOf(mounts[..|mounts| - 1]) + mounts[|mounts| - 1].hooks
  }

  lemma {:induction false} WithoutHooksTwice(hooks: seq<Hook>, a: seq<Hook>, b: seq<Hook>)
    ensures WithoutHooks(WithoutHooks(hooks, a), b) == WithoutHooks(hooks, a + b)
  {
    if hooks != [] {
      var init, last := hooks[..|hooks| - 1], hooks[|hooks| - 1];
      WithoutHooksTwice(init, a, b);
      if last !in a {
        Snoc(WithoutHooks(init, a), last);
      } else {
        ConcatNothing(WithoutHooks(init, a));
        ConcatNothing(WithoutHooks(init, a + b));
      }
    }
  }

  /** The hooks of all disposed mounts go, the others keep their order. */
  lemma {:induction false} DisposeAllHooks(host: Host, mounts: seq<Mount>)
    ensures DisposeAll(host, mounts).hooks == WithoutHooks(host.hooks, HooksOf(mounts))
  {
    if mounts == [] {
      WithoutNothing(host.hooks);
    } else {
      var init, last := mounts[..|mounts| - 1], mounts[|mounts| - 1];
      DisposeAllHooks(host, init);
      DisposeNamesKeepsHooks(DisposeAll(host, init), last, last.names);
      WithoutHooksTwice(host.hooks, HooksOf(init), last.hooks);
    }
  }

  lemma {:induction false} WithoutNothing(hooks: seq<Hook>)
    ensures WithoutHooks(hooks, []) == hooks
  {
    if hooks != [] {
      WithoutNothing(hooks[..|hooks| - 1]);
      InitAndLast(hooks);
    }
  }

  // ---------- mounting disjoint stages never fails ----------

  function Union(stages: seq<Stage>): map<Key, Definition> {
    if stages == [] then map[] else Union(stages[..|stages| - 1]) + stages[|stages| - 1].registry
  }

  function StagedHooks(stages: seq<Stage>): seq<Hook> {
    if stages == [] then [] else StagedHooks(stages[..|stages| - 1]) + stages[|stages| - 1].hooks
  }

  lemma {:induction false} UnionKeys(stages: seq<Stage>, key: Key)
    ensures key in Union(stages) <==> exists i :: 0 <= i < |stages| && key in stages[i].registry
  {
    if stages != [] {
      var init := stages[..|stages| - 1];
      UnionKeys(init, key);
      if exists i :: 0 <= i < |init| && key in init[i].registry {
        var i :| 0 <= i < |init| && key in init[i].registry;
        assert key in stages[i].registry;
      }
      if exists i :: 0 <= i < |stages| && key in stages[i].registry {
        var i :| 0 <= i < |stages| && key in stages[i].registry;
        if i < |init| { assert key in init[i].registry; }
      }
    }
  }

  lemma {:induction false} NoForeign(host: Host, names: seq<Key>)
    ensures FirstForeign(host, names, []).None? <==> forall i :: 0 <= i < |names| ==> names[i] !in host.registry
  {
    if names != [] {
      NoForeign(host, names[1..]);
      assert !SomeOwner(host, [], names[0]);
      if forall i :: 0 <= i < |names| ==> names[i] !in host.registry {
        forall i | 0 <= i < |names[1..]| ensures names[1..][i] !in host.registry { assert names[1..][i] == names[i + 1]; }
      }
      if FirstForeign(host, names, []).None? {
        forall i | 0 <= i < |names| ensures names[i] !in host.registry {
          if i > 0 { assert names[i] == names[1..][i - 1]; }
        }
      }
    }
  }

  lemma {:induction false} FreshTokensAreFresh(names: seq<Key>, first: Token)
    ensures FreshTokens(names, first).Keys == NameSet(names)
    ensures forall key :: key in FreshTokens(names, first) ==>
              first <= FreshTokens(names, first)[key] < first + |names|
  {
    if names != [] {
      FreshTokensAreFresh(names[..|names| - 1], first);
      InitAndLast(names);
    }
  }

  predicate ValidStages(stages: seq<Stage>) {
    forall i :: 0 <= i < |stages| ==> ValidStage(stages[i])
  }

  ghost predicate Clear(host: Host, stages: seq<Stage>) {
    forall i, key :: 0 <= i < |stages| && key in stages[i].registry ==> key !in host.registry
  }

  /** Each new generation owns exactly what it staged. */
  ghost predicate OwnStages(host: Host, stages: seq<Stage>, mounts: seq<Mount>) {
    && |mounts| == |stages|
    && (forall i :: 0 <= i < |stages| ==> mounts[i].tokens.Keys == stages[i].registry.Keys)
    && (forall i, key :: 0 <= i < |stages| ==> (Owns(host, mounts[i], key) <==> key in stages[i].registry))
  }

  ghost predicate TokensFrom(host: Host, after: Host) {
    && host.nextToken <= after.nextToken
    && (forall key :: key in after.tokens ==>
         (key in host.tokens && after.tokens[key] == host.tokens[key]) || host.nextToken <= after.tokens[key] < after.nextToken)
  }

  lemma {:induction false} InstallEffect(host: Host, stage: Stage)
    requires ValidHost(host) && ValidStage(stage)
    ensures ValidHost(Install(host, stage)) && TokensFrom(host, Install(host, stage))
    ensures forall key :: key in host.tokens && key !in stage.registry ==>
              key in Install(host, stage).tokens && Install(host, stage).tokens[key] == host.tokens[key]
    ensures forall key :: Owns(Install(host, stage), MountOf(host, stage), key) <==> key in stage.registry
  {
    FreshTokensAreFresh(stage.names, host.nextToken);
  }

  lemma {:induction false} DisjointPrefix(stages: seq<Stage>, host: Host)
    requires stages != [] && Disjoint(stages) && ValidStages(stages) && Clear(host, stages)
    ensures
      var init, last := stages[..|stages| - 1], stages[|stages| - 1];
      && Disjoint(init) && ValidStages(init) && Clear(host, init)
      && ValidStage(last) && last.registry.Keys !! host.registry.Keys && last.registry.Keys !! Union(init).Keys
  {
    var init, last := stages[..|stages| - 1], stages[|stages| - 1];
    forall i, j | 0 <= i < j < |init| ensures init[i].registry.Keys !! init[j].registry.Keys {
      assert stages[i].registry.Keys !! stages[j].registry.Keys;
    }
    forall i | 0 <= i < |init| ensures ValidStage(init[i]) { assert ValidStage(stages[i]); }
    forall i, key | 0 <= i < |init| && key in init[i].registry ensures key !in host.registry {
      assert key in stages[i].registry;
    }
    assert ValidStage(stages[|stages| - 1]);
    forall key | key in last.registry ensures key !in host.registry && key !in Union(init) {
      UnionKeys(init, key);
      assert key in stages[|stages| - 1].registry;
      forall i | 0 <= i < |init| ensures key !in init[i].registry {
        assert stages[i].registry.Keys !! stages[|stages| - 1].registry.Keys;
      }
    }
  }

  lemma {:induction false} MountEachSucceeds(host: Host, stages: seq<Stage>)
    requires ValidHost(host) && ValidStages(stages) && Disjoint(stages) && Clear(host, stages)
    ensures
      var result := MountEach(host, stages);
      && result.AllMounted? && ValidHost(result.host) && TokensFrom(host, result.host)
      && result.host.registry == host.registry + Union(stages)
      && result.host.hooks == host.hooks + StagedHooks(stages)
      && (forall key :: key in host.tokens ==> key in result.host.tokens && result.host.tokens[key] == host.tokens[key])
      && OwnStages(result.host, stages, result.mounts)
  {
    if stages == [] {
      assert host.registry + map[] == host.registry && host.hooks + [] == host.hooks;
    } else {
      var init, last := stages[..|stages| - 1], stages[|stages| - 1];
      DisjointPrefix(stages, host);
      MountEachSucceeds(host, init);
      var earlier := MountEach(host, init);
      LastMounts(earlier.host, last, host.registry + Union(init));
      InstallEffect(earlier.host, last);
      TokensFromChain(host, earlier.host, Install(earlier.host, last));
      OwnershipStays(earlier.host, init, earlier.mounts, last);
      InitAndLast(stages);
      LongerUnion(host, stages);
    }
  }

  lemma {:induction false} LongerUnion(host: Host, stages: seq<Stage>)
    requires stages != []
    ensures host.registry + Union(stages) ==
            (host.registry + Union(stages[..|stages| - 1])) + stages[|stages| - 1].registry
    ensures host.hooks + StagedHooks(stages) ==
            (host.hooks + StagedHooks(stages[..|stages| - 1])) + stages[|stages| - 1].hooks
  {
  }

  lemma {:induction false} TokensFromChain(host: Host, middle: Host, after: Host)
    requires TokensFrom(host, middle) && TokensFrom(middle, after)
    ensures TokensFrom(host, after)
  {
  }

  lemma {:induction false} LastMounts(host: Host, last: Stage, registered: map<Key, Definition>)
    requires ValidStage(last) && host.registry == registered && last.registry.Keys !! registered.Keys
    ensures MountGeneration(host, last, []) == Mounted(Install(host, last), MountOf(host, last))
  {
    NoForeign(host, last.names);
    forall i | 0 <= i < |last.names| ensures last.names[i] !in host.registry {
      assert last.names[i] in NameSet(last.names);
    }
  }

  /** Mounting a disjoint stage takes nothing from the generations mounted before it. */
  lemma {:induction false} OwnershipStays(host: Host, stages: seq<Stage>, mounts: seq<Mount>, last: Stage)
    requires ValidHost(host) && ValidStage(last) && OwnStages(host, stages, mounts)
    requires last.registry.Keys !! Union(stages).Keys
    ensures OwnStages(Install(host, last), stages + [last], mounts + [MountOf(host, last)])
  {
    InstallEffect(host, last);
    FreshTokensAreFresh(last.names, host.nextToken);
    var after, all := Install(host, last), mounts + [MountOf(host, last)];
    forall i, key | 0 <= i < |stages + [last]| ensures Owns(after, all[i], key) <==> key in (stages + [last])[i].registry {
      if i < |stages| {
        UnionKeys(stages, key);
        assert Owns(host, mounts[i], key) <==> key in stages[i].registry;
        assert key in mounts[i].tokens <==> key in stages[i].registry;
      }
    }
  }

  // ---------- the cutover ----------

  lemma {:induction false} MountEachGrows(host: Host, stages: seq<Stage>, key: Key)
    requires key in host.registry
    ensures MountEach(host, stages).AllMounted? ==>
              key in MountEach(host, stages).host.registry &&
              forall i :: 0 <= i < |stages| ==> key !in NameSet(stages[i].names)
  {
    if stages != [] && MountEach(host, stages).AllMounted? {
      var init, last := stages[..|stages| - 1], stages[|stages| - 1];
      MountEachGrows(host, init, key);
      var earlier := MountEach(host, init);
      assert earlier.AllMounted?;
      NoForeign(earlier.host, last.names);
      forall i | 0 <= i < |stages| ensures key !in NameSet(stages[i].names) {
        if i < |init| { assert stages[i] == init[i]; }
      }
    }
  }

  /** No staged command name that starts with a slash is registered. */
  ghost predicate NoSlashRegistered(host: Host, stages: seq<Stage>) {
    forall i, key :: 0 <= i < |stages| && key in stages[i].registry && Slashed(key) ==> key !in host.registry
  }

  /** After preflight disposal leaves no staged name behind but those that start with a slash. */
  lemma {:induction false} ClearedExactly(host: Host, stages: seq<Stage>, previous: seq<Mount>)
    requires ValidHost(host) && Preflight(host, stages, previous) && ValidMounts(previous)
    ensures Clear(DisposeAll(host, previous), stages) <==> NoSlashRegistered(DisposeAll(host, previous), stages)
    ensures NoSlashRegistered(host, stages) ==> NoSlashRegistered(DisposeAll(host, previous), stages)
    ensures SingleSlash(previous) ==>
              (NoSlashRegistered(host, stages) <==> NoSlashRegistered(DisposeAll(host, previous), stages))
  {
    var cleared := DisposeAll(host, previous);
    DisposeAllRemovesOwned(host, previous);
    forall key | SingleSlash(previous) && Slashed(key) && key in host.registry ensures key in cleared.registry {
      if Freed(host, previous, key) { FreedIsUnslashed(host, previous, key); }
    }
  }

  /** Every staged name with a slash that is registered is dropped by the names of the replaced mounts. */
  ghost predicate SlashedDropped(host: Host, stages: seq<Stage>, order: seq<Key>) {
    forall i, key :: 0 <= i < |stages| && key in stages[i].registry && Slashed(key) && key in host.registry ==>
      Drops(order, key)
  }

  /** After preflight the cutover completes exactly when the names the replaced mounts own, disposed
      in their order, drop every staged name with a slash that is registered: an inner mount refuses
      what is left. If no command was registered with three slashes or more nothing drops such a
      name, and the cutover completes exactly when none is registered. */
  lemma {:induction false} CutoverCompletesExactly(host: Host, stages: seq<Stage>, previous: seq<Mount>)
    requires ValidHost(host) && ValidStages(stages) && Preflight(host, stages, previous) && ValidMounts(previous)
    ensures Cutover(host, stages, previous).AllMounted? <==> SlashedDropped(host, stages, OwnedNames(host, previous))
    ensures Cutover(host, stages, previous).AllMounted? <==> NoSlashRegistered(DisposeAll(host, previous), stages)
    ensures NoSlashRegistered(host, stages) ==> Cutover(host, stages, previous).AllMounted?
    ensures SingleSlash(previous) ==>
              (Cutover(host, stages, previous).AllMounted? <==> NoSlashRegistered(host, stages))
  {
    var cleared := DisposeAll(host, previous);
    DisposedExactly(host, previous);
    ClearedExactly(host, stages, previous);
    if NoSlashRegistered(cleared, stages) {
      MountEachSucceeds(cleared, stages);
    }
    forall i, key | 0 <= i < |stages| && key in stages[i].registry && key in cleared.registry
      ensures !Cutover(host, stages, previous).AllMounted?
    {
      MountEachGrows(cleared, stages, key);
      assert ValidStage(stages[i]);
    }
  }

  lemma {:induction false} InAllNames(mounts: seq<Mount>, host: Host, key: Key)
    requires ValidMounts(mounts) && forall i :: 0 <= i < |mounts| ==> Holds(host, mounts[i])
    ensures key in AllNames(mounts) <==> SomeOwner(host, mounts, key)
  {
    HoldersOwnAll(host, mounts);
    OwnedNamesMembers(host, mounts, key);
  }

  /** When the replaced mounts hold all they registered, the condition is one on their names and the
      staged names alone. */
  lemma {:induction false} CutoverOfHoldersExactly(host: Host, stages: seq<Stage>, previous: seq<Mount>)
    requires ValidHost(host) && ValidStages(stages) && Preflight(host, stages, previous) && ValidMounts(previous)
    requires forall i :: 0 <= i < |previous| ==> Holds(host, previous[i])
    ensures Cutover(host, stages, previous).AllMounted? <==>
            forall i, key :: 0 <= i < |stages| && key in stages[i].registry && Slashed(key) && key in AllNames(previous) ==>
              Drops(AllNames(previous), key)
  {
    CutoverCompletesExactly(host, stages, previous);
    HoldersOwnAll(host, previous);
    forall i, key | 0 <= i < |stages| && key in stages[i].registry
      ensures key in host.registry <==> key in AllNames(previous)
    {
      InAllNames(previous, host, key);
    }
  }

  lemma {:induction false} CutoverOwns(host: Host, stages: seq<Stage>, previous: seq<Mount>)
    requires ValidHost(host) && ValidStages(stages) && Preflight(host, stages, previous) && ValidMounts(previous)
    ensures
      var result := Cutover(host, stages, previous);
      && (result.AllMounted? <==> SlashedDropped(host, stages, OwnedNames(host, previous)))
      && (result.AllMounted? ==> ValidHost(result.host) && OwnStages(result.host, stages, result.mounts))
  {
    CutoverCompletesExactly(host, stages, previous);
    DisposeAllShrinks(host, previous);
    ClearedExactly(host, stages, previous);
    if Clear(DisposeAll(host, previous), stages) { MountEachSucceeds(DisposeAll(host, previous), stages); }
  }

  /** Tokens held by earlier mounts were issued earlier. */
  ghost predicate IssuedBefore(host: Host, mounts: seq<Mount>) {
    forall i, key :: 0 <= i < |mounts| && key in mounts[i].tokens ==> mounts[i].tokens[key] < host.nextToken
  }

  /** A completed cutover leaves the old registry without what the replaced generations drop, plus
      the union of the stages; likewise for the hooks. Each new generation owns exactly its stage. */
  lemma {:induction false} CutoverIsComplete(host: Host, stages: seq<Stage>, previous: seq<Mount>)
    requires ValidHost(host) && ValidStages(stages) && ValidMounts(previous) && Preflight(host, stages, previous)
    requires Cutover(host, stages, previous).AllMounted?
    ensures
      var result, dropped := Cutover(host, stages, previous), OwnedNames(host, previous);
      && ValidHost(result.host) && OwnStages(result.host, stages, result.mounts)
      && (forall key :: key in result.host.registry <==>
            (key in host.registry && !Drops(dropped, key)) || key in Union(stages))
      && (forall key :: key in result.host.registry ==>
            result.host.registry[key] == (if key in Union(stages) then Union(stages)[key] else host.registry[key]))
      && result.host.hooks == WithoutHooks(host.hooks, HooksOf(previous)) + StagedHooks(stages)
  {
    DisposedExactly(host, previous);
    DisposeAllHooks(host, previous);
    CutoverCompletesExactly(host, stages, previous);
    ClearedExactly(host, stages, previous);
    MountEachSucceeds(DisposeAll(host, previous), stages);
  }

  /** What the replaced generations own after a completed cutover: what they owned before and their
      names do not drop. That is nothing but names with a slash. */
  lemma {:induction false} ReplacedOwnWhatStays(host: Host, stages: seq<Stage>, previous: seq<Mount>)
    requires ValidHost(host) && ValidStages(stages) && ValidMounts(previous) && Preflight(host, stages, previous)
    requires Cutover(host, stages, previous).AllMounted? && IssuedBefore(host, previous)
    ensures forall key :: SomeOwner(Cutover(host, stages, previous).host, previous, key) ==> Slashed(key)
    ensures forall key ::
      SomeOwner(Cutover(host, stages, previous).host, previous, key) <==>
        SomeOwner(host, previous, key) && !Drops(OwnedNames(host, previous), key)
  {
    DisposedExactly(host, previous);
    var cleared, after := DisposeAll(host, previous), Cutover(host, stages, previous).host;
    CutoverCompletesExactly(host, stages, previous);
    ClearedExactly(host, stages, previous);
    MountEachSucceeds(cleared, stages);
    forall key
      ensures SomeOwner(after, previous, key) <==> SomeOwner(host, previous, key) && !Drops(OwnedNames(host, previous), key)
      ensures SomeOwner(after, previous, key) ==> Slashed(key)
    {
      if SomeOwner(after, previous, key) {
        var i :| 0 <= i < |previous| && Owns(after, previous[i], key);
        assert previous[i].tokens[key] < host.nextToken;
        assert key in cleared.tokens && Owns(host, previous[i], key);
        OwnedNamesMembers(host, previous, key);
        if !Slashed(key) { UnslashedDrops(OwnedNames(host, previous), key); }
      }
      if SomeOwner(host, previous, key) && !Drops(OwnedNames(host, previous), key) {
        var i :| 0 <= i < |previous| && Owns(host, previous[i], key);
        assert Owns(after, previous[i], key);
      }
    }
  }

  // ---------- a command name that starts with a slash ----------

  const SLASHED := Key(Commands, "/x")
  const PLAIN := Key(Commands, "x")

  /** The name `/x` (registered as `//x`) passes preflight, but disposing its generation
      unregisters `x`, and the inner mount then fails with the old generation already gone. */
  lemma {:induction false} SlashBreaksCutover()
    ensures
      var host := Host(map[SLASHED := "old", PLAIN := "other"], map[SLASHED := 0, PLAIN := 1], [], 2);
      var previous := [Mount([SLASHED], map[SLASHED := 0], [])];
      var stages := [Stage([SLASHED], map[SLASHED := "new"], [])];
      && ValidHost(host) && ValidStages(stages) && Preflight(host, stages, previous)
      && Cutover(host, stages, previous).BatchRefused?
      && PLAIN !in Cutover(host, stages, previous).host.registry
  {
    var host := Host(map[SLASHED := "old", PLAIN := "other"], map[SLASHED := 0, PLAIN := 1], [], 2);
    var mount := Mount([SLASHED], map[SLASHED := 0], []);
    var stage := Stage([SLASHED], map[SLASHED := "new"], []);
    assert PLAIN.name == "x" && SLASHED.name[1..] == "x" && Target(SLASHED) == PLAIN;
    assert PLAIN != SLASHED by { assert |PLAIN.name| != |SLASHED.name|; }
    assert Owns(host, [mount][0], SLASHED);
    assert NameSet([SLASHED]) == {SLASHED};
    assert [mount][..0] == [] && [SLASHED][..0] == [] && [stage][..0] == [];
    assert DisposeNames(host, mount, []) == host;
    assert DisposeNames(host, mount, [SLASHED]) == Unregister(host, SLASHED);
    var cleared := DisposeAll(host, [mount]);
    assert DisposeAll(host, []) == host;
    assert SLASHED in cleared.registry && PLAIN !in cleared.registry;
    assert !SomeOwner(cleared, [], SLASHED);
    assert FirstForeign(cleared, [SLASHED], []) == Some(SLASHED);
    assert MountEach(cleared, []) == AllMounted(cleared, []);
  }
}
