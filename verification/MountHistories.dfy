/** Runs of registrations, mounts, disposals and batches on one host, with every mount it handed out. */
module MountHistories {
  import opened Sequences
  import opened ExtensionMounts

  datatype Action =
    | Register(key: Key, definition: Definition)
    | UnregisterName(key: Key)
    | DisposeMount(mount: Mount)
    | MountStage(stage: Stage, previous: seq<Mount>)
    | MountStages(stages: seq<Stage>, replaced: seq<Mount>)
    | ClearHost

  datatype History = History(host: Host, issued: seq<Mount>)

  const EMPTY := History(Host(map[], map[], [], 0), [])

  /** Stages come from hosts of their own; which mounts are disposed is up to the caller. */
  predicate Legal(action: Action) {
    match action
    case DisposeMount(mount) => ValidMount(mount)
    case MountStage(stage, previous) => ValidStage(stage) && ValidMounts(previous)
    case MountStages(stages, replaced) => ValidStages(stages) && ValidMounts(replaced)
    case _ => true
  }

  function Registered(host: Host, key: Key, definition: Definition): Host {
    host.(registry := host.registry[key := definition], tokens := host.tokens[key := host.nextToken],
          nextToken := host.nextToken + 1)
  }

  ghost function After(h: History, action: Action): History {
    match action
    case Register(key, definition) => h.(host := Registered(h.host, key, definition))
    case UnregisterName(key) => h.(host := Unregister(h.host, key))
    case DisposeMount(mount) => h.(host := Dispose(h.host, mount))
    case MountStage(stage, previous) => (
      match MountGeneration(h.host, stage, previous)
      case Refused(_) => h
      case Mounted(host, mount) => History(host, h.issued + [mount]))
    case MountStages(stages, replaced) =>
      if !Preflight(h.host, stages, replaced) then h
      else (
        match Cutover(h.host, stages, replaced)
        case BatchRefused(host, _) => h.(host := host)
        case AllMounted(host, mounts) => History(host, h.issued + mounts))
    case ClearHost => h.(host := Host(map[], map[], [], h.host.nextToken))
  }

  ghost function Run(actions: seq<Action>): History {
    if actions == [] then EMPTY else After(Run(actions[..|actions| - 1]), actions[|actions| - 1])
  }

  predicate AllLegal(actions: seq<Action>) {
    forall i :: 0 <= i < |actions| ==> Legal(actions[i])
  }

  // ---------- what every action does to the tokens ----------

  /** Tokens are kept, dropped or new: none comes back. */
  ghost predicate Follows(host: Host, after: Host) {
    ValidHost(after) && TokensFrom(host, after)
  }

  /** Mounts handed out between two hosts, the later ones with the later tokens. */
  ghost predicate IssuedBetween(host: Host, mounts: seq<Mount>, after: Host) {
    && ValidMounts(mounts) && Ascending(mounts)
    && (forall i, key :: 0 <= i < |mounts| && key in mounts[i].tokens ==>
         host.nextToken <= mounts[i].tokens[key] < after.nextToken)
  }

  ghost predicate Ascending(mounts: seq<Mount>) {
    forall i, j, key :: 0 <= i < j < |mounts| && key in mounts[i].tokens && key in mounts[j].tokens ==>
      mounts[i].tokens[key] < mounts[j].tokens[key]
  }

  ghost predicate Fenced(h: History) {
    ValidHost(h.host) && ValidMounts(h.issued) && Ascending(h.issued) && IssuedBefore(h.host, h.issued)
  }

  lemma {:induction false} ShrinkingFollows(host: Host, after: Host)
    requires ValidHost(host) && Shrinks(host, after)
    ensures Follows(host, after)
  {
  }

  lemma {:induction false} InstallFollows(host: Host, stage: Stage)
    requires ValidHost(host) && ValidStage(stage)
    ensures Follows(host, Install(host, stage))
    ensures IssuedBetween(host, [MountOf(host, stage)], Install(host, stage))
  {
    InstallEffect(host, stage);
    FreshTokensAreFresh(stage.names, host.nextToken);
  }

  lemma {:induction false} FollowsChain(host: Host, middle: Host, after: Host)
    requires Follows(host, middle) && Follows(middle, after)
    ensures Follows(host, after)
  {
    TokensFromChain(host, middle, after);
  }

  lemma {:induction false} IssuedSnoc(host: Host, mounts: seq<Mount>, middle: Host, last: Mount, after: Host)
    requires IssuedBetween(host, mounts, middle) && IssuedBetween(middle, [last], after)
    requires host.nextToken <= middle.nextToken <= after.nextToken
    ensures IssuedBetween(host, mounts + [last], after)
  {
    assert ValidMount([last][0]);
    var all := mounts + [last];
    forall i, key | 0 <= i < |all| && key in all[i].tokens ensures host.nextToken <= all[i].tokens[key] < after.nextToken {
      if i == |mounts| { assert key in [last][0].tokens; }
    }
    forall i, j, key | 0 <= i < j < |all| && key in all[i].tokens && key in all[j].tokens
      ensures all[i].tokens[key] < all[j].tokens[key]
    {
      if j == |mounts| { assert key in [last][0].tokens; }
    }
  }

  /** Mounting stage after stage, up to a refusal: what was mounted before it stays. */
  lemma {:induction false} MountEachFollows(host: Host, stages: seq<Stage>)
    requires ValidHost(host) && ValidStages(stages)
    ensures Follows(host, MountEach(host, stages).host)
    ensures MountEach(host, stages).AllMounted? ==>
              IssuedBetween(host, MountEach(host, stages).mounts, MountEach(host, stages).host)
  {
    if stages != [] {
      var init, last := stages[..|stages| - 1], stages[|stages| - 1];
      StagesSplit(stages);
      MountEachFollows(host, init);
      var earlier := MountEach(host, init);
      if earlier.AllMounted? {
        InstallFollows(earlier.host, last);
        FollowsChain(host, earlier.host, Install(earlier.host, last));
        IssuedSnoc(host, earlier.mounts, earlier.host, MountOf(earlier.host, last), Install(earlier.host, last));
      }
    }
  }

  lemma {:induction false} StagesSplit(stages: seq<Stage>)
    requires stages != [] && ValidStages(stages)
    ensures ValidStages(stages[..|stages| - 1]) && ValidStage(stages[|stages| - 1])
  {
    var init := stages[..|stages| - 1];
    forall i | 0 <= i < |init| ensures ValidStage(init[i]) { assert ValidStage(stages[i]); }
    assert ValidStage(stages[|stages| - 1]);
  }

  lemma {:induction false} DisposingFollows(host: Host, mounts: seq<Mount>)
    requires ValidHost(host) && ValidMounts(mounts)
    ensures Follows(host, DisposeAll(host, mounts)) && DisposeAll(host, mounts).nextToken == host.nextToken
  {
    DisposeAllShrinks(host, mounts);
    ShrinkingFollows(host, DisposeAll(host, mounts));
  }

  lemma {:induction false} MountStageFollows(host: Host, stage: Stage, previous: seq<Mount>)
    requires ValidHost(host) && ValidStage(stage) && ValidMounts(previous)
    ensures match MountGeneration(host, stage, previous)
            case Refused(_) => true
            case Mounted(after, mount) => Follows(host, after) && IssuedBetween(host, [mount], after)
  {
    var cleared := DisposeAll(host, previous);
    DisposingFollows(host, previous);
    InstallFollows(cleared, stage);
    FollowsChain(host, cleared, Install(cleared, stage));
  }

  lemma {:induction false} CutoverFollows(host: Host, stages: seq<Stage>, replaced: seq<Mount>)
    requires ValidHost(host) && ValidStages(stages) && ValidMounts(replaced)
    ensures Follows(host, Cutover(host, stages, replaced).host)
    ensures Cutover(host, stages, replaced).AllMounted? ==>
              IssuedBetween(host, Cutover(host, stages, replaced).mounts, Cutover(host, stages, replaced).host)
  {
    var cleared := DisposeAll(host, replaced);
    DisposingFollows(host, replaced);
    MountEachFollows(cleared, stages);
    FollowsChain(host, cleared, MountEach(cleared, stages).host);
  }

  lemma {:induction false} SingleFollows(host: Host, key: Key, definition: Definition)
    requires ValidHost(host)
    ensures Follows(host, Registered(host, key, definition)) && Follows(host, Unregister(host, key))
    ensures Follows(host, Host(map[], map[], [], host.nextToken))
  {
  }

  // ---------- every run ----------

  lemma {:induction false} StaysFenced(h: History, mounts: seq<Mount>, after: Host)
    requires Fenced(h) && Follows(h.host, after) && IssuedBetween(h.host, mounts, after)
    ensures Fenced(History(after, h.issued + mounts))
  {
    var all := h.issued + mounts;
    forall i | 0 <= i < |all| ensures ValidMount(all[i]) {
      if i < |h.issued| { assert all[i] == h.issued[i]; } else { assert all[i] == mounts[i - |h.issued|]; }
    }
    forall i, key | 0 <= i < |all| && key in all[i].tokens
      ensures all[i].tokens[key] < after.nextToken && (i < |h.issued| <==> all[i].tokens[key] < h.host.nextToken)
    {
      if i < |h.issued| { assert all[i] == h.issued[i]; } else { assert all[i] == mounts[i - |h.issued|]; }
    }
    forall i, j, key | 0 <= i < j < |all| && key in all[i].tokens && key in all[j].tokens
      ensures all[i].tokens[key] < all[j].tokens[key]
    {
      if j < |h.issued| {
        assert all[i] == h.issued[i] && all[j] == h.issued[j];
      } else if i >= |h.issued| {
        assert all[i] == mounts[i - |h.issued|] && all[j] == mounts[j - |h.issued|];
      }
    }
  }

  lemma {:induction false} OthersStayFenced(h: History, after: Host)
    requires Fenced(h) && Follows(h.host, after)
    ensures Fenced(h.(host := after))
  {
    StaysFenced(h, [], after);
    ConcatNothing(h.issued);
  }

  lemma {:induction false} ActionKeepsFence(h: History, action: Action)
    requires Fenced(h) && Legal(action)
    ensures Fenced(After(h, action)) && Follows(h.host, After(h, action).host)
  {
    match action
    case Register(key, definition) =>
      SingleFollows(h.host, key, definition);
      OthersStayFenced(h, Registered(h.host, key, definition));
    case UnregisterName(key) =>
      SingleFollows(h.host, key, "");
      OthersStayFenced(h, Unregister(h.host, key));
    case DisposeMount(mount) =>
      DisposeRemovesOwned(h.host, mount);
      ShrinkingFollows(h.host, Dispose(h.host, mount));
      OthersStayFenced(h, Dispose(h.host, mount));
    case MountStage(stage, previous) =>
      MountStageFollows(h.host, stage, previous);
      var mounting := MountGeneration(h.host, stage, previous);
      if mounting.Mounted? { StaysFenced(h, [mounting.mount], mounting.host); }
    case MountStages(stages, replaced) => BatchKeepsFence(h, stages, replaced);
    case ClearHost =>
      SingleFollows(h.host, Key(Tools, ""), "");
      OthersStayFenced(h, Host(map[], map[], [], h.host.nextToken));
  }

  lemma {:induction false} BatchKeepsFence(h: History, stages: seq<Stage>, replaced: seq<Mount>)
    requires Fenced(h) && ValidStages(stages) && ValidMounts(replaced)
    ensures Fenced(After(h, MountStages(stages, replaced)))
    ensures Follows(h.host, After(h, MountStages(stages, replaced)).host)
  {
    CutoverFollows(h.host, stages, replaced);
    var cut := Cutover(h.host, stages, replaced);
    if cut.AllMounted? {
      StaysFenced(h, cut.mounts, cut.host);
    } else {
      OthersStayFenced(h, cut.host);
    }
  }

  /** After any calls: every registration has a token below the next one, and the tokens of every
      mount were issued before, later mounts' later. */
  lemma {:induction false} EveryRunIsFenced(actions: seq<Action>)
    requires AllLegal(actions)
    ensures Fenced(Run(actions))
  {
    if actions != [] {
      LegalSplit(actions);
      EveryRunIsFenced(actions[..|actions| - 1]);
      ActionKeepsFence(Run(actions[..|actions| - 1]), actions[|actions| - 1]);
    }
  }

  lemma {:induction false} LegalSplit(actions: seq<Action>)
    requires actions != [] && AllLegal(actions)
    ensures AllLegal(actions[..|actions| - 1]) && Legal(actions[|actions| - 1])
  {
    var init := actions[..|actions| - 1];
    forall i | 0 <= i < |init| ensures Legal(init[i]) { assert Legal(actions[i]); }
    assert Legal(actions[|actions| - 1]);
  }

  /** After any calls no name belongs to two mounts. */
  lemma {:induction false} EveryNameHasOneOwner(actions: seq<Action>, i: nat, j: nat, key: Key)
    requires AllLegal(actions) && i < j < |Run(actions).issued|
    ensures !(Owns(Run(actions).host, Run(actions).issued[i], key) && Owns(Run(actions).host, Run(actions).issued[j], key))
  {
    EveryRunIsFenced(actions);
  }

  /** A mount that was handed out and does not own a name never comes to own it: a generation that
      was disposed or replaced cannot take anything from its successors. */
  lemma {:induction false} LostIsLost(actions: seq<Action>, later: seq<Action>, mount: Mount, key: Key)
    requires AllLegal(actions + later) && mount in Run(actions).issued
    requires !Owns(Run(actions).host, mount, key)
    ensures mount in Run(actions + later).issued && !Owns(Run(actions + later).host, mount, key)
    decreases |later|
  {
    if later == [] {
      ConcatNothing(actions);
    } else {
      var init, last := later[..|later| - 1], later[|later| - 1];
      InitAndLast(later);
      ConcatAssociates(actions, init, [last]);
      Snoc(actions + init, last);
      LegalSplit(actions + later);
      LostIsLost(actions, init, mount, key);
      EveryRunIsFenced(actions + init);
      StaysLost(Run(actions + init), last, mount, key);
    }
  }

  lemma {:induction false} StaysLost(h: History, action: Action, mount: Mount, key: Key)
    requires Fenced(h) && Legal(action) && mount in h.issued && !Owns(h.host, mount, key)
    ensures mount in After(h, action).issued && !Owns(After(h, action).host, mount, key)
  {
    ActionKeepsFence(h, action);
    var i :| 0 <= i < |h.issued| && h.issued[i] == mount;
    if key in mount.tokens {
      assert h.issued[i].tokens[key] < h.host.nextToken;
    }
  }
}
