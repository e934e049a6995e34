/** What callers and callbacks are told, said from the events of a run. */
module OAuthHistories {
  import opened Sequences
  import opened Entries
  import opened OAuthRefreshes

  // ---------- what happened ----------

  /** The events that can find a state in which they do nothing: of a settled exchange, a callback that
      is not running, a caller that was answered. */
  predicate Enabled(s: State, event: Event) {
    match event
    case ExchangeFailed(id) => InPhase(s, id, true)
    case ExchangeSucceeded(id, _) => InPhase(s, id, true)
    case CallbackEnded(id, callback, _) => InPhase(s, id, false) && callback in s.operations[id].phase.running
    case CallerAborted(i) => i < |s.callers| && ReplyTo(s, i) == Open
    case _ => true
  }

  /** The event is in the run, and took effect. */
  predicate Happened(events: seq<Event>, event: Event) {
    events != [] &&
    (Happened(events[..|events| - 1], event) ||
     (events[|events| - 1] == event && Enabled(Run(INITIAL, events[..|events| - 1]), event)))
  }

  lemma {:induction false} HappenedSomewhere(events: seq<Event>, event: Event)
    ensures Happened(events, event) <==>
            exists i :: 0 <= i < |events| && events[i] == event && Enabled(Run(INITIAL, events[..i]), event)
  {
    if events != [] {
      var init := events[..|events| - 1];
      HappenedSomewhere(init, event);
      if exists i :: 0 <= i < |init| && init[i] == event && Enabled(Run(INITIAL, init[..i]), event) {
        var i :| 0 <= i < |init| && init[i] == event && Enabled(Run(INITIAL, init[..i]), event);
        PrefixOfInit(events, i);
        assert events[i] == event;
      }
      if exists i :: 0 <= i < |events| && events[i] == event && Enabled(Run(INITIAL, events[..i]), event) {
        var i :| 0 <= i < |events| && events[i] == event && Enabled(Run(INITIAL, events[..i]), event);
        PrefixOfInit(events, i);
        if i < |init| { assert init[i] == event; }
      }
    }
  }

  // ---------- what an operation knows ----------

  /** A callback has stored the tokens exactly if it ended well, and is refused exactly if it failed or
      the exchange did. */
  predicate CallbackSays(op: Operation, c: Callback, well: bool, badly: bool, failed: bool) {
    if c in op.waiters
    then (op.waiters[c] == Stored <==> well) && (op.waiters[c] == Refused <==> badly || failed)
    else !well && !badly
  }

  predicate ExchangeSays(op: Operation, tokens: Tokens, succeeded: bool, failed: bool) {
    (op.tokens == Some(tokens) <==> succeeded) && (op.phase == Finished(false) <==> failed)
  }

  predicate Told(events: seq<Event>, id: OperationId, c: Callback, tokens: Tokens) {
    var s := Run(INITIAL, events);
    var well, badly := Happened(events, CallbackEnded(id, c, true)), Happened(events, CallbackEnded(id, c, false));
    var succeeded, failed := Happened(events, ExchangeSucceeded(id, tokens)), Happened(events, ExchangeFailed(id));
    if id in s.operations
    then CallbackSays(s.operations[id], c, well, badly, failed) && ExchangeSays(s.operations[id], tokens, succeeded, failed)
    else !well && !badly && !succeeded && !failed
  }

  lemma {:induction false} OthersStay(s: State, changed: OperationId, op: Operation, id: OperationId)
    requires changed != id
    ensures id in With(s, changed, op).operations <==> id in s.operations
    ensures id in s.operations ==> With(s, changed, op).operations[id] == s.operations[id]
  {
  }

  /** What joining does to an operation: it may be new, and knows one callback more, which waits. */
  predicate JoinedTo(s: State, id: OperationId, t: State) {
    if id in t.operations
    then
      if id in s.operations then OnlyWaits(s.operations[id], t.operations[id])
      else t.operations[id].phase == Exchanging && t.operations[id].tokens == None &&
           forall c :: c in t.operations[id].waiters ==> t.operations[id].waiters[c] == Waiting
    else id !in s.operations
  }

  predicate OnlyWaits(before: Operation, after: Operation) {
    && after.tokens == before.tokens && after.phase == before.phase
    && before.waiters.Keys <= after.waiters.Keys
    && (forall c :: c in before.waiters ==> after.waiters[c] == before.waiters[c])
    && (forall c :: c in after.waiters && c !in before.waiters ==> after.waiters[c] == Waiting && !before.phase.Finished?)
  }

  lemma {:induction false} JoiningOnlyWaits(op: Operation, callback: Option<Callback>)
    requires !op.phase.Finished? && !op.phase.Idle?
    ensures OnlyWaits(op, BegunExchange(Registered(op, callback)))
  {
  }

  lemma {:induction false} CreatedJoins(key: Key, callback: Option<Callback>)
    ensures
      var op := BegunExchange(Registered(Created(key), callback));
      op.phase == Exchanging && op.tokens == None && forall c :: c in op.waiters ==> op.waiters[c] == Waiting
  {
  }

  lemma {:induction false} RefreshJoins(s: State, key: Key, callback: Option<Callback>, id: OperationId)
    requires Invariant(s)
    ensures JoinedTo(s, id, Refresh(s, key, callback, false))
  {
    OpenedKeeps(s, key);
    var entered := Opened(s, key);
    var joined := entered.inFlight[key];
    var op := entered.operations[joined];
    if joined == id {
      if id in s.operations {
        JoiningOnlyWaits(s.operations[id], callback);
      } else {
        CreatedJoins(key, callback);
      }
    } else {
      OthersStay(entered, joined, BegunExchange(Registered(op, callback)), id);
    }
  }

  lemma {:induction false} TellsRefresh(events: seq<Event>, last: Event, id: OperationId, c: Callback, tokens: Tokens)
    requires last.Refreshing? && Told(events, id, c, tokens)
    ensures Told(events + [last], id, c, tokens)
  {
    RunKeeps(events);
    Snoc(events, last);
    if !last.aborted { RefreshJoins(Run(INITIAL, events), last.key, last.callback, id); }
  }

  lemma {:induction false} OwnFailureSays(op: Operation, c: Callback, tokens: Tokens, well: bool, badly: bool)
    requires Consistent(op) && op.phase.Exchanging? && CallbackSays(op, c, well, badly, false)
    requires ExchangeSays(op, tokens, false, false)
    ensures CallbackSays(Failed(op), c, well, badly, true) && ExchangeSays(Failed(op), tokens, false, true)
  {
    if c in op.waiters { assert c !in op.invoked; }
  }

  lemma {:induction false} OwnSuccessSays(op: Operation, c: Callback, tokens: Tokens, got: Tokens, well: bool, badly: bool)
    requires Consistent(op) && op.phase.Exchanging? && CallbackSays(op, c, well, badly, false)
    requires ExchangeSays(op, tokens, false, false)
    ensures
      var after := NextBatch(op.(tokens := Some(got)));
      CallbackSays(after, c, well, badly, false) && ExchangeSays(after, tokens, got == tokens, false)
  {
  }

  lemma {:induction false} OwnEndSays(op: Operation, c: Callback, tokens: Tokens, ended: Callback, ok: bool,
                                      well: bool, badly: bool, succeeded: bool)
    requires Consistent(op) && op.phase.Draining? && ended in op.phase.running
    requires CallbackSays(op, c, well, badly, false) && ExchangeSays(op, tokens, succeeded, false)
    ensures
      var after := Ended(op, ended, ok);
      && CallbackSays(after, c, well || (ended == c && ok), badly || (ended == c && !ok), false)
      && ExchangeSays(after, tokens, succeeded, false)
  {
  }

  lemma {:induction false} OwnBatchSays(op: Operation, c: Callback, tokens: Tokens, well: bool, badly: bool, succeeded: bool)
    requires Consistent(op) && op.phase.Draining?
    requires CallbackSays(op, c, well, badly, false) && ExchangeSays(op, tokens, succeeded, false)
    ensures CallbackSays(NextBatch(op), c, well, badly, false) && ExchangeSays(NextBatch(op), tokens, succeeded, false)
  {
  }

  lemma {:induction false} TellsFailure(events: seq<Event>, changed: OperationId, id: OperationId, c: Callback, tokens: Tokens)
    requires Told(events, id, c, tokens)
    ensures Told(events + [ExchangeFailed(changed)], id, c, tokens)
  {
    RunKeeps(events);
    Snoc(events, ExchangeFailed(changed));
    var s := Run(INITIAL, events);
    if InPhase(s, changed, true) {
      if changed == id {
        OwnFailureSays(s.operations[id], c, tokens, Happened(events, CallbackEnded(id, c, true)),
                       Happened(events, CallbackEnded(id, c, false)));
      } else {
        OthersStay(s, changed, Failed(s.operations[changed]), id);
      }
    }
  }

  lemma {:induction false} TellsOwnSuccess(events: seq<Event>, got: Tokens, id: OperationId, c: Callback, tokens: Tokens)
    requires Told(events, id, c, tokens) && InPhase(Run(INITIAL, events), id, true)
    ensures Told(events + [ExchangeSucceeded(id, got)], id, c, tokens)
  {
    RunKeeps(events);
    Snoc(events, ExchangeSucceeded(id, got));
    OwnSuccessSays(Run(INITIAL, events).operations[id], c, tokens, got, Happened(events, CallbackEnded(id, c, true)),
                   Happened(events, CallbackEnded(id, c, false)));
  }

  lemma {:induction false} TellsSuccess(events: seq<Event>, changed: OperationId, got: Tokens, id: OperationId, c: Callback, tokens: Tokens)
    requires Told(events, id, c, tokens)
    ensures Told(events + [ExchangeSucceeded(changed, got)], id, c, tokens)
  {
    var s := Run(INITIAL, events);
    if InPhase(s, changed, true) && changed == id {
      TellsOwnSuccess(events, got, id, c, tokens);
    } else {
      Snoc(events, ExchangeSucceeded(changed, got));
      if InPhase(s, changed, true) { OthersStay(s, changed, NextBatch(s.operations[changed].(tokens := Some(got))), id); }
    }
  }

  lemma {:induction false} TellsEnd(events: seq<Event>, changed: OperationId, ended: Callback, ok: bool,
                                    id: OperationId, c: Callback, tokens: Tokens)
    requires Told(events, id, c, tokens)
    ensures Told(events + [CallbackEnded(changed, ended, ok)], id, c, tokens)
  {
    RunKeeps(events);
    Snoc(events, CallbackEnded(changed, ended, ok));
    var s := Run(INITIAL, events);
    if InPhase(s, changed, false) && ended in s.operations[changed].phase.running {
      if changed == id {
        OwnEndSays(s.operations[id], c, tokens, ended, ok, Happened(events, CallbackEnded(id, c, true)),
                   Happened(events, CallbackEnded(id, c, false)), Happened(events, ExchangeSucceeded(id, tokens)));
      } else {
        OthersStay(s, changed, Ended(s.operations[changed], ended, ok), id);
      }
    }
  }

  lemma {:induction false} TellsBatch(events: seq<Event>, changed: OperationId, id: OperationId, c: Callback, tokens: Tokens)
    requires Told(events, id, c, tokens)
    ensures Told(events + [BatchEnded(changed)], id, c, tokens)
  {
    RunKeeps(events);
    Snoc(events, BatchEnded(changed));
    var s := Run(INITIAL, events);
    if InPhase(s, changed, false) && s.operations[changed].phase.running == {} {
      if changed == id {
        OwnBatchSays(s.operations[id], c, tokens, Happened(events, CallbackEnded(id, c, true)),
                     Happened(events, CallbackEnded(id, c, false)), Happened(events, ExchangeSucceeded(id, tokens)));
      } else {
        OthersStay(s, changed, NextBatch(s.operations[changed]), id);
      }
    }
  }

  lemma {:induction false} TellsAbort(events: seq<Event>, i: nat, id: OperationId, c: Callback, tokens: Tokens)
    requires Told(events, id, c, tokens)
    ensures Told(events + [CallerAborted(i)], id, c, tokens)
  {
    Snoc(events, CallerAborted(i));
  }

  /** In every run: a callback has stored the tokens exactly if it ended well, it is refused exactly if
      it failed or its exchange did, and the tokens are those the exchange succeeded with. */
  lemma {:induction false} WaitersSayEvents(events: seq<Event>, id: OperationId, c: Callback, tokens: Tokens)
    ensures Told(events, id, c, tokens)
  {
    if events != [] {
      var init, last := events[..|events| - 1], events[|events| - 1];
      InitAndLast(events);
      WaitersSayEvents(init, id, c, tokens);
      match last
      case Refreshing(_, _, _) => TellsRefresh(init, last, id, c, tokens);
      case ExchangeFailed(changed) => TellsFailure(init, changed, id, c, tokens);
      case ExchangeSucceeded(changed, got) => TellsSuccess(init, changed, got, id, c, tokens);
      case CallbackEnded(changed, ended, ok) => TellsEnd(init, changed, ended, ok, id, c, tokens);
      case BatchEnded(changed) => TellsBatch(init, changed, id, c, tokens);
      case CallerAborted(i) => TellsAbort(init, i, id, c, tokens);
    }
  }

  // ---------- who called ----------

  datatype Ask = Ask(key: Key, callback: Option<Callback>)

  /** The refreshes that were asked for, but for those whose signal had aborted already. */
  function Asked(events: seq<Event>): seq<Ask> {
    if events == [] then []
    else
      var last := events[|events| - 1];
      Asked(events[..|events| - 1]) +
      if last.Refreshing? && !last.aborted then [Ask(last.key, last.callback)] else []
  }

  /** The caller stands for what was asked, and is aborted exactly if its signal fired in time. */
  predicate Stands(s: State, j: nat, ask: Ask, fired: bool) {
    && j < |s.callers| && s.callers[j].operation in s.operations && s.callers[j].callback == ask.callback
    && s.operations[s.callers[j].operation].key == ask.key && (s.callers[j].aborted <==> fired)
  }

  lemma {:induction false} StandsStill(s: State, event: Event, j: nat, ask: Ask, fired: bool)
    requires Invariant(s) && Stands(s, j, ask, fired)
    ensures Stands(Step(s, event), j, ask, fired || (event == CallerAborted(j) && Enabled(s, event)))
  {
    OperationsProgress(s, event, s.callers[j].operation);
    KeysStay(s, event, s.callers[j].operation);
    CallersStand(s, event, j);
  }

  lemma {:induction false} WithKeepsKeys(s: State, changed: OperationId, op: Operation, id: OperationId)
    requires changed in s.operations && op.key == s.operations[changed].key && id in s.operations
    ensures id in With(s, changed, op).operations && With(s, changed, op).operations[id].key == s.operations[id].key
  {
  }

  lemma {:induction false} RefreshKeepsKeys(s: State, key: Key, callback: Option<Callback>, id: OperationId)
    requires Invariant(s) && id in s.operations
    ensures
      var t := Refresh(s, key, callback, false);
      id in t.operations && t.operations[id].key == s.operations[id].key
  {
    OpenedKeeps(s, key);
    OpenedStays(s, key, id);
    var entered := Opened(s, key);
    var joined := entered.inFlight[key];
    WithKeepsKeys(entered, joined, BegunExchange(Registered(entered.operations[joined], callback)), id);
  }

  lemma {:induction false} KeysStay(s: State, event: Event, id: OperationId)
    requires Invariant(s) && id in s.operations
    ensures id in Step(s, event).operations && Step(s, event).operations[id].key == s.operations[id].key
  {
    match event
    case Refreshing(key, callback, aborted) => if !aborted { RefreshKeepsKeys(s, key, callback, id); }
    case ExchangeFailed(changed) =>
      if InPhase(s, changed, true) { WithKeepsKeys(s, changed, Failed(s.operations[changed]), id); }
    case ExchangeSucceeded(changed, tokens) =>
      if InPhase(s, changed, true) { WithKeepsKeys(s, changed, NextBatch(s.operations[changed].(tokens := Some(tokens))), id); }
    case CallbackEnded(changed, callback, ok) =>
      if InPhase(s, changed, false) && callback in s.operations[changed].phase.running {
        WithKeepsKeys(s, changed, Ended(s.operations[changed], callback, ok), id);
      }
    case BatchEnded(changed) =>
      if InPhase(s, changed, false) { WithKeepsKeys(s, changed, NextBatch(s.operations[changed]), id); }
    case CallerAborted(_) =>
  }

  lemma {:induction false} OperationsLeaveCallers(s: State, event: Event)
    requires !event.Refreshing? && !event.CallerAborted?
    ensures Step(s, event).callers == s.callers
  {
  }

  lemma {:induction false} RefreshAddsCaller(s: State, key: Key, callback: Option<Callback>)
    requires Invariant(s)
    ensures
      var t := Refresh(s, key, callback, false);
      |t.callers| == |s.callers| + 1 && t.callers[..|s.callers|] == s.callers
  {
    OpenedKeeps(s, key);
  }

  lemma {:induction false} AbortMarks(s: State, i: nat)
    ensures Step(s, CallerAborted(i)).callers ==
            if Enabled(s, CallerAborted(i)) then s.callers[i := s.callers[i].(aborted := true)] else s.callers
  {
  }

  /** The j-th caller is the same but for an abort that takes effect. */
  predicate SameCaller(before: seq<Caller>, after: seq<Caller>, j: nat, fired: bool) {
    && j < |before| && j < |after| && after[j].operation == before[j].operation && after[j].callback == before[j].callback
    && (after[j].aborted <==> before[j].aborted || fired)
  }

  lemma {:induction false} AddedCallerLeavesOthers(before: seq<Caller>, after: seq<Caller>, j: nat)
    requires |before| <= |after| && after[..|before|] == before && j < |before|
    ensures SameCaller(before, after, j, false)
  {
    assert after[..|before|][j] == after[j];
  }

  lemma {:induction false} CallersStand(s: State, event: Event, j: nat)
    requires Invariant(s) && j < |s.callers|
    ensures SameCaller(s.callers, Step(s, event).callers, j, event == CallerAborted(j) && Enabled(s, event))
  {
    match event
    case Refreshing(key, callback, aborted) =>
      if !aborted {
        RefreshAddsCaller(s, key, callback);
        AddedCallerLeavesOthers(s.callers, Refresh(s, key, callback, false).callers, j);
      }
    case CallerAborted(i) => AbortMarks(s, i);
    case _ => OperationsLeaveCallers(s, event);
  }

  lemma {:induction false} NewCallerStands(events: seq<Event>, key: Key, callback: Option<Callback>)
    ensures
      var s := Run(INITIAL, events);
      var t := Refresh(s, key, callback, false);
      |t.callers| == |s.callers| + 1 && Stands(t, |s.callers|, Ask(key, callback), false)
  {
    NobodyJoinsTooLate(events, key, callback);
    RunKeeps(events);
    OpenedKeeps(Run(INITIAL, events), key);
  }

  lemma {:induction false} AsManyCallers(s: State, event: Event)
    requires Invariant(s)
    ensures |Step(s, event).callers| == |s.callers| + if event.Refreshing? && !event.aborted then 1 else 0
  {
    match event
    case Refreshing(key, callback, aborted) => if !aborted { RefreshAddsCaller(s, key, callback); }
    case CallerAborted(_) =>
    case _ => OperationsLeaveCallers(s, event);
  }

  lemma {:induction false} NeverFiredBefore(events: seq<Event>, j: nat)
    requires |Run(INITIAL, events).callers| <= j
    ensures !Happened(events, CallerAborted(j))
  {
    if events != [] {
      var init := events[..|events| - 1];
      RunKeeps(init);
      AsManyCallers(Run(INITIAL, init), events[|events| - 1]);
      NeverFiredBefore(init, j);
    }
  }

  /** The j-th caller waits for an operation of the key it asked for, with the callback it gave. */
  lemma {:induction false} CallersStandForAsks(events: seq<Event>)
    ensures |Run(INITIAL, events).callers| == |Asked(events)|
    ensures forall j :: 0 <= j < |Asked(events)| ==>
              Stands(Run(INITIAL, events), j, Asked(events)[j], Happened(events, CallerAborted(j)))
  {
    if events != [] {
      var init, last := events[..|events| - 1], events[|events| - 1];
      var s := Run(INITIAL, init);
      CallersStandForAsks(init);
      RunKeeps(init);
      AsManyCallers(s, last);
      forall j | 0 <= j < |Asked(events)|
        ensures Stands(Run(INITIAL, events), j, Asked(events)[j], Happened(events, CallerAborted(j)))
      {
        if j < |Asked(init)| {
          StandsStill(s, last, j, Asked(init)[j], Happened(init, CallerAborted(j)));
        } else {
          NewCallerStands(init, last.key, last.callback);
          NeverFiredBefore(init, j);
        }
      }
    }
  }

  // ---------- what a caller is told ----------

  /** Main result: a caller is rejected exactly if its signal fired while it waited, the exchange it
      joined failed, or its own callback did. It is granted tokens exactly if none of this, the exchange
      succeeded with these very tokens, its own callback stored them, and all that was registered is done. */
  lemma {:induction false} RepliesSayEvents(events: seq<Event>, j: nat, tokens: Tokens)
    requires j < |Asked(events)|
    ensures j < |Run(INITIAL, events).callers| && Run(INITIAL, events).callers[j].operation in Run(INITIAL, events).operations
    ensures
      var s, callback := Run(INITIAL, events), Asked(events)[j].callback;
      var id := s.callers[j].operation;
      && s.operations[id].key == Asked(events)[j].key
      && (ReplyTo(s, j) == Rejection <==>
            || Happened(events, CallerAborted(j)) || Happened(events, ExchangeFailed(id))
            || (callback.Some? && Happened(events, CallbackEnded(id, callback.value, false))))
      && (ReplyTo(s, j) == Granted(tokens) <==>
            && !Happened(events, CallerAborted(j)) && s.operations[id].phase == Finished(true)
            && Happened(events, ExchangeSucceeded(id, tokens))
            && (callback.Some? ==> Happened(events, CallbackEnded(id, callback.value, true))))
  {
    RunKeeps(events);
    CallersStandForAsks(events);
    var s := Run(INITIAL, events);
    assert Stands(s, j, Asked(events)[j], Happened(events, CallerAborted(j)));
    var id, callback := s.callers[j].operation, Asked(events)[j].callback;
    var c := if callback.Some? then callback.value else "";
    WaitersSayEvents(events, id, c, tokens);
    ReplySays(s.operations[id], callback, tokens, Happened(events, CallbackEnded(id, c, true)),
              Happened(events, CallbackEnded(id, c, false)), Happened(events, ExchangeSucceeded(id, tokens)),
              Happened(events, ExchangeFailed(id)));
  }

  lemma {:induction false} ReplySays(op: Operation, callback: Option<Callback>, tokens: Tokens, well: bool, badly: bool,
                                     succeeded: bool, failed: bool)
    requires Consistent(op) && (callback.Some? ==> callback.value in op.waiters)
    requires callback.Some? ==> CallbackSays(op, callback.value, well, badly, failed)
    requires ExchangeSays(op, tokens, succeeded, failed)
    ensures ReplyOf(op, callback) == Rejection <==> failed || (callback.Some? && badly)
    ensures ReplyOf(op, callback) == Granted(tokens) <==>
            op.phase == Finished(true) && succeeded && (callback.Some? ==> well)
  {
  }

  /** Once everything a drain has called has ended and nothing registered meanwhile, the operation
      settles well, and the key is free for a new exchange. */
  lemma {:induction false} DrainSettles(events: seq<Event>, id: OperationId)
    requires
      var s := Run(INITIAL, events);
      InPhase(s, id, false) && s.operations[id].phase.running == {} && s.operations[id].pending == {}
    ensures
      var t := Run(INITIAL, events + [BatchEnded(id)]);
      id in t.operations && t.operations[id].phase == Finished(true) && t.operations[id].key !in t.inFlight
  {
    RunKeeps(events);
    Snoc(events, BatchEnded(id));
  }

  /** A run of one caller: its callback stores the tokens, or fails to. */
  lemma {:induction false} OneCallerIsTold(key: Key, callback: Callback, tokens: Tokens, ok: bool)
    ensures
      var events := [Refreshing(key, Some(callback), false), ExchangeSucceeded(0, tokens), CallbackEnded(0, callback, ok), BatchEnded(0)];
      var s := Run(INITIAL, events);
      |s.callers| == 1 && ReplyTo(s, 0) == if ok then Granted(tokens) else Rejection
  {
    var a, b, c, d := Refreshing(key, Some(callback), false), ExchangeSucceeded(0, tokens),
                      CallbackEnded(0, callback, ok), BatchEnded(0);
    assert [a, b, c, d][..3] == [a, b, c] && [a, b, c][..2] == [a, b] && [a, b][..1] == [a] && [a][..0] == [];
    var op := Operation(key, Exchanging, None, map[callback := Waiting], {callback}, multiset{}, 0);
    assert Run(INITIAL, []) == INITIAL;
    assert Run(INITIAL, [a]) == Refresh(INITIAL, key, Some(callback), false);
    assert {callback} + {} == {callback};
    assert Run(INITIAL, [a]).operations[0] == op;
    assert Run(INITIAL, [a, b]).operations[0].phase == Draining({callback});
    assert Run(INITIAL, [a, b, c]).operations[0].phase.running == {};
  }
}
