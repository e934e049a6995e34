/** Single-flight refresh of OAuth tokens: one exchange per key, whose result every caller's
    persistence callback stores before that caller goes on. One step is what runs between awaits. */
module OAuthRefreshes {
  import opened Entries

  type Key = string
  type Tokens = string
  /** The identity of a persistence callback. */
  type Callback = string
  type OperationId = nat

  datatype Wait = Waiting | Stored | Refused

  datatype Phase = Idle | Exchanging | Draining(running: set<Callback>) | Finished(ok: bool)

  /** `invoked` records every call of a callback, `late` registrations with a settled operation. */
  datatype Operation = Operation(
    key: Key, phase: Phase, tokens: Option<Tokens>, waiters: map<Callback, Wait>, pending: set<Callback>,
    invoked: multiset<Callback>, late: nat)

  datatype Caller = Caller(operation: OperationId, callback: Option<Callback>, aborted: bool)

  datatype State = State(
    operations: map<OperationId, Operation>, inFlight: map<Key, OperationId>, callers: seq<Caller>, next: OperationId)

  const INITIAL := State(map[], map[], [], 0)

  datatype Event =
    | Refreshing(key: Key, callback: Option<Callback>, aborted: bool)
    | ExchangeFailed(operation: OperationId)
    | ExchangeSucceeded(operation: OperationId, tokens: Tokens)
    | CallbackEnded(operation: OperationId, ended: Callback, ok: bool)
    | BatchEnded(operation: OperationId)
    | CallerAborted(caller: nat)

  // ---------- one operation ----------

  function Created(key: Key): Operation {
    Operation(key, Idle, None, map[], {}, multiset{}, 0)
  }

  /** A callback that is known already is waited for, not registered again. */
  function Registered(op: Operation, callback: Option<Callback>): Operation {
    if callback.None? || callback.value in op.waiters then op
    else if op.phase.Finished? then op.(late := op.late + 1)
    else op.(waiters := op.waiters[callback.value := Waiting], pending := op.pending + {callback.value})
  }

  function BegunExchange(op: Operation): Operation {
    if op.phase.Idle? then op.(phase := Exchanging) else op
  }

  /** The head of the drain loop: calls everything pending, or is done. */
  function NextBatch(op: Operation): Operation {
    if op.pending == {} then op.(phase := Finished(true))
    else op.(phase := Draining(op.pending), pending := {}, invoked := op.invoked + multiset(op.pending))
  }

  function Failed(op: Operation): Operation {
    op.(phase := Finished(false), pending := {},
        waiters := map callback | callback in op.waiters ::
          if callback in op.pending then Refused else op.waiters[callback])
  }

  function Ended(op: Operation, callback: Callback, ok: bool): Operation
    requires op.phase.Draining?
  {
    op.(phase := Draining(op.phase.running - {callback}),
        waiters := op.waiters[callback := if ok then Stored else Refused])
  }

  // ---------- the table ----------

  function With(s: State, id: OperationId, op: Operation): State {
    s.(operations := s.operations[id := op],
       inFlight := if op.phase.Finished? && op.key in s.inFlight && s.inFlight[op.key] == id
                   then s.inFlight - {op.key} else s.inFlight)
  }

  function Opened(s: State, key: Key): State {
    if key in s.inFlight then s
    else s.(operations := s.operations[s.next := Created(key)], inFlight := s.inFlight[key := s.next], next := s.next + 1)
  }

  function Joined(s: State, id: OperationId, callback: Option<Callback>): State
    requires id in s.operations
  {
    With(s, id, BegunExchange(Registered(s.operations[id], callback))).(
      callers := s.callers + [Caller(id, callback, false)])
  }

  function Refresh(s: State, key: Key, callback: Option<Callback>, aborted: bool): State {
    if aborted then s
    else
      var entered := Opened(s, key);
      var id := entered.inFlight[key];
      if id in entered.operations then Joined(entered, id, callback) else s
  }

  datatype Reply = Open | Granted(tokens: Tokens) | Rejection

  /** What a caller's promise shows: it needs the operation's result and its own callback's. */
  function ReplyTo(s: State, i: nat): Reply
    requires i < |s.callers|
  {
    var caller := s.callers[i];
    if caller.aborted then Rejection
    else if caller.operation !in s.operations then Open
    else ReplyOf(s.operations[caller.operation], caller.callback)
  }

  function ReplyOf(op: Operation, callback: Option<Callback>): Reply {
    var wait := if callback.None? then Stored else if callback.value in op.waiters then op.waiters[callback.value] else Waiting;
    if op.phase == Finished(false) || wait == Refused then Rejection
    else if op.phase == Finished(true) && op.tokens.Some? && wait == Stored then Granted(op.tokens.value)
    else Open
  }

  predicate InPhase(s: State, id: OperationId, exchanging: bool) {
    id in s.operations &&
    if exchanging then s.operations[id].phase.Exchanging? else s.operations[id].phase.Draining?
  }

  /** An event that cannot happen in a state leaves it alone. */
  function Step(s: State, event: Event): State {
    match event
    case Refreshing(key, callback, aborted) => Refresh(s, key, callback, aborted)
    case ExchangeFailed(id) => if InPhase(s, id, true) then With(s, id, Failed(s.operations[id])) else s
    case ExchangeSucceeded(id, tokens) =>
      if InPhase(s, id, true) then With(s, id, NextBatch(s.operations[id].(tokens := Some(tokens)))) else s
    case CallbackEnded(id, callback, ok) =>
      if InPhase(s, id, false) && callback in s.operations[id].phase.running
      then With(s, id, Ended(s.operations[id], callback, ok)) else s
    case BatchEnded(id) =>
      if InPhase(s, id, false) && s.operations[id].phase.running == {} then With(s, id, NextBatch(s.operations[id])) else s
    case CallerAborted(i) =>
      if i < |s.callers| && ReplyTo(s, i) == Open then s.(callers := s.callers[i := s.callers[i].(aborted := true)]) else s
  }

  function Run(s: State, events: seq<Event>): State {
    if events == [] then s else Step(Run(s, events[..|events| - 1]), events[|events| - 1])
  }

  // ---------- what holds of one operation ----------

  function Running(op: Operation): set<Callback> {
    if op.phase.Draining? then op.phase.running else {}
  }

  predicate Bookkept(op: Operation) {
    && op.late == 0 && op.pending !! Running(op)
    && op.pending + Running(op) <= op.waiters.Keys
    && (forall c :: c in op.waiters ==> (op.waiters[c] == Waiting <==> c in op.pending + Running(op)))
  }

  /** A callback runs once, after the tokens are there, and never when the exchange failed. */
  predicate InvokedOnce(op: Operation) {
    && (forall c :: c in op.invoked ==> c in op.waiters && op.invoked[c] == 1 && c !in op.pending)
    && (forall c :: c in op.waiters && c !in op.pending && op.phase != Finished(false) ==> c in op.invoked)
    && (op.invoked != multiset{} ==> op.tokens.Some?)
  }

  predicate Phased(op: Operation) {
    && (op.phase.Idle? || op.phase.Exchanging? ==> op.tokens == None)
    && (op.phase.Draining? ==> op.tokens.Some?)
    && (op.phase == Finished(true) ==> op.tokens.Some?)
    && (op.phase == Finished(false) ==>
          op.tokens == None && op.invoked == multiset{} && forall c :: c in op.waiters ==> op.waiters[c] == Refused)
    && (op.phase.Finished? ==> op.pending == {})
  }

  predicate Consistent(op: Operation) {
    Bookkept(op) && InvokedOnce(op) && Phased(op)
  }

  lemma {:induction false} RegisteredIsConsistent(op: Operation, callback: Option<Callback>)
    requires Consistent(op) && !op.phase.Finished?
    ensures Consistent(Registered(op, callback)) && Registered(op, callback).key == op.key
    ensures callback.Some? ==> callback.value in Registered(op, callback).waiters
  {
  }

  lemma {:induction false} BatchIsConsistent(op: Operation)
    requires Consistent(op) && op.phase.Draining? && Running(op) == {}
    ensures Consistent(NextBatch(op))
  {
  }

  lemma {:induction false} FirstBatchIsConsistent(op: Operation, tokens: Tokens)
    requires Consistent(op) && op.phase.Exchanging?
    ensures Consistent(NextBatch(op.(tokens := Some(tokens))))
  {
    forall c | c in op.waiters ensures c in op.pending { assert c !in op.invoked; }
  }

  lemma {:induction false} FailedIsConsistent(op: Operation)
    requires Consistent(op) && op.phase.Exchanging?
    ensures Consistent(Failed(op))
  {
    forall c | c in op.waiters ensures c in op.pending { assert c !in op.invoked; }
    assert op.invoked == multiset{};
  }

  lemma {:induction false} EndedIsConsistent(op: Operation, callback: Callback, ok: bool)
    requires Consistent(op) && op.phase.Draining? && callback in op.phase.running
    ensures Consistent(Ended(op, callback, ok))
  {
  }

  // ---------- what every run keeps ----------

  /** The table names exactly the operations that are not settled. */
  ghost predicate SingleFlight(s: State) {
    && (forall key :: key in s.inFlight ==>
          s.inFlight[key] in s.operations && s.operations[s.inFlight[key]].key == key &&
          !s.operations[s.inFlight[key]].phase.Finished?)
    && (forall id :: id in s.operations && !s.operations[id].phase.Finished? ==>
          s.operations[id].key in s.inFlight && s.inFlight[s.operations[id].key] == id)
    && (forall id :: id in s.operations ==> id < s.next)
  }

  ghost predicate AllConsistent(s: State) {
    forall id :: id in s.operations ==> Consistent(s.operations[id])
  }

  /** Every caller waits for an operation that knows its callback. */
  predicate CallersKnown(s: State) {
    forall i :: 0 <= i < |s.callers| ==>
      s.callers[i].operation in s.operations &&
      (s.callers[i].callback.Some? ==> s.callers[i].callback.value in s.operations[s.callers[i].operation].waiters)
  }

  ghost predicate Core(s: State) {
    SingleFlight(s) && AllConsistent(s) && CallersKnown(s)
  }

  /** Every operation but the named one has begun its exchange. */
  ghost predicate BegunExcept(s: State, id: OperationId) {
    forall other :: other in s.operations && other != id ==> !s.operations[other].phase.Idle?
  }

  ghost predicate Invariant(s: State) {
    Core(s) && forall id :: id in s.operations ==> !s.operations[id].phase.Idle?
  }

  /** A step of one unsettled operation that keeps its key and its callbacks. */
  lemma {:induction false} WithFlight(s: State, id: OperationId, op: Operation)
    requires SingleFlight(s) && id in s.operations && !s.operations[id].phase.Finished?
    requires op.key == s.operations[id].key
    ensures SingleFlight(With(s, id, op))
  {
  }

  lemma {:induction false} WithCallers(s: State, id: OperationId, op: Operation)
    requires CallersKnown(s) && id in s.operations && s.operations[id].waiters.Keys <= op.waiters.Keys
    ensures CallersKnown(With(s, id, op))
  {
  }

  lemma {:induction false} WithConsistent(s: State, id: OperationId, op: Operation)
    requires AllConsistent(s) && Consistent(op)
    ensures AllConsistent(With(s, id, op))
  {
  }

  lemma {:induction false} WithKeeps(s: State, id: OperationId, op: Operation)
    requires Core(s) && BegunExcept(s, id) && id in s.operations && !s.operations[id].phase.Finished?
    requires Consistent(op) && op.key == s.operations[id].key && !op.phase.Idle?
    requires s.operations[id].waiters.Keys <= op.waiters.Keys
    ensures Invariant(With(s, id, op))
  {
    WithFlight(s, id, op);
    WithCallers(s, id, op);
    WithConsistent(s, id, op);
  }

  lemma {:induction false} OpenedFlight(s: State, key: Key)
    requires SingleFlight(s)
    ensures SingleFlight(Opened(s, key)) && key in Opened(s, key).inFlight
  {
  }

  lemma {:induction false} OpenedConsistent(s: State, key: Key)
    requires AllConsistent(s)
    ensures AllConsistent(Opened(s, key))
  {
    assert Consistent(Created(key));
  }

  lemma {:induction false} OpenedCallers(s: State, key: Key)
    requires SingleFlight(s) && CallersKnown(s)
    ensures CallersKnown(Opened(s, key))
  {
  }

  lemma {:induction false} OpenedBegun(s: State, key: Key)
    requires SingleFlight(s) && forall id :: id in s.operations ==> !s.operations[id].phase.Idle?
    ensures key in Opened(s, key).inFlight && BegunExcept(Opened(s, key), Opened(s, key).inFlight[key])
  {
  }

  lemma {:induction false} OpenedKeeps(s: State, key: Key)
    requires Invariant(s)
    ensures Core(Opened(s, key)) && key in Opened(s, key).inFlight
    ensures BegunExcept(Opened(s, key), Opened(s, key).inFlight[key])
  {
    OpenedFlight(s, key);
    OpenedConsistent(s, key);
    OpenedCallers(s, key);
    OpenedBegun(s, key);
  }

  lemma {:induction false} RefreshKeeps(s: State, key: Key, callback: Option<Callback>, aborted: bool)
    requires Invariant(s)
    ensures Invariant(Refresh(s, key, callback, aborted))
  {
    if !aborted {
      OpenedKeeps(s, key);
      var entered := Opened(s, key);
      var id := entered.inFlight[key];
      var op := entered.operations[id];
      RegisteredIsConsistent(op, callback);
      var after := BegunExchange(Registered(op, callback));
      assert Consistent(after);
      WithKeeps(entered, id, after);
      CallerJoins(With(entered, id, after), Caller(id, callback, false));
    }
  }

  lemma {:induction false} CallerJoins(s: State, caller: Caller)
    requires Invariant(s) && caller.operation in s.operations
    requires caller.callback.Some? ==> caller.callback.value in s.operations[caller.operation].waiters
    ensures Invariant(s.(callers := s.callers + [caller]))
  {
  }

  lemma {:induction false} StepKeeps(s: State, event: Event)
    requires Invariant(s)
    ensures Invariant(Step(s, event))
  {
    match event
    case Refreshing(key, callback, aborted) => RefreshKeeps(s, key, callback, aborted);
    case ExchangeFailed(id) =>
      if InPhase(s, id, true) {
        FailedIsConsistent(s.operations[id]);
        WithKeeps(s, id, Failed(s.operations[id]));
      }
    case ExchangeSucceeded(id, tokens) =>
      if InPhase(s, id, true) {
        FirstBatchIsConsistent(s.operations[id], tokens);
        WithKeeps(s, id, NextBatch(s.operations[id].(tokens := Some(tokens))));
      }
    case CallbackEnded(id, callback, ok) =>
      if InPhase(s, id, false) && callback in s.operations[id].phase.running {
        EndedIsConsistent(s.operations[id], callback, ok);
        WithKeeps(s, id, Ended(s.operations[id], callback, ok));
      }
    case BatchEnded(id) =>
      if InPhase(s, id, false) && s.operations[id].phase.running == {} {
        BatchIsConsistent(s.operations[id]);
        WithKeeps(s, id, NextBatch(s.operations[id]));
      }
    case CallerAborted(_) =>
  }

  lemma {:induction false} RunKeeps(events: seq<Event>)
    ensures Invariant(Run(INITIAL, events))
  {
    if events != [] {
      RunKeeps(events[..|events| - 1]);
      StepKeeps(Run(INITIAL, events[..|events| - 1]), events[|events| - 1]);
    }
  }

  // ---------- what callers may rely on ----------

  /** At any time a key has at most one operation that is not settled, hence one exchange at most. */
  lemma {:induction false} OneExchangePerKey(events: seq<Event>, a: OperationId, b: OperationId)
    requires var s := Run(INITIAL, events);
             && a in s.operations && b in s.operations && s.operations[a].key == s.operations[b].key
             && !s.operations[a].phase.Finished? && !s.operations[b].phase.Finished?
    ensures a == b
  {
    RunKeeps(events);
  }

  /** A refresh joins an operation that has not settled, which then knows the caller's callback; no
      callback is ever registered too late. */
  lemma {:induction false} NobodyJoinsTooLate(events: seq<Event>, key: Key, callback: Option<Callback>)
    ensures
      var s := Run(INITIAL, events);
      var after := Refresh(s, key, callback, false);
      && |after.callers| == |s.callers| + 1
      && var caller := after.callers[|s.callers|];
      && caller.callback == callback && caller.operation in after.operations
      && var op := after.operations[caller.operation];
      && op.key == key && !op.phase.Finished? && op.late == 0
      && (key in s.inFlight ==> caller.operation == s.inFlight[key] && caller.operation in s.operations)
      && (callback.Some? ==> callback.value in op.waiters)
  {
    RunKeeps(events);
    var s := Run(INITIAL, events);
    OpenedKeeps(s, key);
    RefreshKeeps(s, key, callback, false);
    var entered := Opened(s, key);
    RegisteredIsConsistent(entered.operations[entered.inFlight[key]], callback);
  }

  /** When the exchange succeeded and all is stored, every registered callback ran exactly once and
      ended; when it failed, none ran and every one that waited was refused. */
  lemma {:induction false} SettledMeansStored(events: seq<Event>, id: OperationId)
    requires id in Run(INITIAL, events).operations
    ensures
      var op := Run(INITIAL, events).operations[id];
      && (op.phase == Finished(true) ==>
            && op.tokens.Some?
            && forall c :: (c in op.waiters ==> op.invoked[c] == 1 && op.waiters[c] != Waiting)
                        && (c !in op.waiters ==> op.invoked[c] == 0))
      && (op.phase == Finished(false) ==>
            op.invoked == multiset{} && forall c :: c in op.waiters ==> op.waiters[c] == Refused)
  {
    RunKeeps(events);
    assert Consistent(Run(INITIAL, events).operations[id]);
  }

  /** A caller gets tokens only when its callback has stored them; with the operation settled,
      nobody is left waiting. */
  lemma {:induction false} RepliesAreSettled(events: seq<Event>, i: nat)
    requires i < |Run(INITIAL, events).callers|
    ensures CallersKnown(Run(INITIAL, events))
    ensures
      var s := Run(INITIAL, events);
      var caller := s.callers[i];
      var op := s.operations[caller.operation];
      && (ReplyTo(s, i).Granted? && caller.callback.Some? ==>
            op.waiters[caller.callback.value] == Stored && op.invoked[caller.callback.value] == 1)
      && (op.phase.Finished? ==> ReplyTo(s, i) != Open)
      && (op.phase == Finished(true) && !caller.aborted && caller.callback.None? ==> ReplyTo(s, i).Granted?)
  {
    RunKeeps(events);
    var s := Run(INITIAL, events);
    assert Consistent(s.operations[s.callers[i].operation]);
  }

  /** Aborting one caller changes nothing for any operation or any other caller, and nothing at all
      once the caller has its reply. */
  lemma {:induction false} AbortStaysPrivate(s: State, i: nat, j: nat)
    requires i < |s.callers| && j < |s.callers| && i != j
    ensures
      var after := Step(s, CallerAborted(i));
      && after.operations == s.operations && after.inFlight == s.inFlight && |after.callers| == |s.callers|
      && ReplyTo(after, j) == ReplyTo(s, j)
      && ReplyTo(after, i) == if ReplyTo(s, i) == Open then Rejection else ReplyTo(s, i)
  {
  }

  /** An operation that answers a caller keeps that answer through every further step of its own. */
  lemma {:induction false} AnswerStays(before: Operation, after: Operation, callback: Option<Callback>)
    requires callback.Some? ==> callback.value in before.waiters
    requires Progress(before, after)
    ensures ReplyOf(before, callback) != Open ==> ReplyOf(after, callback) == ReplyOf(before, callback)
  {
  }

  /** Callbacks that ended keep their result, and a settled operation changes no more. */
  predicate Progress(before: Operation, after: Operation) {
    && (forall c :: c in before.waiters && before.waiters[c] != Waiting ==> c in after.waiters && after.waiters[c] == before.waiters[c])
    && (before.phase.Finished? ==> after == before)
  }

  lemma {:induction false} WithProgress(s: State, changed: OperationId, op: Operation, id: OperationId)
    requires changed in s.operations && id in s.operations && Progress(s.operations[changed], op)
    ensures id in With(s, changed, op).operations && Progress(s.operations[id], With(s, changed, op).operations[id])
  {
  }

  /** What an operation's own steps do to it. */
  lemma {:induction false} OwnStepsProgress(op: Operation, tokens: Tokens, ok: bool)
    requires Consistent(op)
    ensures op.phase.Exchanging? ==> Progress(op, Failed(op)) && Progress(op, NextBatch(op.(tokens := Some(tokens))))
    ensures op.phase.Draining? ==> Progress(op, NextBatch(op))
    ensures op.phase.Draining? ==> forall c :: c in op.phase.running ==> Progress(op, Ended(op, c, ok))
  {
    if op.phase.Exchanging? {
      forall c | c in op.waiters ensures op.waiters[c] == Waiting { assert c !in op.invoked; }
    }
  }

  lemma {:induction false} OperationsProgress(s: State, event: Event, id: OperationId)
    requires Invariant(s) && id in s.operations
    ensures id in Step(s, event).operations && Progress(s.operations[id], Step(s, event).operations[id])
  {
    match event
    case Refreshing(key, callback, aborted) => if !aborted { RefreshProgress(s, key, callback, id); }
    case ExchangeFailed(changed) =>
      if InPhase(s, changed, true) {
        OwnStepsProgress(s.operations[changed], "", true);
        WithProgress(s, changed, Failed(s.operations[changed]), id);
      }
    case ExchangeSucceeded(changed, tokens) =>
      if InPhase(s, changed, true) {
        OwnStepsProgress(s.operations[changed], tokens, true);
        WithProgress(s, changed, NextBatch(s.operations[changed].(tokens := Some(tokens))), id);
      }
    case CallbackEnded(changed, callback, ok) =>
      if InPhase(s, changed, false) && callback in s.operations[changed].phase.running {
        OwnStepsProgress(s.operations[changed], "", ok);
        WithProgress(s, changed, Ended(s.operations[changed], callback, ok), id);
      }
    case BatchEnded(changed) =>
      if InPhase(s, changed, false) && s.operations[changed].phase.running == {} {
        OwnStepsProgress(s.operations[changed], "", true);
        WithProgress(s, changed, NextBatch(s.operations[changed]), id);
      }
    case CallerAborted(_) =>
  }

  lemma {:induction false} RefreshProgress(s: State, key: Key, callback: Option<Callback>, id: OperationId)
    requires Invariant(s) && id in s.operations
    ensures id in Refresh(s, key, callback, false).operations
    ensures Progress(s.operations[id], Refresh(s, key, callback, false).operations[id])
  {
    OpenedKeeps(s, key);
    OpenedStays(s, key, id);
    var entered := Opened(s, key);
    var joined := entered.inFlight[key];
    JoiningProgress(entered.operations[joined], callback);
    WithProgress(entered, joined, BegunExchange(Registered(entered.operations[joined], callback)), id);
  }

  lemma {:induction false} OpenedStays(s: State, key: Key, id: OperationId)
    requires Invariant(s) && id in s.operations
    ensures id in Opened(s, key).operations && Opened(s, key).operations[id] == s.operations[id]
  {
    assert id < s.next;
  }

  lemma {:induction false} JoiningProgress(op: Operation, callback: Option<Callback>)
    requires !op.phase.Finished?
    ensures Progress(op, BegunExchange(Registered(op, callback)))
  {
  }

  /** A reply never changes: whatever happens later, a caller that was answered stays answered so. */
  lemma {:induction false} RepliesAreFinal(s: State, event: Event, i: nat)
    requires Invariant(s) && i < |s.callers| && ReplyTo(s, i) != Open
    ensures i < |Step(s, event).callers| && ReplyTo(Step(s, event), i) == ReplyTo(s, i)
  {
    var caller := s.callers[i];
    OperationsProgress(s, event, caller.operation);
    CallersStay(s, event, i);
    AnswerStays(s.operations[caller.operation], Step(s, event).operations[caller.operation], caller.callback);
  }

  lemma {:induction false} CallersStay(s: State, event: Event, i: nat)
    requires Invariant(s) && i < |s.callers|
    ensures i < |Step(s, event).callers|
    ensures ReplyTo(s, i) != Open ==> Step(s, event).callers[i] == s.callers[i]
  {
  }
}
