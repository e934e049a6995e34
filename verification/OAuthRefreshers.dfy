/** The table of refresh operations, changed in place between awaits. */
module OAuthRefreshers {
  import opened Entries
  import opened OAuthRefreshes

  class OAuthRefresher {
    var operations: map<OperationId, Operation>
    var inFlight: map<Key, OperationId>
    var callers: seq<Caller>
    var next: OperationId

    function Value(): State
      reads this
    {
      State(operations, inFlight, callers, next)
    }

    ghost predicate Valid()
      reads this
    {
      Invariant(Value())
    }

    constructor ()
      ensures Valid() && Value() == INITIAL
    {
      operations, inFlight, callers, next := map[], map[], [], 0;
    }

    /** Joins the exchange that is in flight for the key, or begins one. */
    method RefreshToken(key: Key, callback: Option<Callback>, aborted: bool) returns (caller: Option<nat>)
      requires Valid()
      modifies this
      ensures Valid() && Value() == Step(old(Value()), Refreshing(key, callback, aborted))
      ensures caller == if aborted then None else Some(old(|callers|))
    {
      StepKeeps(Value(), Refreshing(key, callback, aborted));
      if aborted { return None; }
      RefreshJoins(Value(), key, callback);
      caller := Some(|callers|);
      JoinFlight(key, callback);
    }

    method JoinFlight(key: Key, callback: Option<Callback>)
      requires var entered := Opened(Value(), key);
               key in entered.inFlight && entered.inFlight[key] in entered.operations
      modifies this
      ensures var entered := Opened(old(Value()), key); Value() == Joined(entered, entered.inFlight[key], callback)
    {
      FindOrCreate(key);
      Join(inFlight[key], callback);
    }

    method FindOrCreate(key: Key)
      modifies this
      ensures Value() == Opened(old(Value()), key)
    {
      if key !in inFlight {
        operations := operations[next := Created(key)];
        inFlight := inFlight[key := next];
        next := next + 1;
      }
    }

    /** Registers the callback, begins the exchange unless it has begun, and records who waits. */
    method Join(id: OperationId, callback: Option<Callback>)
      requires id in operations
      modifies this
      ensures Value() == Joined(old(Value()), id, callback)
    {
      var op := operations[id];
      if callback.Some? && callback.value !in op.waiters {
        op := if op.phase.Finished? then op.(late := op.late + 1)
              else op.(waiters := op.waiters[callback.value := Waiting], pending := op.pending + {callback.value});
      }
      if op.phase.Idle? { op := op.(phase := Exchanging); }
      Store(id, op);
      callers := callers + [Caller(id, callback, false)];
    }

    /** Writes an operation back; one that has settled leaves the table of those in flight. */
    method Store(id: OperationId, op: Operation)
      modifies this`operations, this`inFlight
      ensures Value() == With(old(Value()), id, op)
    {
      operations := operations[id := op];
      if op.phase.Finished? && op.key in inFlight && inFlight[op.key] == id {
        inFlight := inFlight - {op.key};
      }
    }

    method FailExchange(id: OperationId)
      requires Valid() && InPhase(Value(), id, true)
      modifies this
      ensures Valid() && Value() == Step(old(Value()), ExchangeFailed(id))
    {
      StepKeeps(Value(), ExchangeFailed(id));
      Store(id, Failed(operations[id]));
    }

    /** The tokens are there: what is pending is called, or nothing is and the operation settles. */
    method SucceedExchange(id: OperationId, tokens: Tokens)
      requires Valid() && InPhase(Value(), id, true)
      modifies this
      ensures Valid() && Value() == Step(old(Value()), ExchangeSucceeded(id, tokens))
    {
      StepKeeps(Value(), ExchangeSucceeded(id, tokens));
      Drain(id, operations[id].(tokens := Some(tokens)));
    }

    method Drain(id: OperationId, op: Operation)
      modifies this`operations, this`inFlight
      ensures Value() == With(old(Value()), id, NextBatch(op))
    {
      var callbacks := op.pending;
      if callbacks == {} {
        Store(id, op.(phase := Finished(true)));
      } else {
        Store(id, op.(phase := Draining(callbacks), pending := {}, invoked := op.invoked + multiset(callbacks)));
      }
    }

    method EndCallback(id: OperationId, callback: Callback, ok: bool)
      requires Valid() && InPhase(Value(), id, false) && callback in operations[id].phase.running
      modifies this
      ensures Valid() && Value() == Step(old(Value()), CallbackEnded(id, callback, ok))
    {
      StepKeeps(Value(), CallbackEnded(id, callback, ok));
      assert Step(Value(), CallbackEnded(id, callback, ok)) == With(Value(), id, Ended(operations[id], callback, ok));
      Store(id, Ended(operations[id], callback, ok));
    }

    /** All callbacks of the batch have ended; those that registered meanwhile come next. */
    method ContinueDraining(id: OperationId)
      requires Valid() && InPhase(Value(), id, false) && operations[id].phase.running == {}
      modifies this
      ensures Valid() && Value() == Step(old(Value()), BatchEnded(id))
    {
      StepKeeps(Value(), BatchEnded(id));
      Drain(id, operations[id]);
    }

    method MarkAborted(i: nat)
      requires i < |callers|
      modifies this`callers
      ensures Value() == old(Value()).(callers := old(callers)[i := old(callers)[i].(aborted := true)])
    {
      callers := callers[i := callers[i].(aborted := true)];
    }

    /** A caller stops waiting. Once answered, it listens no more. */
    method AbortCaller(i: nat)
      requires Valid()
      modifies this`callers
      ensures Valid() && Value() == Step(old(Value()), CallerAborted(i))
    {
      StepKeeps(Value(), CallerAborted(i));
      if i < |callers| && ReplyTo(Value(), i) == Open { MarkAborted(i); }
    }
  }

  lemma {:induction false} RefreshJoins(s: State, key: Key, callback: Option<Callback>)
    requires Invariant(s)
    ensures
      var entered := Opened(s, key);
      && key in entered.inFlight && entered.inFlight[key] in entered.operations
      && Step(s, Refreshing(key, callback, false)) == Joined(entered, entered.inFlight[key], callback)
  {
    OpenedKeeps(s, key);
  }
}
