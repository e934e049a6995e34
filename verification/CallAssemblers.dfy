/** The table of function calls of one response, updated as events arrive. */
module CallAssemblers {
  import opened Sequences
  import opened Entries
  import opened EventStreams
  import opened FunctionCalls

  class CallAssembler {
    var calls: map<ItemId, Call>
    var order: seq<ItemId>
    var pushed: seq<Push>
    const parses: Parser

    function Value(): State
      reads this
    {
      State(calls, order, pushed)
    }

    ghost predicate Valid()
      reads this
    {
      Sound(Value())
    }

    constructor (parses: Parser)
      ensures Valid() && Value() == NO_CALLS && this.parses == parses
    {
      calls, order, pushed := map[], [], [];
      this.parses := parses;
    }

    method PushDelta(id: ItemId, text: string)
      requires id in calls
      modifies this`pushed
      ensures Value() == Emitted(old(Value()), id, text)
    {
      if text != "" { pushed := pushed + [ArgsDelta(id, calls[id].callId, text)]; }
    }

    method RegisterFunctionCall(item: Item) returns (ok: bool)
      modifies this
      ensures Outcome(Value(), ok) == Register(old(Value()), item)
    {
      var callId, name, id := TextOr(item.callId, ""), TextOr(item.name, ""), IdOf(item);
      if callId == "" || id == "" || name == "" { return false; }
      if id !in calls {
        calls := calls[id := Call(callId, name, [], false)];
        order := order + [id];
        pushed := pushed + [Start(id, callId, name)];
      } else if calls[id].callId != callId || calls[id].name != name {
        return false;
      }
      if item.arguments.Some? && calls[id].chunks == [] && item.arguments.value != "" {
        AddChunk(id, item.arguments.value);
      }
      return true;
    }

    method AddChunk(id: ItemId, text: string)
      requires id in calls
      modifies this
      ensures Value() == Streamed(old(Value()), id, text)
    {
      calls := calls[id := calls[id].(chunks := calls[id].chunks + [text])];
      PushDelta(id, text);
    }

    /** Ends a call once; final arguments must continue what was streamed. */
    method FinalizeFunctionCall(id: ItemId, final: Option<string>) returns (ok: bool)
      requires id in calls
      modifies this
      ensures Outcome(Value(), ok) == Finalize(old(Value()), id, final, parses)
    {
      var call := calls[id];
      if call.finalized { return true; }
      var arguments := Join(call.chunks);
      if final.Some? && arguments != final.value {
        if !(arguments <= final.value) { return false; }
        PushDelta(id, final.value[|arguments|..]);
        arguments := final.value;
      }
      if arguments != "" && !parses(arguments) { return false; }
      pushed := pushed + [End(id, call.callId, call.name, arguments)];
      calls := calls[id := call.(finalized := true)];
      return true;
    }

    method RegisterAndFinalize(item: Item) returns (ok: bool)
      modifies this
      ensures Outcome(Value(), ok) == RegisterDone(old(Value()), item, parses)
    {
      ok := RegisterFunctionCall(item);
      if ok { ok := FinalizeFunctionCall(IdOf(item), item.arguments); }
    }

    method RegisterOutput(items: seq<Item>) returns (ok: bool)
      modifies this
      ensures Outcome(Value(), ok) == RegisterAll(old(Value()), items, parses)
    {
      ghost var start := Value();
      for i := 0 to |items|
        invariant Outcome(Value(), true) == RegisterAll(start, items[..i], parses)
      {
        TakeOneMore(items, i);
        ok := RegisterAndFinalize(items[i]);
        if !ok {
          FailureStays(start, items, i + 1, parses);
          return;
        }
      }
      TakeAll(items);
      ok := true;
    }

    /** Whatever happens, nothing is pushed out of order. */
    method HandleEvent(event: Event) returns (ok: bool)
      requires Valid()
      modifies this
      ensures Outcome(Value(), ok) == Handle(old(Value()), event, parses)
      ensures SoundOutcome(Outcome(Value(), ok))
    {
      HandleIsSound(Value(), event, parses);
      match event {
        case ItemAdded(item) => ok := RegisterFunctionCall(item);
        case ItemDone(item) => ok := RegisterAndFinalize(item);
        case ArgumentsDelta(id, delta) =>
          ok := id in calls && delta.Some?;
          if ok { AddChunk(id, delta.value); }
        case ArgumentsDone(id, arguments) =>
          ok := id in calls;
          if ok { ok := FinalizeFunctionCall(id, arguments); }
        case Completed(items) => ok := RegisterOutput(items);
        case Unrelated(throws) => ok := !throws;
      }
    }

    /** After the last event: ends what is still open; on success nothing started is left open. */
    method FinishOpen() returns (ok: bool)
      requires Valid()
      modifies this
      ensures Outcome(Value(), ok) == FinishAll(old(Value()), old(order), parses)
      ensures ok ==> AllFinalized(Value(), old(order))
    {
      FinishIsSound(Value(), order, parses);
      ok := FinalizeEach(order);
    }

    method FinalizeEach(ids: seq<ItemId>) returns (ok: bool)
      requires forall i :: 0 <= i < |ids| ==> ids[i] in calls
      modifies this
      ensures Outcome(Value(), ok) == FinishAll(old(Value()), ids, parses)
    {
      ghost var start := Value();
      for i := 0 to |ids|
        invariant calls.Keys == start.calls.Keys
        invariant Outcome(Value(), true) == FinishAll(start, ids[..i], parses)
      {
        TakeOneMore(ids, i);
        ok := FinalizeFunctionCall(ids[i], None);
        if !ok {
          OpenStays(start, ids, i + 1, parses);
          return;
        }
      }
      TakeAll(ids);
      ok := true;
    }
  }

  lemma {:induction false} FailureStays(s: State, items: seq<Item>, k: nat, parses: Parser)
    requires k <= |items| && !RegisterAll(s, items[..k], parses).ok
    ensures RegisterAll(s, items, parses) == RegisterAll(s, items[..k], parses)
  {
    if k == |items| {
      TakeAll(items);
    } else {
      PrefixOfInit(items, k);
      FailureStays(s, items[..|items| - 1], k, parses);
    }
  }

  lemma {:induction false} OpenStays(s: State, ids: seq<ItemId>, k: nat, parses: Parser)
    requires k <= |ids| && (forall i :: 0 <= i < |ids| ==> ids[i] in s.calls)
    requires !FinishAll(s, ids[..k], parses).ok
    ensures FinishAll(s, ids, parses) == FinishAll(s, ids[..k], parses)
  {
    if k == |ids| {
      TakeAll(ids);
    } else {
      PrefixOfInit(ids, k);
      OpenStays(s, ids[..|ids| - 1], k, parses);
    }
  }
}
