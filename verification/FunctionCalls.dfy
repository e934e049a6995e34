/** Assembling function calls out of a stream of response events: what the assembler has emitted
    at any point, and how it follows from the events. */
module FunctionCalls {
  import opened Sequences
  import opened Entries
  import opened EventStreams

  type ItemId = string

  /** An output item of type function_call; a field that is not a string is absent. */
  datatype Item = Item(callId: Option<string>, id: Option<string>, name: Option<string>, arguments: Option<string>)

  datatype Event =
    | ItemAdded(item: Item)
    | ItemDone(item: Item)
    | ArgumentsDelta(itemId: ItemId, delta: Option<string>)
    | ArgumentsDone(itemId: ItemId, arguments: Option<string>)
    | Completed(items: seq<Item>)
    | Unrelated(throws: bool)

  /** What is pushed to the assistant stream. The stream carries the call id; `item` says which item
      the push is about, and `arguments` is the text whose parsed value an end carries. */
  datatype Push =
    | Start(item: ItemId, callId: string, name: string)
    | ArgsDelta(item: ItemId, callId: string, text: string)
    | End(item: ItemId, callId: string, name: string, arguments: string)

  datatype Call = Call(callId: string, name: string, chunks: seq<string>, finalized: bool)

  /** `order` is the insertion order of the call table. */
  datatype State = State(calls: map<ItemId, Call>, order: seq<ItemId>, pushed: seq<Push>)

  datatype Outcome = Outcome(state: State, ok: bool)

  /** Whether a text is the JSON of an object. */
  type Parser = string -> bool

  const NO_CALLS := State(map[], [], [])

  function TextOr(value: Option<string>, other: string): string {
    if value.Some? then value.value else other
  }

  // ---------- the moves ----------

  function Started(s: State, id: ItemId, callId: string, name: string): State {
    s.(calls := s.calls[id := Call(callId, name, [], false)], order := s.order + [id],
       pushed := s.pushed + [Start(id, callId, name)])
  }

  function Emitted(s: State, id: ItemId, text: string): State
    requires id in s.calls
  {
    if text == "" then s else s.(pushed := s.pushed + [ArgsDelta(id, s.calls[id].callId, text)])
  }

  function Streamed(s: State, id: ItemId, text: string): State
    requires id in s.calls
  {
    var call := s.calls[id];
    Emitted(s.(calls := s.calls[id := call.(chunks := call.chunks + [text])]), id, text)
  }

  function Ended(s: State, id: ItemId, arguments: string): State
    requires id in s.calls
  {
    var call := s.calls[id];
    s.(calls := s.calls[id := call.(finalized := true)],
       pushed := s.pushed + [End(id, call.callId, call.name, arguments)])
  }

  // ---------- the operations ----------

  function Complete(item: Item): bool {
    TextOr(item.callId, "") != "" && TextOr(item.id, TextOr(item.callId, "")) != "" && TextOr(item.name, "") != ""
  }

  function IdOf(item: Item): ItemId {
    TextOr(item.id, TextOr(item.callId, ""))
  }

  function Opened(s: State, item: Item): Outcome {
    var callId, name, id := TextOr(item.callId, ""), TextOr(item.name, ""), IdOf(item);
    if id !in s.calls then Outcome(Started(s, id, callId, name), true)
    else Outcome(s, s.calls[id].callId == callId && s.calls[id].name == name)
  }

  function Register(s: State, item: Item): (outcome: Outcome)
    ensures outcome.ok ==> IdOf(item) in outcome.state.calls
  {
    if !Complete(item) then Outcome(s, false)
    else
      var entry := Opened(s, item);
      if !entry.ok then entry
      else if item.arguments.Some? && item.arguments.value != "" && entry.state.calls[IdOf(item)].chunks == [] then
        Outcome(Streamed(entry.state, IdOf(item), item.arguments.value), true)
      else entry
  }

  function Finalize(s: State, id: ItemId, final: Option<string>, parses: Parser): Outcome
    requires id in s.calls
  {
    var text := Join(s.calls[id].chunks);
    if s.calls[id].finalized then Outcome(s, true)
    else if final.Some? && !(text <= final.value) then Outcome(s, false)
    else
      var arguments := TextOr(final, text);
      var emitted := Emitted(s, id, arguments[|text|..]);
      if arguments == "" || parses(arguments) then Outcome(Ended(emitted, id, arguments), true)
      else Outcome(emitted, false)
  }

  function RegisterDone(s: State, item: Item, parses: Parser): Outcome {
    var registered := Register(s, item);
    if registered.ok then Finalize(registered.state, IdOf(item), item.arguments, parses) else registered
  }

  function RegisterAll(s: State, items: seq<Item>, parses: Parser): Outcome {
    if items == [] then Outcome(s, true)
    else
      var before := RegisterAll(s, items[..|items| - 1], parses);
      if before.ok then RegisterDone(before.state, items[|items| - 1], parses) else before
  }

  function Handle(s: State, event: Event, parses: Parser): Outcome {
    match event
    case ItemAdded(item) => Register(s, item)
    case ItemDone(item) => RegisterDone(s, item, parses)
    case ArgumentsDelta(id, delta) =>
      if id in s.calls && delta.Some? then Outcome(Streamed(s, id, delta.value), true) else Outcome(s, false)
    case ArgumentsDone(id, arguments) =>
      if id in s.calls then Finalize(s, id, arguments, parses) else Outcome(s, false)
    case Completed(items) => RegisterAll(s, items, parses)
    case Unrelated(throws) => Outcome(s, !throws)
  }

  function Run(s: State, events: seq<Event>, parses: Parser): Outcome {
    if events == [] then Outcome(s, true)
    else
      var before := Run(s, events[..|events| - 1], parses);
      if before.ok then Handle(before.state, events[|events| - 1], parses) else before
  }

  /** The end of the stream: whatever is still open is finalized with what was streamed. */
  function FinishAll(s: State, ids: seq<ItemId>, parses: Parser): (outcome: Outcome)
    requires forall i :: 0 <= i < |ids| ==> ids[i] in s.calls
    ensures outcome.state.calls.Keys == s.calls.Keys
  {
    if ids == [] then Outcome(s, true)
    else
      var before := FinishAll(s, ids[..|ids| - 1], parses);
      if before.ok then Finalize(before.state, ids[|ids| - 1], None, parses) else before
  }

  // ---------- when an operation goes through ----------

  /** An item is registered exactly if it has a call id, an id and a name, and says the same of its call
      as was said before. */
  lemma {:induction false} RegisteredExactly(s: State, item: Item)
    ensures Register(s, item).ok <==>
            && item.callId.Some? && item.callId.value != "" && item.name.Some? && item.name.value != ""
            && IdOf(item) != ""
            && (IdOf(item) in s.calls ==>
                  s.calls[IdOf(item)].callId == item.callId.value && s.calls[IdOf(item)].name == item.name.value)
    ensures IdOf(item) == if item.id.Some? then item.id.value else if item.callId.Some? then item.callId.value else ""
    ensures Register(s, item).ok ==>
              var call := Register(s, item).state.calls[IdOf(item)];
              call.callId == item.callId.value && call.name == item.name.value
  {
  }

  /** A call is ended exactly if its final arguments continue what was streamed and are nothing or an
      object; the end carries them, behind a delta for what had not been streamed. */
  lemma {:induction false} EndedExactly(s: State, id: ItemId, final: Option<string>, parses: Parser)
    requires id in s.calls && !s.calls[id].finalized
    ensures
      var streamed, outcome := Join(s.calls[id].chunks), Finalize(s, id, final, parses);
      var arguments := if final.Some? then final.value else streamed;
      && (outcome.ok <==> streamed <= arguments && (arguments == "" || parses(arguments)))
      && (outcome.ok ==>
            && outcome.state.calls[id] == s.calls[id].(finalized := true)
            && outcome.state.pushed == s.pushed
                 + (if arguments[|streamed|..] == "" then [] else [ArgsDelta(id, s.calls[id].callId, arguments[|streamed|..])])
                 + [End(id, s.calls[id].callId, s.calls[id].name, arguments)])
  {
    ConcatNothing(s.pushed);
  }

  /** Every end that is pushed carries no arguments, or an object. */
  predicate EndsParse(pushed: seq<Push>, parses: Parser) {
    forall k :: 0 <= k < |pushed| && pushed[k].End? ==> pushed[k].arguments == "" || parses(pushed[k].arguments)
  }

  lemma {:induction false} RegisterParses(s: State, item: Item, parses: Parser)
    requires EndsParse(s.pushed, parses)
    ensures EndsParse(Register(s, item).state.pushed, parses)
  {
  }

  lemma {:induction false} FinalizeParses(s: State, id: ItemId, final: Option<string>, parses: Parser)
    requires id in s.calls && EndsParse(s.pushed, parses)
    ensures EndsParse(Finalize(s, id, final, parses).state.pushed, parses)
  {
  }

  lemma {:induction false} RegisterDoneParses(s: State, item: Item, parses: Parser)
    requires EndsParse(s.pushed, parses)
    ensures EndsParse(RegisterDone(s, item, parses).state.pushed, parses)
  {
    RegisterParses(s, item, parses);
    if Register(s, item).ok { FinalizeParses(Register(s, item).state, IdOf(item), item.arguments, parses); }
  }

  lemma {:induction false} RegisterAllParses(s: State, items: seq<Item>, parses: Parser)
    requires EndsParse(s.pushed, parses)
    ensures EndsParse(RegisterAll(s, items, parses).state.pushed, parses)
  {
    if items != [] {
      RegisterAllParses(s, items[..|items| - 1], parses);
      var before := RegisterAll(s, items[..|items| - 1], parses);
      if before.ok { RegisterDoneParses(before.state, items[|items| - 1], parses); }
    }
  }

  lemma {:induction false} HandleParses(s: State, event: Event, parses: Parser)
    requires EndsParse(s.pushed, parses)
    ensures EndsParse(Handle(s, event, parses).state.pushed, parses)
  {
    match event
    case ItemAdded(item) => RegisterParses(s, item, parses);
    case ItemDone(item) => RegisterDoneParses(s, item, parses);
    case ArgumentsDone(id, arguments) => if id in s.calls { FinalizeParses(s, id, arguments, parses); }
    case Completed(items) => RegisterAllParses(s, items, parses);
    case _ =>
  }

  /** Over every stream, and with its end: no call ends with arguments that are not an object. */
  lemma {:induction false} EveryEndParses(events: seq<Event>, parses: Parser)
    ensures EndsParse(Run(NO_CALLS, events, parses).state.pushed, parses)
  {
    if events != [] {
      EveryEndParses(events[..|events| - 1], parses);
      var before := Run(NO_CALLS, events[..|events| - 1], parses);
      if before.ok { HandleParses(before.state, events[|events| - 1], parses); }
    }
  }

  lemma {:induction false} FinishParses(s: State, ids: seq<ItemId>, parses: Parser)
    requires (forall i :: 0 <= i < |ids| ==> ids[i] in s.calls) && EndsParse(s.pushed, parses)
    ensures EndsParse(FinishAll(s, ids, parses).state.pushed, parses)
  {
    if ids != [] {
      FinishParses(s, ids[..|ids| - 1], parses);
      var before := FinishAll(s, ids[..|ids| - 1], parses);
      if before.ok { FinalizeParses(before.state, ids[|ids| - 1], None, parses); }
    }
  }

  // ---------- what has been pushed ----------

  function Starts(pushed: seq<Push>, id: ItemId): nat {
    if pushed == [] then 0
    else
      var init, last := pushed[..|pushed| - 1], pushed[|pushed| - 1];
      Starts(init, id) + if last.Start? && last.item == id then 1 else 0
  }

  function Ends(pushed: seq<Push>, id: ItemId): nat {
    if pushed == [] then 0
    else
      var init, last := pushed[..|pushed| - 1], pushed[|pushed| - 1];
      Ends(init, id) + if last.End? && last.item == id then 1 else 0
  }

  /** All argument deltas pushed for an item, concatenated. */
  function Deltas(pushed: seq<Push>, id: ItemId): string {
    if pushed == [] then ""
    else
      var init, last := pushed[..|pushed| - 1], pushed[|pushed| - 1];
      Deltas(init, id) + if last.ArgsDelta? && last.item == id then last.text else ""
  }

  lemma {:induction false} OneMorePush(pushed: seq<Push>, push: Push, id: ItemId)
    ensures Starts(pushed + [push], id) == Starts(pushed, id) + if push.Start? && push.item == id then 1 else 0
    ensures Ends(pushed + [push], id) == Ends(pushed, id) + if push.End? && push.item == id then 1 else 0
    ensures Deltas(pushed + [push], id) ==
            if push.ArgsDelta? && push.item == id then Deltas(pushed, id) + push.text else Deltas(pushed, id)
  {
    Snoc(pushed, push);
    ConcatNothing(Deltas(pushed, id));
  }

  /** What may follow what was pushed before. */
  predicate MayFollow(pushed: seq<Push>, push: Push) {
    match push
    case Start(id, _, _) => Starts(pushed, id) == 0
    case ArgsDelta(id, _, _) => Starts(pushed, id) == 1
    case End(id, _, _, arguments) => Starts(pushed, id) == 1 && Ends(pushed, id) == 0 && arguments == Deltas(pushed, id)
  }

  predicate Orderly(pushed: seq<Push>) {
    forall k :: 0 <= k < |pushed| ==> MayFollow(pushed[..k], pushed[k])
  }

  lemma {:induction false} OrderlySnoc(pushed: seq<Push>, push: Push)
    requires Orderly(pushed) && MayFollow(pushed, push)
    ensures Orderly(pushed + [push])
  {
    var longer := pushed + [push];
    forall k | 0 <= k < |longer| ensures MayFollow(longer[..k], longer[k]) {
      if k < |pushed| { assert longer[..k] == pushed[..k]; } else { Snoc(pushed, push); }
    }
  }

  /** Orderly pushes start an item at most once and end only what was started, at most once. */
  lemma {:induction false} OrderlyCounts(pushed: seq<Push>, id: ItemId)
    requires Orderly(pushed)
    ensures Ends(pushed, id) <= Starts(pushed, id) <= 1
    ensures Starts(pushed, id) == 0 ==> Deltas(pushed, id) == ""
  {
    if pushed != [] {
      var init, last := pushed[..|pushed| - 1], pushed[|pushed| - 1];
      InitOrderly(pushed);
      OrderlyCounts(init, id);
      InitAndLast(pushed);
      OneMorePush(init, last, id);
      assert MayFollow(init, last);
    }
  }

  lemma {:induction false} InitOrderly(pushed: seq<Push>)
    requires Orderly(pushed) && pushed != []
    ensures Orderly(pushed[..|pushed| - 1])
  {
    var init := pushed[..|pushed| - 1];
    forall k | 0 <= k < |init| ensures MayFollow(init[..k], init[k]) {
      PrefixOfInit(pushed, k);
      assert MayFollow(pushed[..k], pushed[k]);
    }
  }

  // ---------- what the table knows ----------

  /** The record of one item agrees with what was pushed for it. */
  predicate Records(call: Call, pushed: seq<Push>, id: ItemId) {
    && Starts(pushed, id) == 1
    && Ends(pushed, id) == (if call.finalized then 1 else 0)
    && (!call.finalized ==> Deltas(pushed, id) == Join(call.chunks))
  }

  ghost predicate Tracks(s: State) {
    && (forall id :: id in s.calls ==> Records(s.calls[id], s.pushed, id))
    && (forall id :: id !in s.calls ==> Starts(s.pushed, id) == 0)
    && (forall id :: id in s.calls <==> id in s.order)
  }

  ghost predicate Sound(s: State) {
    Orderly(s.pushed) && Tracks(s)
  }

  /** A failed step may have pushed a last delta, but never out of order. */
  ghost predicate SoundOutcome(outcome: Outcome) {
    Orderly(outcome.state.pushed) && (outcome.ok ==> Tracks(outcome.state))
  }

  lemma {:induction false} StartedIsSound(s: State, id: ItemId, callId: string, name: string)
    requires Sound(s) && id !in s.calls
    ensures Sound(Started(s, id, callId, name))
  {
    var push, after := Start(id, callId, name), Started(s, id, callId, name);
    OrderlySnoc(s.pushed, push);
    OrderlyCounts(s.pushed, id);
    forall other ensures other in after.calls ==> Records(after.calls[other], after.pushed, other)
                 ensures other !in after.calls ==> Starts(after.pushed, other) == 0
                 ensures other in after.calls <==> other in after.order {
      OneMorePush(s.pushed, push, other);
    }
  }

  lemma {:induction false} EmittedIsOrderly(s: State, id: ItemId, text: string)
    requires Orderly(s.pushed) && id in s.calls && Starts(s.pushed, id) == 1
    ensures Orderly(Emitted(s, id, text).pushed)
    ensures forall other :: Starts(Emitted(s, id, text).pushed, other) == Starts(s.pushed, other)
    ensures forall other :: Ends(Emitted(s, id, text).pushed, other) == Ends(s.pushed, other)
    ensures forall other :: Deltas(Emitted(s, id, text).pushed, other) ==
                            if other == id then Deltas(s.pushed, id) + text else Deltas(s.pushed, other)
  {
    ConcatNothing(Deltas(s.pushed, id));
    if text != "" {
      var push := ArgsDelta(id, s.calls[id].callId, text);
      OrderlySnoc(s.pushed, push);
      forall other ensures Starts(s.pushed + [push], other) == Starts(s.pushed, other)
                   ensures Ends(s.pushed + [push], other) == Ends(s.pushed, other)
                   ensures Deltas(s.pushed + [push], other) ==
                           if other == id then Deltas(s.pushed, id) + text else Deltas(s.pushed, other) {
        OneMorePush(s.pushed, push, other);
      }
    }
  }

  lemma {:induction false} StreamedIsSound(s: State, id: ItemId, text: string)
    requires Sound(s) && id in s.calls
    ensures Sound(Streamed(s, id, text))
  {
    var call, after := s.calls[id], Streamed(s, id, text);
    EmittedIsOrderly(s.(calls := s.calls[id := call.(chunks := call.chunks + [text])]), id, text);
    Snoc(call.chunks, text);
    forall other | other in after.calls ensures Records(after.calls[other], after.pushed, other) {
      assert Records(s.calls[other], s.pushed, other);
    }
  }

  /** Ending an item whose pushed deltas amount to the arguments. */
  lemma {:induction false} EndedTracks(s: State, emitted: State, id: ItemId, arguments: string)
    requires Tracks(s) && id in s.calls && !s.calls[id].finalized
    requires emitted.calls == s.calls && emitted.order == s.order && Orderly(emitted.pushed)
    requires forall other :: Starts(emitted.pushed, other) == Starts(s.pushed, other)
    requires forall other :: Ends(emitted.pushed, other) == Ends(s.pushed, other)
    requires forall other :: other != id ==> Deltas(emitted.pushed, other) == Deltas(s.pushed, other)
    requires Deltas(emitted.pushed, id) == arguments
    ensures Sound(Ended(emitted, id, arguments))
  {
    var after := Ended(emitted, id, arguments);
    var push := End(id, s.calls[id].callId, s.calls[id].name, arguments);
    assert Records(s.calls[id], s.pushed, id);
    OrderlySnoc(emitted.pushed, push);
    forall other ensures other in after.calls ==> Records(after.calls[other], after.pushed, other)
                 ensures other !in after.calls ==> Starts(after.pushed, other) == 0 {
      OneMorePush(emitted.pushed, push, other);
      if other in s.calls { assert Records(s.calls[other], s.pushed, other); }
    }
  }

  /** Emitting what the final arguments have beyond the streamed text, then ending. */
  lemma {:induction false} ClosingIsSound(s: State, id: ItemId, text: string, missing: string, arguments: string)
    requires Sound(s) && id in s.calls && !s.calls[id].finalized
    requires text == Join(s.calls[id].chunks) && arguments == text + missing
    ensures Orderly(Emitted(s, id, missing).pushed)
    ensures Sound(Ended(Emitted(s, id, missing), id, arguments))
  {
    assert Records(s.calls[id], s.pushed, id);
    EmittedIsOrderly(s, id, missing);
    var emitted := Emitted(s, id, missing);
    assert Deltas(emitted.pushed, id) == arguments;
    EndedTracks(s, emitted, id, arguments);
  }

  lemma {:induction false} FinalizeIsSound(s: State, id: ItemId, final: Option<string>, parses: Parser)
    requires Sound(s) && id in s.calls
    ensures SoundOutcome(Finalize(s, id, final, parses))
    ensures Finalize(s, id, final, parses).ok ==>
              id in Finalize(s, id, final, parses).state.calls && Finalize(s, id, final, parses).state.calls[id].finalized
  {
    var text := Join(s.calls[id].chunks);
    var arguments := TextOr(final, text);
    if !s.calls[id].finalized && text <= arguments {
      PrefixRest(text, arguments);
      ClosingIsSound(s, id, text, arguments[|text|..], arguments);
    }
  }

  lemma {:induction false} RegisterIsSound(s: State, item: Item)
    requires Sound(s)
    ensures SoundOutcome(Register(s, item))
  {
    if Complete(item) {
      var id := IdOf(item);
      if id !in s.calls { StartedIsSound(s, id, TextOr(item.callId, ""), TextOr(item.name, "")); }
      var entry := Opened(s, item);
      if entry.ok && item.arguments.Some? && item.arguments.value != "" {
        StreamedIsSound(entry.state, id, item.arguments.value);
      }
    }
  }

  lemma {:induction false} RegisterDoneIsSound(s: State, item: Item, parses: Parser)
    requires Sound(s)
    ensures SoundOutcome(RegisterDone(s, item, parses))
  {
    RegisterIsSound(s, item);
    if Register(s, item).ok { FinalizeIsSound(Register(s, item).state, IdOf(item), item.arguments, parses); }
  }

  lemma {:induction false} RegisterAllIsSound(s: State, items: seq<Item>, parses: Parser)
    requires Sound(s)
    ensures SoundOutcome(RegisterAll(s, items, parses))
  {
    if items != [] {
      var init := items[..|items| - 1];
      RegisterAllIsSound(s, init, parses);
      var before := RegisterAll(s, init, parses);
      if before.ok { RegisterDoneIsSound(before.state, items[|items| - 1], parses); }
    }
  }

  lemma {:induction false} HandleIsSound(s: State, event: Event, parses: Parser)
    requires Sound(s)
    ensures SoundOutcome(Handle(s, event, parses))
  {
    match event
    case ItemAdded(item) => RegisterIsSound(s, item);
    case ItemDone(item) => RegisterDoneIsSound(s, item, parses);
    case ArgumentsDelta(id, delta) => if id in s.calls && delta.Some? { StreamedIsSound(s, id, delta.value); }
    case ArgumentsDone(id, arguments) => if id in s.calls { FinalizeIsSound(s, id, arguments, parses); }
    case Completed(items) => RegisterAllIsSound(s, items, parses);
    case Unrelated(_) =>
  }

  lemma {:induction false} RunIsSound(s: State, events: seq<Event>, parses: Parser)
    requires Sound(s)
    ensures SoundOutcome(Run(s, events, parses))
  {
    if events != [] {
      var before := Run(s, events[..|events| - 1], parses);
      RunIsSound(s, events[..|events| - 1], parses);
      if before.ok { HandleIsSound(before.state, events[|events| - 1], parses); }
    }
  }

  predicate AllFinalized(s: State, ids: seq<ItemId>) {
    forall i :: 0 <= i < |ids| ==> ids[i] in s.calls && s.calls[ids[i]].finalized
  }

  lemma {:induction false} FinishIsSound(s: State, ids: seq<ItemId>, parses: Parser)
    requires Sound(s) && forall i :: 0 <= i < |ids| ==> ids[i] in s.calls
    ensures SoundOutcome(FinishAll(s, ids, parses))
    ensures FinishAll(s, ids, parses).ok ==> AllFinalized(FinishAll(s, ids, parses).state, ids)
  {
    if ids != [] {
      var init, last := ids[..|ids| - 1], ids[|ids| - 1];
      FinishIsSound(s, init, parses);
      var before := FinishAll(s, init, parses);
      if before.ok {
        FinalizeIsSound(before.state, last, None, parses);
        FinalizedStays(before.state, init, last, parses);
        InitAndLast(ids);
      }
    }
  }

  lemma {:induction false} FinalizedStays(s: State, ids: seq<ItemId>, id: ItemId, parses: Parser)
    requires id in s.calls && AllFinalized(s, ids)
    ensures AllFinalized(Finalize(s, id, None, parses).state, ids)
  {
  }

  /** The whole stream: the events, then what is still open is closed. */
  function Assemble(events: seq<Event>, parses: Parser): Outcome {
    RunIsSoundFromStart(events, parses);
    var run := Run(NO_CALLS, events, parses);
    if run.ok then FinishAll(run.state, run.state.order, parses) else run
  }

  lemma {:induction false} RunIsSoundFromStart(events: seq<Event>, parses: Parser)
    ensures SoundOutcome(Run(NO_CALLS, events, parses))
  {
    RunIsSound(NO_CALLS, events, parses);
  }

  /** For every event sequence, every item is started at most once and ended at most once, its end
      carries exactly the deltas pushed for it until then, and a stream that ends well has ended
      every item it started. */
  lemma {:induction false} CallsAreAssembled(events: seq<Event>, parses: Parser, id: ItemId)
    ensures
      var end := Assemble(events, parses);
      && Ends(end.state.pushed, id) <= Starts(end.state.pushed, id) <= 1
      && (end.ok ==> Ends(end.state.pushed, id) == Starts(end.state.pushed, id))
      && Orderly(end.state.pushed)
  {
    RunIsSoundFromStart(events, parses);
    var run, end := Run(NO_CALLS, events, parses), Assemble(events, parses);
    if run.ok { FinishIsSound(run.state, run.state.order, parses); }
    OrderlyCounts(end.state.pushed, id);
    if end.ok && id in end.state.calls { assert Records(end.state.calls[id], end.state.pushed, id); }
  }

  lemma {:induction false} EndCarriesItsDeltas(events: seq<Event>, parses: Parser, k: nat)
    requires k < |Assemble(events, parses).state.pushed| && Assemble(events, parses).state.pushed[k].End?
    ensures
      var pushed := Assemble(events, parses).state.pushed;
      pushed[k].arguments == Deltas(pushed[..k], pushed[k].item)
  {
    var pushed := Assemble(events, parses).state.pushed;
    CallsAreAssembled(events, parses, pushed[k].item);
    assert MayFollow(pushed[..k], pushed[k]);
  }

  // ---------- deltas after the end ----------

  /** The events that push a delta for an item that has ended already: a streamed delta, or an item,
      alone or in the output of a completed response, that repeats its arguments although none of
      them had been streamed. In an output, every item before it must have been taken. */
  predicate Reopens(s: State, event: Event, parses: Parser, id: ItemId)
    requires id in s.calls
  {
    match event
    case ArgumentsDelta(other, delta) => other == id && delta.Some? && delta.value != ""
    case ItemAdded(item) => RepeatsArguments(s, item, id)
    case ItemDone(item) => RepeatsArguments(s, item, id)
    case Completed(items) => exists k :: 0 <= k < |items| && RepeatsAt(s, items, k, parses, id)
    case _ => false
  }

  predicate RepeatsAt(s: State, items: seq<Item>, k: nat, parses: Parser, id: ItemId)
    requires id in s.calls && k < |items|
  {
    RepeatsArguments(s, items[k], id) && RegisterAll(s, items[..k], parses).ok
  }

  predicate RepeatsArguments(s: State, item: Item, id: ItemId)
    requires id in s.calls
  {
    Complete(item) && IdOf(item) == id && Opened(s, item).ok && TextOr(item.arguments, "") != "" && s.calls[id].chunks == []
  }

  lemma {:induction false} OpenedDeltas(s: State, item: Item, id: ItemId)
    requires Sound(s) && id in s.calls && Complete(item)
    ensures var after := Opened(s, item).state;
            && Sound(after) && id in after.calls && after.calls[id] == s.calls[id] && IdOf(item) in after.calls
            && Deltas(after.pushed, id) == Deltas(s.pushed, id)
  {
    var other := IdOf(item);
    if other !in s.calls {
      StartedIsSound(s, other, TextOr(item.callId, ""), TextOr(item.name, ""));
      OneMorePush(s.pushed, Start(other, TextOr(item.callId, ""), TextOr(item.name, "")), id);
    }
  }

  lemma {:induction false} RegisterReopens(s: State, item: Item, id: ItemId)
    requires Sound(s) && id in s.calls
    ensures var after := Register(s, item).state;
            id in after.calls && after.calls[id].finalized == s.calls[id].finalized
    ensures Deltas(Register(s, item).state.pushed, id) ==
            Deltas(s.pushed, id) + if RepeatsArguments(s, item, id) then item.arguments.value else ""
  {
    ConcatNothing(Deltas(s.pushed, id));
    if Complete(item) {
      OpenedDeltas(s, item, id);
      var entry := Opened(s, item);
      if entry.ok && TextOr(item.arguments, "") != "" && entry.state.calls[IdOf(item)].chunks == [] {
        StreamedDeltas(entry.state, IdOf(item), item.arguments.value, id);
      }
    }
  }

  lemma {:induction false} StreamedDeltas(s: State, id: ItemId, text: string, other: ItemId)
    requires Sound(s) && id in s.calls
    ensures Deltas(Streamed(s, id, text).pushed, other) == Deltas(s.pushed, other) + if other == id then text else ""
  {
    var call := s.calls[id];
    assert Records(call, s.pushed, id);
    EmittedIsOrderly(s.(calls := s.calls[id := call.(chunks := call.chunks + [text])]), id, text);
    ConcatNothing(Deltas(s.pushed, other));
  }

  lemma {:induction false} FinalizeDeltas(s: State, id: ItemId, final: Option<string>, parses: Parser, other: ItemId)
    requires Sound(s) && id in s.calls && other in s.calls && s.calls[other].finalized
    ensures Deltas(Finalize(s, id, final, parses).state.pushed, other) == Deltas(s.pushed, other)
  {
    var call := s.calls[id];
    var text := Join(call.chunks);
    assert Records(call, s.pushed, id);
    if !call.finalized && (final.None? || text <= final.value) {
      var arguments := TextOr(final, text);
      EmittedIsOrderly(s, id, arguments[|text|..]);
      var emitted := Emitted(s, id, arguments[|text|..]);
      OneMorePush(emitted.pushed, End(id, call.callId, call.name, arguments), other);
    }
  }

  lemma {:induction false} FinalizeKeepsEnded(s: State, id: ItemId, final: Option<string>, parses: Parser, other: ItemId)
    requires id in s.calls && other in s.calls && s.calls[other].finalized
    ensures other in Finalize(s, id, final, parses).state.calls
    ensures Finalize(s, id, final, parses).state.calls[other] == s.calls[other]
  {
  }

  /** Registering and finalizing keeps an ended item's record, unless it repeats its arguments. */
  lemma {:induction false} RegisterDoneReopens(s: State, item: Item, parses: Parser, id: ItemId)
    requires Sound(s) && id in s.calls && s.calls[id].finalized
    ensures var after := RegisterDone(s, item, parses).state;
            && id in after.calls && after.calls[id].finalized
            && (!RepeatsArguments(s, item, id) ==> after.calls[id] == s.calls[id])
    ensures Deltas(RegisterDone(s, item, parses).state.pushed, id) ==
            Deltas(s.pushed, id) + if RepeatsArguments(s, item, id) then item.arguments.value else ""
  {
    RegisterReopens(s, item, id);
    RegisterIsSound(s, item);
    RegisterKeepsCall(s, item, id);
    var registered := Register(s, item);
    if registered.ok {
      FinalizeDeltas(registered.state, IdOf(item), item.arguments, parses, id);
      FinalizeKeepsEnded(registered.state, IdOf(item), item.arguments, parses, id);
    }
  }

  lemma {:induction false} RegisterKeepsCall(s: State, item: Item, id: ItemId)
    requires id in s.calls
    ensures id in Register(s, item).state.calls
    ensures !RepeatsArguments(s, item, id) ==> Register(s, item).state.calls[id] == s.calls[id]
  {
  }

  /** Over the output of a completed response, the deltas of an ended item only grow, and they grow
      exactly when some taken item repeats its arguments. */
  lemma {:induction false} RegisterAllReopens(s: State, items: seq<Item>, parses: Parser, id: ItemId)
    requires Sound(s) && id in s.calls && s.calls[id].finalized
    ensures var after := RegisterAll(s, items, parses).state;
            id in after.calls && after.calls[id].finalized
    ensures |Deltas(RegisterAll(s, items, parses).state.pushed, id)| >= |Deltas(s.pushed, id)|
    ensures if Reopens(s, Completed(items), parses, id)
            then |Deltas(RegisterAll(s, items, parses).state.pushed, id)| > |Deltas(s.pushed, id)|
            else Deltas(RegisterAll(s, items, parses).state.pushed, id) == Deltas(s.pushed, id) &&
                 RegisterAll(s, items, parses).state.calls[id] == s.calls[id]
  {
    if items != [] {
      var init, last := items[..|items| - 1], items[|items| - 1];
      RegisterAllReopens(s, init, parses, id);
      RegisterAllIsSound(s, init, parses);
      var before := RegisterAll(s, init, parses);
      ReopensSnoc(s, items, parses, id);
      if before.ok { RegisterDoneReopens(before.state, last, parses, id); }
    }
  }

  lemma {:induction false} ReopensSnoc(s: State, items: seq<Item>, parses: Parser, id: ItemId)
    requires id in s.calls && items != []
    ensures var init, last := items[..|items| - 1], items[|items| - 1];
            Reopens(s, Completed(items), parses, id) <==>
              (Reopens(s, Completed(init), parses, id) ||
               (RepeatsArguments(s, last, id) && RegisterAll(s, init, parses).ok))
  {
    var init := items[..|items| - 1];
    forall k | 0 <= k < |init| ensures RepeatsAt(s, items, k, parses, id) == RepeatsAt(s, init, k, parses, id) {
      PrefixOfInit(items, k);
    }
    assert RepeatsAt(s, items, |init|, parses, id) ==
           (RepeatsArguments(s, items[|init|], id) && RegisterAll(s, init, parses).ok);
  }

  /** Nothing else pushes for an item that has ended. */
  lemma {:induction false} OnlyTheseReopen(s: State, event: Event, parses: Parser, id: ItemId)
    requires Sound(s) && id in s.calls && s.calls[id].finalized
    ensures Deltas(Handle(s, event, parses).state.pushed, id) != Deltas(s.pushed, id) <==> Reopens(s, event, parses, id)
  {
    match event
    case ItemAdded(item) => RegisterReopens(s, item, id);
    case ItemDone(item) => RegisterDoneReopens(s, item, parses, id);
    case ArgumentsDelta(other, delta) => if other in s.calls && delta.Some? { StreamedDeltas(s, other, delta.value, id); }
    case ArgumentsDone(other, arguments) => if other in s.calls { FinalizeDeltas(s, other, arguments, parses, id); }
    case Completed(items) => RegisterAllReopens(s, items, parses, id);
    case Unrelated(_) =>
  }

  const OPENING_ITEM := Item(Some("call"), Some("item"), Some("read"), None)
  const REPEATING := [ItemAdded(OPENING_ITEM), ArgumentsDone("item", Some("{}")),
                      ItemDone(OPENING_ITEM.(arguments := Some("{}")))]

  /** A stream without argument deltas that states the arguments twice: the second statement comes
      out as a delta behind the end, so all deltas together are not what the end carried. */
  lemma {:induction false} RepeatedArgumentsReopen(parses: Parser)
    requires parses("{}")
    ensures Run(NO_CALLS, REPEATING, parses).ok
    ensures Run(NO_CALLS, REPEATING, parses).state.pushed ==
            [Start("item", "call", "read"), ArgsDelta("item", "call", "{}"),
             End("item", "call", "read", "{}"), ArgsDelta("item", "call", "{}")]
  {
    var one, two := [REPEATING[0]], [REPEATING[0], REPEATING[1]];
    assert one[..0] == [] && two[..1] == one && REPEATING[..2] == two;
    var started := Started(NO_CALLS, "item", "call", "read");
    assert Run(NO_CALLS, one, parses) == Outcome(started, true);
    assert Join([]) == "";
    var ended := Ended(Emitted(started, "item", "{}"), "item", "{}");
    assert Finalize(started, "item", Some("{}"), parses) == Outcome(ended, true) by { assert "{}"[0..] == "{}"; }
    assert Run(NO_CALLS, two, parses) == Outcome(ended, true);
    assert Register(ended, REPEATING[2].item) == Outcome(Streamed(ended, "item", "{}"), true);
  }
}
