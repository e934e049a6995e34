/** The journal's vocabulary: entries, their payloads, and the messages they yield. */
module Entries {

  type Id = string

  datatype Option<+T> = None | Some(value: T)

  /** Present and not the empty string, which counts as absent wherever an id is tested for truth. */
  predicate Truthy(id: Option<Id>) {
    id.Some? && id.value != ""
  }

  datatype Result<+T> = Ok(value: T) | Err(reason: Failure)

  /** Why a projection, a validation or a path walk throws. */
  datatype Failure =
    | InvalidLoadout
    | InvalidEdit
    | InvalidCompaction
    | CutPointMismatch
    | CyclicJournal(id: Id)
    | MissingEntry(id: Id)
    | DuplicateId(id: Id)

  /** A JSON value, or a JavaScript value that JSON cannot carry. The verdict of the tool
      parameter-schema validator travels with the value. */
  datatype Json = Json(text: string, toolSchema: bool) | NonJson(tag: string)

  /** A block of an assistant message; the arguments of a call are the text of a JSON value. */
  datatype Block =
    | TextBlock(text: string)
    | ThinkingBlock(thinking: string, providerIndex: Option<int>, signature: Option<string>)
    | ToolCallBlock(callId: string, name: string, arguments: string)

  /** One persisted stream frame. With an arguments frame travels the verdict of the JSON parser on
      the arguments streamed for its block so far. */
  datatype Frame =
    | AttemptReset
    | TextStart(index: nat, text: string)
    | TextDelta(index: nat, delta: string)
    | ThinkingStart(index: nat, thinking: string, providerIndex: Option<int>)
    | ThinkingDelta(index: nat, delta: string)
    | ThinkingSignature(index: nat, signature: string)
    | ToolCallStart(index: nat, callId: string, name: string)
    | ToolCallArgs(index: nat, callId: string, parsed: Option<string>)
    | ToolCallEnd(index: nat, callId: string, name: string, arguments: string)
    | Malformed

  /** A message's content: settled JSON, or the blocks that the frame reducer rebuilt. */
  datatype Content = Settled(json: Json) | Rebuilt(blocks: seq<Block>)

  datatype Usage = Usage(inputTokens: int, outputTokens: int, totalTokens: int)
  {
    function Plus(other: Usage): Usage {
      Usage(inputTokens + other.inputTokens, outputTokens + other.outputTokens, totalTokens + other.totalTokens)
    }
  }

  const NO_USAGE := Usage(0, 0, 0)

  datatype ToolDefinition = ToolDefinition(name: string, description: string, parameters: Json)

  /** A named instruction section set to a text, or removed. */
  datatype SectionChange = SectionChange(name: string, text: Option<string>)

  datatype Message =
    | UserMessage(id: Option<Id>, content: Content)
    | AssistantMessage(id: Option<Id>, content: Content, usage: Option<Usage>)
    | ToolResultMessage(id: Option<Id>, content: Content)
    | SystemMessage(id: Option<Id>, text: string, sections: Option<seq<SectionChange>>,
                    toolsAdded: Option<seq<ToolDefinition>>, toolsRemoved: Option<seq<string>>)
    | CustomMessage(id: Option<Id>, content: Content)

  datatype Role = User | Assistant | ToolResult | System | Custom

  function RoleOf(message: Message): Role {
    match message
    case UserMessage(_, _) => User
    case AssistantMessage(_, _, _) => Assistant
    case ToolResultMessage(_, _) => ToolResult
    case SystemMessage(_, _, _, _, _) => System
    case CustomMessage(_, _) => Custom
  }

  function WithId(message: Message, id: Id): Message {
    message.(id := Some(id))
  }

  /** The message schema and the JSON check: everything a message carries must be JSON. */
  predicate WellFormedMessage(message: Message) {
    message.SystemMessage? || (message.content.Settled? && message.content.json.Json?)
  }

  /** An empty identity is falsy in the original, so it does not identify. */
  predicate Identified(message: Message) {
    message.id.Some? && message.id.value != ""
  }

  datatype Loadout = Loadout(version: int, systemPrompt: string, tools: seq<ToolDefinition>)

  datatype EditAction = Exclude | Replace(message: Message) | Unsupported
  datatype EditOperation = EditOperation(messageId: Id, action: EditAction)

  /** `isJson` is the verdict of the JSON check over the whole value. */
  datatype ContextEdit = ContextEdit(version: int, isJson: bool, edits: seq<EditOperation>)

  datatype CompactionView = CompactionView(
    version: int, isJson: bool, baseHeadId: Option<Id>, summary: Message, keptIds: seq<Id>)

  /** What a `custom` payload declares itself to be. */
  datatype CustomShape =
    | Silent
    | AsCustom(content: Json)
    | AsSystem(text: string, sections: Option<seq<SectionChange>>,
               toolsAdded: Option<seq<ToolDefinition>>, toolsRemoved: Option<seq<string>>)

  /** The entry type together with its payload. `None` stands for a payload of the wrong shape,
      except for a compaction, where it means that no model view is attached. */
  datatype Payload =
    | UserInput(content: Json)
    | AgentTurn(content: Json, usage: Option<Usage>)
    | ToolExecution(content: Json, sourceIndex: Option<int>)
    | AssistantFrame(frame: Option<Frame>)
    | ModelLoadout(loadout: Option<Loadout>)
    | Edit(edit: Option<ContextEdit>)
    | Compaction(view: Option<CompactionView>)
    | CustomEntry(shape: CustomShape, contextHead: bool)
    | Bookkeeping(kind: string)

  datatype Entry = Entry(id: Id, seqNo: nat, parentId: Option<Id>, payload: Payload)

  /** The conversation message an entry yields, if any. Its identity is always the entry's. */
  function MessageOf(entry: Entry): (message: Option<Message>)
    ensures message.Some? ==> message.value.id == Some(entry.id)
  {
    match entry.payload
    case UserInput(content) => Some(UserMessage(Some(entry.id), Settled(content)))
    case AgentTurn(content, usage) => Some(AssistantMessage(Some(entry.id), Settled(content), usage))
    case ToolExecution(content, _) => Some(ToolResultMessage(Some(entry.id), Settled(content)))
    case CustomEntry(AsCustom(content), _) => Some(CustomMessage(Some(entry.id), Settled(content)))
    case CustomEntry(AsSystem(text, sections, added, removed), _) =>
      Some(SystemMessage(Some(entry.id), text, sections, added, removed))
    case _ => None
  }

  /** Every entry of a conversation yields its message, in the role of its kind and with its content;
      an assistant message also says what it used. Nothing else yields one. */
  lemma {:induction false} EntriesYieldTheirMessages(entry: Entry)
    ensures
      var message := MessageOf(entry);
      && (entry.payload.UserInput? ==> message == Some(UserMessage(Some(entry.id), Settled(entry.payload.content))))
      && (entry.payload.ToolExecution? ==> message == Some(ToolResultMessage(Some(entry.id), Settled(entry.payload.content))))
      && (entry.payload.AgentTurn? ==>
            message.Some? && RoleOf(message.value) == Assistant && message.value.content == Settled(entry.payload.content) &&
            message.value.usage == entry.payload.usage)
      && (entry.payload.CustomEntry? && entry.payload.shape.AsCustom? ==>
            message == Some(CustomMessage(Some(entry.id), Settled(entry.payload.shape.content))))
      && (entry.payload.CustomEntry? && entry.payload.shape.AsSystem? ==>
            var shape := entry.payload.shape;
            message == Some(SystemMessage(Some(entry.id), shape.text, shape.sections, shape.toolsAdded, shape.toolsRemoved)))
      && (message.None? <==>
            || entry.payload.AssistantFrame? || entry.payload.ModelLoadout? || entry.payload.Edit?
            || entry.payload.Compaction? || entry.payload.Bookkeeping?
            || (entry.payload.CustomEntry? && entry.payload.shape.Silent?))
  {
  }

  function ToolMessage(entry: Entry): (message: Message)
    requires entry.payload.ToolExecution?
    ensures message.id == Some(entry.id) && message.ToolResultMessage?
  {
    MessageOf(entry).value
  }

  // ---------- the unfinished assistant message ----------

  /** Blocks by index, with holes, and the calls whose arguments are still streaming. */
  datatype Rebuilding = Rebuilding(blocks: seq<Option<Block>>, streaming: map<nat, Option<string>>)

  function BlockAt(blocks: seq<Option<Block>>, index: nat): Option<Block> {
    if index < |blocks| then blocks[index] else None
  }

  function PutBlock(blocks: seq<Option<Block>>, index: nat, block: Block): (after: seq<Option<Block>>)
    ensures BlockAt(after, index) == Some(block)
  {
    if index < |blocks| then blocks[index := Some(block)]
    else blocks + seq(index - |blocks|, _ => None) + [Some(block)]
  }

  function TextAt(blocks: seq<Option<Block>>, index: nat): string {
    match BlockAt(blocks, index)
    case Some(TextBlock(text)) => text
    case _ => ""
  }

  function ThinkingAt(blocks: seq<Option<Block>>, index: nat, providerIndex: Option<int>): (block: Block)
    ensures block.ThinkingBlock?
  {
    match BlockAt(blocks, index)
    case Some(ThinkingBlock(thinking, known, signature)) =>
      ThinkingBlock(thinking, if providerIndex.Some? then providerIndex else known, signature)
    case _ => ThinkingBlock("", providerIndex, None)
  }

  predicate IsCall(block: Option<Block>) {
    block.Some? && block.value.ToolCallBlock?
  }

  function WithCall(blocks: seq<Option<Block>>, index: nat, callId: string, name: string): seq<Option<Block>> {
    if IsCall(BlockAt(blocks, index)) then blocks else PutBlock(blocks, index, ToolCallBlock(callId, name, "{}"))
  }

  function ReplayFrame(state: Rebuilding, frame: Frame): Rebuilding {
    var blocks := state.blocks;
    match frame
    case AttemptReset => Rebuilding([], map[])
    case TextStart(i, text) => state.(blocks := PutBlock(blocks, i, TextBlock(text)))
    case TextDelta(i, delta) => state.(blocks := PutBlock(blocks, i, TextBlock(TextAt(blocks, i) + delta)))
    case ThinkingStart(i, thinking, providerIndex) =>
      state.(blocks := PutBlock(blocks, i, ThinkingAt(blocks, i, providerIndex).(thinking := thinking)))
    case ThinkingDelta(i, delta) =>
      var block := ThinkingAt(blocks, i, None);
      state.(blocks := PutBlock(blocks, i, block.(thinking := block.thinking + delta)))
    case ThinkingSignature(i, signature) =>
      state.(blocks := PutBlock(blocks, i, ThinkingAt(blocks, i, None).(signature := Some(signature))))
    case ToolCallStart(i, callId, name) => state.(blocks := WithCall(blocks, i, callId, name))
    case ToolCallArgs(i, callId, parsed) =>
      Rebuilding(WithCall(blocks, i, callId, "unknown_tool"), state.streaming[i := parsed])
    case ToolCallEnd(i, callId, name, arguments) =>
      if IsCall(BlockAt(blocks, i))
      then Rebuilding(PutBlock(blocks, i, ToolCallBlock(callId, name, arguments)), state.streaming - {i})
      else state
    case Malformed => state
  }

  function ReplayFrames(frames: seq<Frame>): Rebuilding {
    if frames == [] then Rebuilding([], map[])
    else ReplayFrame(ReplayFrames(frames[..|frames| - 1]), frames[|frames| - 1])
  }

  /** Streaming arguments that do not parse yet count as none. */
  function ShownAt(state: Rebuilding, index: nat): Option<Block> {
    var block := BlockAt(state.blocks, index);
    if IsCall(block) && index in state.streaming
    then Some(block.value.(arguments := if state.streaming[index].Some? then state.streaming[index].value else "{}"))
    else block
  }

  function ShownBlocks(state: Rebuilding, count: nat): seq<Block> {
    if count == 0 then []
    else
      var block := ShownAt(state, count - 1);
      ShownBlocks(state, count - 1) + if block.Some? then [block.value] else []
  }

  /** The unfinished assistant message rebuilt from stream frames: none without frames, and it
      carries no identity. */
  function ReduceAssistantFrames(frames: seq<Frame>): (partial: Option<Message>)
    ensures partial.Some? <==> frames != []
    ensures partial.Some? ==> partial.value.id.None? && partial.value.AssistantMessage?
  {
    if frames == [] then None
    else
      var state := ReplayFrames(frames);
      Some(AssistantMessage(None, Rebuilt(ShownBlocks(state, |state.blocks|)), None))
  }

  /** The reducer forgets: arguments that do not parse, before and after one more piece, show alike. */
  lemma {:induction false} UnparsedArgumentsShowAlike(frames: seq<Frame>, index: nat, first: string, second: string)
    ensures
      var one := ToolCallArgs(index, first, None);
      var two := ToolCallArgs(index, second, None);
      ReduceAssistantFrames(frames + [one] + [two]) == ReduceAssistantFrames(frames + [one])
  {
    var one, two := ToolCallArgs(index, first, None), ToolCallArgs(index, second, None);
    var some := frames + [one];
    assert some[..|some| - 1] == frames && some[|some| - 1] == one;
    assert (some + [two])[..|some + [two]| - 1] == some && (some + [two])[|some + [two]| - 1] == two;
    var state := ReplayFrames(some);
    assert IsCall(BlockAt(state.blocks, index));
    assert state.streaming[index := None] == state.streaming;
  }
}
