/** What the unfinished message shows of the frames: the text since the last start, the arguments as
    far as they parse, and the call as it was declared in the end. */
module FrameReductions {
  import opened Sequences
  import opened Entries

  /** The block a frame is about. */
  function Touches(frame: Frame): Option<nat> {
    match frame
    case AttemptReset => None
    case TextStart(i, _) => Some(i)
    case TextDelta(i, _) => Some(i)
    case ThinkingStart(i, _, _) => Some(i)
    case ThinkingDelta(i, _) => Some(i)
    case ThinkingSignature(i, _) => Some(i)
    case ToolCallStart(i, _, _) => Some(i)
    case ToolCallArgs(i, _, _) => Some(i)
    case ToolCallEnd(i, _, _, _) => Some(i)
    case Malformed => None
  }

  lemma {:induction false} OneMoreFrame(frames: seq<Frame>, frame: Frame)
    ensures ReplayFrames(frames + [frame]) == ReplayFrame(ReplayFrames(frames), frame)
  {
    Snoc(frames, frame);
  }

  lemma {:induction false} PutLeavesOthers(blocks: seq<Option<Block>>, index: nat, block: Block, other: nat)
    requires other != index
    ensures BlockAt(PutBlock(blocks, index, block), other) == BlockAt(blocks, other)
  {
  }

  /** A frame changes the block it is about and no other; a new attempt starts from nothing. */
  lemma {:induction false} FrameLeavesOthers(state: Rebuilding, frame: Frame, other: nat)
    requires !frame.AttemptReset? && Touches(frame) != Some(other)
    ensures BlockAt(ReplayFrame(state, frame).blocks, other) == BlockAt(state.blocks, other)
    ensures (other in ReplayFrame(state, frame).streaming <==> other in state.streaming)
    ensures other in state.streaming ==> ReplayFrame(state, frame).streaming[other] == state.streaming[other]
  {
  }

  /** Whatever came before a new attempt is forgotten. */
  lemma {:induction false} ResetForgets(before: seq<Frame>, later: seq<Frame>)
    ensures ReplayFrames(before + [AttemptReset] + later) == ReplayFrames(later)
    decreases |later|
  {
    if later == [] {
      ConcatNothing(before + [AttemptReset]);
      OneMoreFrame(before, AttemptReset);
    } else {
      ResetForgets(before, later[..|later| - 1]);
      ConcatSnoc(before + [AttemptReset], later);
    }
  }

  // ---------- texts ----------

  /** The fragments for one text block, put together. */
  function TextOf(frames: seq<Frame>, index: nat): string {
    if frames == [] then ""
    else
      var last := frames[|frames| - 1];
      TextOf(frames[..|frames| - 1], index) + if last.TextDelta? && last.index == index then last.delta else ""
  }

  function ThoughtOf(frames: seq<Frame>, index: nat): string {
    if frames == [] then ""
    else
      var last := frames[|frames| - 1];
      ThoughtOf(frames[..|frames| - 1], index) + if last.ThinkingDelta? && last.index == index then last.delta else ""
  }

  predicate OnlyText(frames: seq<Frame>, index: nat) {
    forall k :: 0 <= k < |frames| ==>
      !frames[k].AttemptReset? && (Touches(frames[k]) == Some(index) ==> frames[k].TextDelta?)
  }

  predicate OnlyThoughts(frames: seq<Frame>, index: nat) {
    forall k :: 0 <= k < |frames| ==>
      !frames[k].AttemptReset? && (Touches(frames[k]) == Some(index) ==> frames[k].ThinkingDelta?)
  }

  /** A text block shows the text it was started with and every fragment since, in order. */
  lemma {:induction false} TextAccumulates(before: seq<Frame>, index: nat, text: string, later: seq<Frame>)
    requires OnlyText(later, index)
    ensures BlockAt(ReplayFrames(before + [TextStart(index, text)] + later).blocks, index) ==
            Some(TextBlock(text + TextOf(later, index)))
    decreases |later|
  {
    var start := before + [TextStart(index, text)];
    if later == [] {
      ConcatNothing(start);
      ConcatNothing(text);
      OneMoreFrame(before, TextStart(index, text));
    } else {
      var init, last := later[..|later| - 1], later[|later| - 1];
      assert OnlyText(init, index) by {
        forall k | 0 <= k < |init|
          ensures !init[k].AttemptReset? && (Touches(init[k]) == Some(index) ==> init[k].TextDelta?)
        {
          assert init[k] == later[k];
        }
      }
      TextAccumulates(before, index, text, init);
      ConcatSnoc(start, later);
      var state := ReplayFrames(start + init);
      assert !later[|later| - 1].AttemptReset?;
      if Touches(last) == Some(index) {
        ConcatAssociates(text, TextOf(init, index), last.delta);
      } else {
        FrameLeavesOthers(state, last, index);
        ConcatNothing(TextOf(init, index));
      }
    }
  }

  /** Without a start the fragments stand alone. */
  lemma {:induction false} TextNeedsNoStart(frames: seq<Frame>, index: nat)
    requires OnlyText(frames, index)
    ensures TextAt(ReplayFrames(frames).blocks, index) == TextOf(frames, index)
    ensures BlockAt(ReplayFrames(frames).blocks, index).Some? ==> BlockAt(ReplayFrames(frames).blocks, index).value.TextBlock?
  {
    if frames != [] {
      var init, last := frames[..|frames| - 1], frames[|frames| - 1];
      forall k | 0 <= k < |init|
        ensures !init[k].AttemptReset? && (Touches(init[k]) == Some(index) ==> init[k].TextDelta?)
      {
        assert init[k] == frames[k];
      }
      TextNeedsNoStart(init, index);
      assert !frames[|frames| - 1].AttemptReset?;
      if Touches(last) != Some(index) {
        FrameLeavesOthers(ReplayFrames(init), last, index);
        ConcatNothing(TextOf(init, index));
      }
    }
  }

  /** Likewise for a thought; its signature and place are kept. */
  lemma {:induction false} ThoughtAccumulates(before: seq<Frame>, index: nat, thinking: string, place: Option<int>, later: seq<Frame>)
    requires OnlyThoughts(later, index)
    ensures
      var block := BlockAt(ReplayFrames(before + [ThinkingStart(index, thinking, place)] + later).blocks, index);
      && block.Some? && block.value.ThinkingBlock? && block.value.thinking == thinking + ThoughtOf(later, index)
      && (place.Some? ==> block.value.providerIndex == place)
    decreases |later|
  {
    var start := before + [ThinkingStart(index, thinking, place)];
    if later == [] {
      ConcatNothing(start);
      ConcatNothing(thinking);
      OneMoreFrame(before, ThinkingStart(index, thinking, place));
    } else {
      var init, last := later[..|later| - 1], later[|later| - 1];
      assert OnlyThoughts(init, index) by {
        forall k | 0 <= k < |init|
          ensures !init[k].AttemptReset? && (Touches(init[k]) == Some(index) ==> init[k].ThinkingDelta?)
        {
          assert init[k] == later[k];
        }
      }
      ThoughtAccumulates(before, index, thinking, place, init);
      ConcatSnoc(start, later);
      assert !later[|later| - 1].AttemptReset?;
      if Touches(last) == Some(index) {
        ConcatAssociates(thinking, ThoughtOf(init, index), last.delta);
      } else {
        FrameLeavesOthers(ReplayFrames(start + init), last, index);
        ConcatNothing(ThoughtOf(init, index));
      }
    }
  }

  /** A signature is put on the thought it is for, whose text and place stay. */
  lemma {:induction false} SignatureStays(frames: seq<Frame>, index: nat, signature: string)
    ensures
      var before, after := ReplayFrames(frames), ReplayFrames(frames + [ThinkingSignature(index, signature)]);
      var block := BlockAt(after.blocks, index);
      && block.Some? && block.value.ThinkingBlock? && block.value.signature == Some(signature)
      && (match BlockAt(before.blocks, index)
          case Some(ThinkingBlock(thinking, place, _)) => block.value.thinking == thinking && block.value.providerIndex == place
          case _ => block.value.thinking == "")
  {
    OneMoreFrame(frames, ThinkingSignature(index, signature));
  }

  // ---------- calls ----------

  lemma {:induction false} ArgumentsReplay(state: Rebuilding, index: nat, callId: string, parsed: Option<string>)
    ensures
      var shown := ShownAt(ReplayFrame(state, ToolCallArgs(index, callId, parsed)), index);
      && shown.Some? && shown.value.ToolCallBlock?
      && shown.value.arguments == (if parsed.Some? then parsed.value else "{}")
      && (!IsCall(BlockAt(state.blocks, index)) ==> shown.value.callId == callId && shown.value.name == "unknown_tool")
  {
    CallIsThere(state.blocks, index, callId, "unknown_tool");
    var after := ReplayFrame(state, ToolCallArgs(index, callId, parsed));
    assert after.streaming[index] == parsed && IsCall(BlockAt(after.blocks, index));
  }

  /** A call that has begun shows the arguments streamed so far if they parse, and none if they do not. */
  lemma {:induction false} ArgumentsShowAsParsed(frames: seq<Frame>, index: nat, callId: string, parsed: Option<string>)
    ensures
      var shown := ShownAt(ReplayFrames(frames + [ToolCallArgs(index, callId, parsed)]), index);
      && shown.Some? && shown.value.ToolCallBlock?
      && shown.value.arguments == (if parsed.Some? then parsed.value else "{}")
      && (!IsCall(BlockAt(ReplayFrames(frames).blocks, index)) ==> shown.value.callId == callId && shown.value.name == "unknown_tool")
  {
    OneMoreFrame(frames, ToolCallArgs(index, callId, parsed));
    ArgumentsReplay(ReplayFrames(frames), index, callId, parsed);
  }

  lemma {:induction false} CallIsThere(blocks: seq<Option<Block>>, index: nat, callId: string, name: string)
    ensures
      var block := BlockAt(WithCall(blocks, index, callId, name), index);
      && IsCall(block)
      && (if IsCall(BlockAt(blocks, index)) then block == BlockAt(blocks, index) else block == Some(ToolCallBlock(callId, name, "{}")))
  {
  }

  /** A call that is started keeps the identity it was started with, whatever arguments follow. */
  lemma {:induction false} StartNamesCall(frames: seq<Frame>, index: nat, callId: string, name: string)
    requires !IsCall(BlockAt(ReplayFrames(frames).blocks, index))
    ensures
      var block := BlockAt(ReplayFrames(frames + [ToolCallStart(index, callId, name)]).blocks, index);
      block == Some(ToolCallBlock(callId, name, "{}"))
  {
    OneMoreFrame(frames, ToolCallStart(index, callId, name));
  }

  lemma {:induction false} StartedKeepsName(frames: seq<Frame>, index: nat, frame: Frame)
    requires IsCall(BlockAt(ReplayFrames(frames).blocks, index))
    requires frame.ToolCallStart? || frame.ToolCallArgs?
    ensures
      var before, after := BlockAt(ReplayFrames(frames).blocks, index), BlockAt(ReplayFrames(frames + [frame]).blocks, index);
      IsCall(after) && after.value.callId == before.value.callId && after.value.name == before.value.name
  {
    OneMoreFrame(frames, frame);
    if Touches(frame) != Some(index) { FrameLeavesOthers(ReplayFrames(frames), frame, index); }
  }

  /** The end of a call says what it was: that is shown, whatever was streamed. */
  lemma {:induction false} EndSaysCall(frames: seq<Frame>, index: nat, callId: string, name: string, arguments: string)
    ensures
      var state := ReplayFrames(frames + [ToolCallEnd(index, callId, name, arguments)]);
      if IsCall(BlockAt(ReplayFrames(frames).blocks, index))
      then ShownAt(state, index) == Some(ToolCallBlock(callId, name, arguments))
      else state == ReplayFrames(frames)
  {
    OneMoreFrame(frames, ToolCallEnd(index, callId, name, arguments));
  }

  // ---------- the message ----------

  /** How many blocks are shown before an index. */
  function Before(state: Rebuilding, index: nat): nat {
    if index == 0 then 0 else Before(state, index - 1) + if ShownAt(state, index - 1).Some? then 1 else 0
  }

  lemma {:induction false} ShownInOrder(state: Rebuilding, count: nat, index: nat)
    requires index < count
    ensures |ShownBlocks(state, count)| == Before(state, count)
    ensures ShownAt(state, index).Some? ==>
              Before(state, index) < |ShownBlocks(state, count)| &&
              ShownBlocks(state, count)[Before(state, index)] == ShownAt(state, index).value
  {
    AsManyShown(state, count);
    AsManyShown(state, count - 1);
    if index < count - 1 { ShownInOrder(state, count - 1, index); }
  }

  lemma {:induction false} AsManyShown(state: Rebuilding, count: nat)
    ensures |ShownBlocks(state, count)| == Before(state, count)
  {
    if count > 0 { AsManyShown(state, count - 1); }
  }

  /** The unfinished message shows every block there is, in the order of their indices, and no other;
      an index without a block takes no place. */
  lemma {:induction false} MessageShowsBlocks(frames: seq<Frame>, index: nat)
    requires frames != []
    ensures
      var state := ReplayFrames(frames);
      var content := ReduceAssistantFrames(frames).value.content;
      && content.Rebuilt? && |content.blocks| == Before(state, |state.blocks|)
      && (ShownAt(state, index).Some? ==>
            Before(state, index) < |content.blocks| && content.blocks[Before(state, index)] == ShownAt(state, index).value)
  {
    var state := ReplayFrames(frames);
    AsManyShown(state, |state.blocks|);
    if index < |state.blocks| { ShownInOrder(state, |state.blocks|, index); }
  }
}
