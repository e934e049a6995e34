# Verification model of the agent core and its provider protocols

The repository keeps a conversation as an append-only journal whose entries point to their parents, serves any branch
of it through an incremental projection and a cache, and surrounds it with small protocols: a commit queue, extension
generations, a permit queue, a session tree, a streaming provider, token refresh and a model catalog. This project
models that code in Dafny and proves what it keeps.

What the source keeps in objects comes twice: a value with functions or a step relation for what happens, and a class
whose methods do it in place and are proved against them. The theorems are about the values, so they speak of every run.
Every lemma carries `{:induction false}`, recursive or not: no proof here rests on automatic induction.

| part | modules |
|---|---|
| conversation context | Entries, FrameReductions, Projections, ProjectionBuffers, JournalPaths, Journals, Conversations, JournalCommits |
| commits of a session | CommitTurns, SessionCommits, SessionRuns |
| what updates, admission, loadouts and raw history mean | ModelUpdates, Provenance, Replayability, ExplicitParents, BatchAcceptance, Transcripts, RawHistory, Readings |
| extension registrations | ExtensionMounts, ExtensionHosts, MountHistories |
| extension lifecycle | ExtensionOrder, ExtensionRunners, ExtensionLoaders, ExtensionOutcomes, ExtensionDisposal, ExtensionAborts |
| both together | ExtensionRegistrations |
| permit queue and worker reservation | Admissions, AdmissionQueues |
| session tree and branch switch | TreePaths, SessionTrees |
| streamed responses | EventStreams, FunctionCalls, CallAssemblers |
| token refresh | OAuthRefreshes, OAuthRefreshers, OAuthHistories |
| model catalog | ModelCatalogs |
| plain sequence facts | Sequences |

Asynchronous code is cut at its awaits: one method or one step of a state machine is what runs between two of them, and
steps interleave freely. Listeners of an abort signal, which run inside such a stretch, are the subject of
ExtensionAborts. Factories, writers, exchanges, callbacks, clocks, aborts and timeouts are inputs chosen by the
environment.

## Assumptions

- A message's id is its entry's id and an entry that only moves the head yields no message, after
  packages/agent-core/src/reducer/session-reducer.ts:304-360, whose message bodies are not modelled further.
- Frames are reduced block by block as in packages/agent-core/src/turn/assistant-frames.ts:156-268. The JSON parser's
  verdict on the arguments gathered so far travels with the frame that completes them.
- Schema and JSON validators are verdicts that travel with the value; comparison by JSON text is structural equality.
- A compaction summary's generated id is no entry's id (`Apart` and `IndexApart` say so where it is needed). Coherence
  of the cache does not need it.
- Lower-casing in the catalog and the JSON parser of call arguments are arbitrary functions.
- Event framing follows section 9.2 of the WHATWG HTML Living Standard for line ends LF and CR LF. Token refresh is the
  refresh grant of section 6 of RFC 6749.

## Where the code does not do what one would expect

Most are a lemma with a concrete input, beside the theorem that says exactly when the expectation holds.

- A model update can fail to continue the view it claims to continue: the reset rule looks at the previous head only,
  so a bookkeeping entry hides an earlier result that a later one sorts before (`ResetRuleMissesReordering`; exact
  condition in `UpdateContinuesExactly` and, for every pair of heads, `UpdateBringsUpToDate`).
- With an explicit parent an edit is checked against the current head's branch, not its own
  (`ExplicitParentsCanBreakReplay`; exact condition in `StagedBatchReplaysExactly`).
- A command name that starts with a slash makes a batch cutover throw after preflight (`SlashBreaksCutover`; exact
  condition in `CutoverCompletesExactly`).
- After the host was cleared, a dependency can be unloaded before its dependent, and dispose then refuses
  (`ClearedHostStrandsDependents`; exact condition in `DisposalRefusedExactly`, and `OnlyClearingStrands`).
- While a reload aborts its predecessor, or a clear aborts one generation after the other, abort listeners can see an
  active extension whose dependency is inactive (`ReloadShowsGap`,
  `ClearShowsGap`; exact conditions in `CommitMomentClosedExactly` and `ClearMomentsClosedExactly`).
- An empty batch brings the head back to where it was staged, also when another head was selected while the writer was
  awaited (`EmptyCommitTakesHeadBack`; for every batch `AppendBatch`).
- A branch switch whose summary id is taken reports the error after moving the leaf (`SummaryNamedLikeLeaf`; exact
  condition in `TakenSummaryNameMovesLeaf`).
- A model that is registered again and refused is no longer found under the aliases it had, until the next registration
  succeeds (`RefusedModelLosesAlias`; which aliases, in `RefusalLosesAliases`).
- Call arguments that are stated twice without having been streamed are emitted again behind the call's end
  (`RepeatedArgumentsReopen`; exact condition in `OnlyTheseReopen`).
- The documentation of findCommonAncestor says that a missing node throws; the code returns null, and so does the model.
- A compaction is refused whenever an assistant message is unfinished (`NoCompactionOverPartial`), so replay safety
  needs no condition on unfinished messages.

## Model

| member | source | states |
|---|---|---|
| JournalPaths.WalkFollowsChain | packages/agent-core/src/conversation-context.ts:163-177 | a walk from the end of a parent chain to its start yields exactly that chain, without running into the cycle check |
| JournalPaths.WalkYieldsChain | packages/agent-core/src/conversation-context.ts:163-177 | conversely, whatever a walk yields is a chain of parent pointers with distinct ids that ends at the head |
| JournalPaths.FailureIsIndependentOfGoal | packages/agent-core/src/conversation-context.ts:163-177 | a walk that throws for one ancestor throws the same error for the root |
| JournalPaths.PathsSplitAtAncestor | packages/agent-core/src/conversation-context.ts:163-177 | for any index and any reachable ancestor, root-to-head path = root-to-ancestor path ++ the entries after the ancestor, and an error is the same error |
| JournalPaths.RootedPathsAreStable | packages/agent-core/src/conversation-context.ts:163-177 | adding entries to the index changes no root-to-head path that existed |
| JournalPaths.PathOfExtension | packages/agent-core/src/conversation-context.ts:259-262 | the path of an adopted entry is its parent's path and itself |
| Projections.OrderedToolsPermutes | packages/agent-core/src/conversation-context.ts:334-339 | buffered tool results are sorted by source index and are a permutation of the buffer |
| RawHistory.SortIsStable | packages/agent-core/src/conversation-context.ts:334-339 | results with equal source index keep their journal order; with the row above this determines the sort |
| RawHistory.IndicesAscend | packages/agent-core/src/conversation-context.ts:334-339 | results come in the order of the indices they name, those that name none last |
| Projections.ProjectEditsDistributes | packages/agent-core/src/conversation-context.ts:463-469 | applying edits distributes over concatenation of timelines |
| Projections.FoldConcat | packages/agent-core/src/conversation-context.ts:319-324 | replaying a ++ b is replaying b on top of the replay of a, errors included |
| ProjectionBuffers.ProjectionBuffer.FlushTools | packages/agent-core/src/conversation-context.ts:341-349 | the in-place loop places every buffered result, in source order, into raw history, timeline and editable table, as the specification Flush says |
| ProjectionBuffers.ProjectionBuffer.ApplyEntry | packages/agent-core/src/conversation-context.ts:351-402 | one in-place step equals the specification step Apply in state and in error; head and count are left alone |
| ProjectionBuffers.ProjectionBuffer.Rewrite | packages/agent-core/src/conversation-context.ts:370-387 | a compaction rewrites timeline, usage and editable table; on the cut-point or the view error the flushed buffer is exactly as it was |
| Conversations.ConversationContext.constructor | packages/agent-core/src/conversation-context.ts:63-72 | a context built from a log is coherent, with the last entry as head |
| Conversations.ConversationContext.ClearCache | packages/agent-core/src/conversation-context.ts:81-84 | forgetting cached state keeps coherence |
| Conversations.ConversationContext.SelectHead | packages/agent-core/src/conversation-context.ts:179-183 | selecting keeps coherence and drops the cached context; an unknown head is reported and changes nothing |
| Conversations.ConversationContext.WalkBack | packages/agent-core/src/conversation-context.ts:163-177 | the loop over parent pointers computes the specification path, the cycle error or the missing-entry error |
| Conversations.ConversationContext.StartReading | packages/agent-core/src/conversation-context.ts:300-317 | the kept projection is reused exactly when it lies on the path of the current head; otherwise a rebuild is counted, and only once the path was found |
| Conversations.ConversationContext.ReadProjection | packages/agent-core/src/conversation-context.ts:300-331 | the incrementally extended projection equals a from-scratch replay of the path, for any head; exactly the entries beyond it are scanned; a failed replay at the current head drops both caches, while a missing path or a failure at another head leaves them as they were |
| Conversations.ConversationContext.Materialize | packages/agent-core/src/conversation-context.ts:283-298 | main refinement: from the cache or not, the context of any head equals the from-scratch fold of its root-to-head path, errors included |
| Readings.ContextSaysPath | packages/agent-core/src/conversation-context.ts:283-331 | what that fold shows, from the entries of the path alone: raw messages are the transcript and the unfinished message; messages shown are an explained timeline, the open run of tool results and the unfinished message, as the edits leave them; loadout and usage are the latest and the total |
| Readings.FramesAreOpen | packages/agent-core/src/conversation-context.ts:355-397 | the pending frames are exactly those since the last finished assistant message |
| Readings.FinishedShowsNothingUnfinished | packages/agent-core/src/conversation-context.ts:390-397 | behind a finished assistant message no frame is pending, and the raw history ends with that message |
| Readings.FinishedIsShownLast | packages/agent-core/src/conversation-context.ts:390-397 | it is also what is shown last, unless an edit of the path targets it |
| Readings.EditsSay | packages/agent-core/src/conversation-context.ts:365-369 | of every message the last operation anywhere on the path decides: excluded, replaced under its own identity, or as it was |
| Readings.KnownIsMentioned | packages/agent-core/src/conversation-context.ts:203-209 | what an edit may target is exactly what the path has yielded, each message under its identity, and the summaries of its compactions |
| Readings.TimelineIsExplained | packages/agent-core/src/conversation-context.ts:341-402 | the timeline holds messages and loadouts in journal order, each run of tool results sorted in front of the next barrier, and a compaction in place of what was shown |
| Readings.CompactionKeepsWhatItNames | packages/agent-core/src/conversation-context.ts:376-381 | a compaction leaves the instructions in order, then the summary, then the named messages that were shown, in the order of their names |
| FrameReductions.TextAccumulates | packages/agent-core/src/turn/assistant-frames.ts:212-217 | a text block shows the text it was started with and every fragment since, in order |
| FrameReductions.TextNeedsNoStart | packages/agent-core/src/turn/assistant-frames.ts:212-217 | without a start the fragments stand alone |
| FrameReductions.ThoughtAccumulates | packages/agent-core/src/turn/assistant-frames.ts:218-223 | likewise for a thought, which keeps its place |
| FrameReductions.ResetForgets | packages/agent-core/src/turn/assistant-frames.ts:208-211 | whatever came before a new attempt is forgotten |
| FrameReductions.ArgumentsShowAsParsed | packages/agent-core/src/turn/assistant-frames.ts:232-260 | an open call shows the arguments streamed so far if they parse, and none otherwise |
| FrameReductions.EndSaysCall | packages/agent-core/src/turn/assistant-frames.ts:237-244 | the end of a call says what is shown, whatever was streamed; without a call it does nothing |
| FrameReductions.MessageShowsBlocks | packages/agent-core/src/turn/assistant-frames.ts:262-267 | the unfinished message shows every block there is in the order of the indices, and no other |
| Entries.EntriesYieldTheirMessages | packages/agent-core/src/reducer/session-reducer.ts:304-360 | which entries yield a message, in which role, with which content and usage |
| Conversations.ConversationContext.GetModelUpdate | packages/agent-core/src/conversation-context.ts:102-132 | the update equals its specification over paths, reset rule and views |
| Conversations.ConversationContext.CheckEntry | packages/agent-core/src/conversation-context.ts:202-214 | what is checked of one staged entry equals the specification of admission |
| Conversations.ConversationContext.StageBatch | packages/agent-core/src/conversation-context.ts:185-222 | staging a batch equals the specification, entry by entry, including duplicate ids inside the batch |
| Conversations.ConversationContext.AdoptEntry | packages/agent-core/src/conversation-context.ts:258-260 | adopting one entry keeps cache and projection coherent |
| Conversations.ConversationContext.Adopt | packages/agent-core/src/conversation-context.ts:248-267 | the head becomes the one fixed when the batch was staged, and the cached context is dropped, exactly when the committed batch is the staged one; otherwise a prefix may stay adopted under the head there is |
| Journals.StagedAreNew | packages/agent-core/src/conversation-context.ts:189-217 | a staged batch has one entry per append, with ids that are new and distinct |
| BatchAcceptance.AdmittedExactly | packages/agent-core/src/conversation-context.ts:202-214 | a check at append passes if and only if the entry applies at the head; for a compaction, if and only if it is moreover placed there and nothing is unfinished |
| BatchAcceptance.AcceptedExactly | packages/agent-core/src/conversation-context.ts:185-222 | a batch is accepted if and only if its ids are new and different and every entry, behind its predecessor or where it is placed, applies at the head; it is then staged as asked for |
| BatchAcceptance.OneAcceptedExactly | packages/agent-core/src/conversation-context.ts:185-222 | a single append: if and only if its id is new and it applies to the projection at the head, nothing being unfinished in case of a compaction |
| BatchAcceptance.OnePromisedExactly | packages/agent-core/src/conversation-context.ts:185-268 | and then a commit that finds no fault succeeds, with a writer that stores what it is asked to |
| BatchAcceptance.PlainIsAccepted | packages/agent-core/src/conversation-context.ts:202-216 | messages, frames and bookkeeping with a new id are always accepted |
| BatchAcceptance.LoadoutAcceptedExactly | packages/agent-core/src/conversation-context.ts:422-441 | a loadout is accepted if and only if it has the version, and every tool a name that is not blank and its own, and a schema |
| BatchAcceptance.EditAcceptedExactly | packages/agent-core/src/conversation-context.ts:443-461 | an edit is accepted if and only if it has the version, is JSON and has operations, each excluding a known message or replacing it by a well-formed one of its role |
| BatchAcceptance.CompactionAcceptedExactly | packages/agent-core/src/conversation-context.ts:471-492 | a compaction is accepted if and only if it was made for this head with nothing unfinished, is JSON of the version, and keeps the last messages shown, not all, none of them twice, not beginning with a tool result, under a summary of its own name |
| BatchAcceptance.PromptIsAccepted | packages/agent-core/src/conversation-context.ts:202-202 | a loadout without tools is always accepted, whatever its prompt |
| BatchAcceptance.KnownCanBeExcluded | packages/agent-core/src/conversation-context.ts:203-209 | every message known at the head can be excluded |
| BatchAcceptance.TailCanBeKept | packages/agent-core/src/conversation-context.ts:210-214 | whatever is shown behind nothing unfinished can be compacted to its last messages |
| BatchAcceptance.RevisionIsLogLength | packages/agent-core/src/conversation-context.ts:193-193 | after a commit that keeps the numbers given at staging the revision is the length of the log |
| Journals.ContextsAreStable | packages/agent-core/src/conversation-context.ts:259-262 | adopting entries changes the context of no head that had one |
| Journals.AdoptionIndexes | packages/agent-core/src/conversation-context.ts:70-70 | indexing the grown log equals adopting the batch into the old index |
| ModelUpdates.OrderedToolsAppend | packages/agent-core/src/conversation-context.ts:334-339 | when nothing that joins sorts before what is buffered, sorting distributes over the join |
| ModelUpdates.OrderedPrefixMeansNoneLarger | packages/agent-core/src/conversation-context.ts:334-339 | and only then is the old sorted buffer a prefix of the new one |
| ModelUpdates.PrefixExactly | packages/agent-core/src/conversation-context.ts:102-132 | for one replay continuing another without edits, compactions or head entries, the old view is a prefix of the new one if and only if the guard Continues holds, for a frame reducer that is not injective |
| ModelUpdates.UpdateContinuesExactly | packages/agent-core/src/conversation-context.ts:102-132 | when the update is no reset, view(previous) ++ update = view(head) if and only if: without pending frames, no result joining the buffer sorts before a buffered one; with pending frames, nothing is placed, no result joins, and the frames that came reduce, behind the pending ones, to the same unfinished message |
| ModelUpdates.UpdateContinuesView | packages/agent-core/src/conversation-context.ts:112-123 | no frames pending and any buffered result being the previous head itself suffice |
| ModelUpdates.UpdateBringsUpToDate | packages/agent-core/src/conversation-context.ts:102-132 | for every pair of heads that replay: a caller who follows an update (replacing what it has on a reset, appending otherwise) has the view of the head if and only if the update was a reset or continues the view; the reported length is right either way |
| ModelUpdates.ResetExactly | packages/agent-core/src/conversation-context.ts:112-123 | an update is a reset if and only if the previous head is no ancestor, or an edit, a compaction or a moved head came since, or a tool result came since behind a head that is one |
| ModelUpdates.UpdateHandsOver | packages/agent-core/src/conversation-context.ts:124-131 | an update hands over everything on a reset, else exactly what is shown behind the length the caller has; the count reported is the length of what is shown |
| ModelUpdates.ResetRuleMissesReordering | packages/agent-core/src/conversation-context.ts:117-122 | concrete journal: a bookkeeping entry between two results of a turn hides the first from the reset rule, and the update does not continue the view |
| Entries.UnparsedArgumentsShowAlike | packages/agent-core/src/turn/assistant-frames.ts:217-249 | call arguments that do not parse yet are shown as an empty object, so a further fragment that does not complete them leaves the unfinished message as it was |
| Provenance.FoldIsSourced | packages/agent-core/src/conversation-context.ts:351-402 | every identity a replay holds as editable, edited or buffered is an entry of the path or a summary it introduced, and buffered results are not yet editable |
| Replayability.EditStillValid | packages/agent-core/src/conversation-context.ts:443-461 | an edit checked against one set of messages stays valid while those messages stay known with their roles |
| Replayability.NoCompactionOverPartial | packages/agent-core/src/conversation-context.ts:471-492 | while an assistant message is unfinished no compaction is ever admitted |
| Replayability.SummaryStep | packages/agent-core/src/conversation-context.ts:351-402 | no entry makes a known message unknown or changes its role |
| Replayability.BatchReplays | packages/agent-core/src/conversation-context.ts:185-222 | an admitted batch replays on top of the path it was admitted on |
| Replayability.AdmissionImpliesReplay | packages/agent-core/src/conversation-context.ts:185-222 | a default-placed batch that passes admission leaves a journal in which every branch still replays, although edits and compactions are checked against another view at append than at replay |
| Replayability.CommittedBatchReplays | packages/agent-core/src/conversation-context.ts:223-267 | the same for a batch that was staged, written and adopted |
| SessionRuns.PartOfBatchReplays | packages/agent-core/src/conversation-context.ts:248-267 | however much of a staged, default-placed batch was stored, or adopted before a mismatch, every branch still replays |
| SessionRuns.EverySessionReplays | packages/agent-core/src/conversation-context.ts:63-268 | from an empty log, after any default-placed commits in any interleaving, with any answers of the writer, selections and restarts: the head and every branch in memory replay, and every branch of the log as long as the writer stored only what it was asked to |
| Replayability.ExplicitParentsCanBreakReplay | packages/agent-core/src/conversation-context.ts:197-209 | concrete journal: with an explicit parent an edit is checked against the wrong branch and its own branch no longer replays |
| ExplicitParents.FitsExactly | packages/agent-core/src/conversation-context.ts:351-402 | an entry applies on top of a projection if and only if its loadout, edit or compaction is valid there |
| ExplicitParents.PathThroughParent | packages/agent-core/src/conversation-context.ts:163-177 | an adopted entry has a path if and only if its parent pointers reach the root, whether the parent is old, of the same batch, missing or the entry itself; it is then the parent's path and itself |
| ExplicitParents.AnchoredAvoidsItself | packages/agent-core/src/conversation-context.ts:163-177 | an entry whose parents reach the root is not its own ancestor |
| ExplicitParents.ReplaysExactly | packages/agent-core/src/conversation-context.ts:185-222 | an adopted entry replays if and only if it is anchored, its parent replays, and it fits on its parent's branch |
| ExplicitParents.BatchReplaysExactly | packages/agent-core/src/conversation-context.ts:185-267 | for new entries with any parents: every branch of the grown journal replays if and only if each of them is anchored and fits wherever its parent replays |
| ExplicitParents.StagedBatchReplaysExactly | packages/agent-core/src/conversation-context.ts:185-222 | for a batch that passed the checks at append, explicit parents or not: every branch replays if and only if each entry is anchored and each edit names messages known on its own branch |
| Transcripts.ToolsTelescope | packages/agent-core/src/conversation-context.ts:409-418 | removing what the difference removes and adding what it adds takes the previous tool table to the next one |
| Transcripts.DifferenceTelescopes | packages/agent-core/src/conversation-context.ts:404-420 | the written difference takes the meaning of the previous loadout to that of the next |
| Transcripts.OnlyChangesAreWritten | packages/agent-core/src/conversation-context.ts:404-420 | a loadout is written as what has changed and nothing else: the prompt if it differs, the tools that are new or declared differently, the names that are gone |
| Transcripts.CompactedKeepsDecoding | packages/agent-core/src/conversation-context.ts:376-381 | a compacted timeline decodes to the same sections and tools as the view it replaces |
| Transcripts.EditsKeepDecoding | packages/agent-core/src/conversation-context.ts:463-469 | edits never touch what loadout messages decode to |
| Transcripts.ViewDecodesToLatestLoadout | packages/ai/src/transcript.ts:16-32 | after any path of loadouts, messages, edits and compactions the projected view decodes to exactly the instructions and tool table of the latest loadout |
| Transcripts.ProjectedLoadoutIsLatest | packages/agent-core/src/conversation-context.ts:360-364 | the loadout a projection reports is the last one on the path |
| Transcripts.TableHoldsEveryTool | packages/agent-core/src/conversation-context.ts:422-441 | a valid loadout and its name table hold the same declarations |
| Transcripts.ResolvesToLatestLoadout | packages/ai/src/transcript.ts:5-43 | for the projected view of any path: the resolved sections and tools are the meaning of the latest loadout, and when nothing is resolved that loadout says nothing |
| Transcripts.ResolveModelTranscript | packages/ai/src/transcript.ts:5-43 | the loop leaves messages without recorded changes alone, and otherwise returns the non-system messages, the system texts in order, and the decoded sections and tools |
| Transcripts.ReplaySections | packages/ai/src/transcript.ts:23-26 | the inner loop sets and deletes sections as the specification does |
| Transcripts.ReplayTools | packages/ai/src/transcript.ts:27-28 | the inner loops remove, then add tools, as the specification does |
| RawHistory.RawHistoryIsTranscript | packages/agent-core/src/conversation-context.ts:283-298 | raw messages equal a reference transcript that reads no edit and no compaction, followed by the unfinished message only; usage equals the sum over assistant messages and summaries of the path |
| RawHistory.TranscriptConserves | packages/agent-core/src/conversation-context.ts:351-402 | the transcript holds exactly the messages of the path, and all but tool results stay in journal order |
| RawHistory.ReplayIsTranscript | packages/agent-core/src/conversation-context.ts:351-402 | buffer, raw history and usage of a replay, each against its reference |
| RawHistory.TotalsAddUp | packages/agent-core/src/conversation-context.ts:382-400 | each of the three totals is the sum over the assistant messages and compaction summaries of the path |
| JournalCommits.WriteEach | packages/agent-core/src/conversation-context.ts:231-247 | a writer without batches: it succeeds if and only if every call stores and returns its entry, with all of them in order; a rejection means that nothing was stored |
| JournalCommits.Persist | packages/agent-core/src/conversation-context.ts:223-268 | a staged batch is written and adopted under the head fixed at staging; a rejection leaves log, entries and head unchanged |
| JournalCommits.AppendBatch | packages/agent-core/src/conversation-context.ts:185-268 | whatever is read or selected while the writer is awaited: a committed batch is both in the log and in memory with the head at its end, and an empty one brings back the head it was staged at; a rejection leaves log and entries unchanged, and the head but for what others selected |
| JournalCommits.EmptyCommitTakesHeadBack | packages/agent-core/src/conversation-context.ts:262-262 | concrete journal: an empty commit during which another head is selected succeeds and takes the head back |
| JournalCommits.CommitQueue.Commit | packages/agent-core/src/journal-commit.ts:8-44 | while no fault is latched memory equals the durable log; an unknown outcome, and nothing else, latches the fault; with a latched fault the writer is never called again; a rejected batch leaves no trace; an accepted one is committed if the writer stores it, and is then durable; all of it for any reads and selections meanwhile |
| JournalCommits.CommitQueue.Latch | packages/agent-core/src/journal-commit.ts:31-38 | an error that does not state its certainty becomes unknown; unknown is latched |
| JournalCommits.CommitQueue.CommitEach | packages/agent-core/src/journal-commit.ts:24-37 | a journal that appends one entry at a time never reports a rejection after a first success |
| CommitTurns.CommitsTakeTurns | packages/agent-core/src/journal-commit.ts:19-42 | over every interleaving of any number of commits, writer calls, head selections and restarts: at most one commit writes at a time, commits settle and call the writer in the order they were called |
| CommitTurns.StepKeepsOrder | packages/agent-core/src/journal-commit.ts:19-42 | every event keeps one turn, which moves by at most one commit, and what is being written stays staged on what is in memory |
| CommitTurns.MemoryFollowsLog | packages/agent-core/src/journal-commit.ts:8-44 | in every such run memory equals the log whenever nobody writes and no outcome is unknown; while a commit writes, the log is memory and what that commit has stored |
| CommitTurns.FaultIsFinal | packages/agent-core/src/journal-commit.ts:21-35 | after an unknown outcome neither log nor memory changes and the writer is never called again, until a restart |
| SessionCommits.TakeTurn | packages/agent-core/src/journal-commit.ts:19-42 | one call of the commit queue, with its reads and selections meanwhile, is one turn of such a run: log, memory, head, fault and answer are those the run gives |
| SessionCommits.CommittedTurn | packages/agent-core/src/conversation-context.ts:248-267 | a turn whose writer commits what was staged ends with it in memory and in the log, and the head behind it |
| SessionCommits.RefusedTurn | packages/agent-core/src/journal-commit.ts:31-38 | a refused turn leaves everything but what others selected |
| JournalCommits.Reopen | packages/agent-core/src/conversation-context.ts:63-72 | while no fault is latched, a context rebuilt from the log has the same index, shows every head as the lost one did, and starts at the last entry |
| ExtensionMounts.DisposedExactly | packages/agent-core/src/extension-host.ts:396-404 | disposing mounts one after the other, whatever slashes their names carry, removes a name if and only if an owned name is unregistered as it that no earlier one has dropped |
| ExtensionMounts.UnslashedDrops | packages/agent-core/src/extension-host.ts:396-404 | a name without a slash is dropped whenever it is itself owned |
| ExtensionMounts.OnlyCommandsAreSlashed | packages/agent-core/src/extension-host.ts:165-169 | only command names lose a slash when they are unregistered, and only the first |
| ExtensionMounts.MountEachSucceeds | packages/agent-core/src/extension-host.ts:429-429 | disjoint stages over a registry without their names all mount, and each mount owns exactly its stage |
| ExtensionMounts.CutoverIsComplete | packages/agent-core/src/extension-host.ts:416-430 | every completed cutover: the registry is the old one without what the names of the previous mounts drop, plus the union of the stages; likewise the hooks; each new mount owns exactly its stage |
| ExtensionMounts.ReplacedOwnWhatStays | packages/agent-core/src/extension-host.ts:416-430 | after it the previous mounts own a name if and only if they did before and their names do not drop it, which is never a name without a slash |
| ExtensionMounts.CutoverCompletesExactly | packages/agent-core/src/extension-host.ts:416-430 | after preflight the cutover completes if and only if the names the previous mounts own, in their order, drop every registered staged name with a slash; without triple slashes, if and only if none is registered |
| ExtensionMounts.CutoverOfHoldersExactly | packages/agent-core/src/extension-host.ts:416-430 | when the previous mounts hold all they registered, the condition is one on their names and the staged names alone |
| ExtensionMounts.SlashBreaksCutover | packages/agent-core/src/extension-host.ts:165-169 | concrete host: a command registered as //x passes preflight, its disposal unregisters another owner's x, and the inner mount throws with the old mount gone |
| MountHistories.EveryRunIsFenced | packages/agent-core/src/extension-host.ts:344-406 | after any registrations, mounts, disposals, batches and clears: every registration has a token, tokens are issued once, and each mount's tokens are older than the next one |
| MountHistories.EveryNameHasOneOwner | packages/agent-core/src/extension-host.ts:394-395 | in every such run no name belongs to two mounts |
| MountHistories.LostIsLost | packages/agent-core/src/extension-host.ts:394-404 | a mount that does not own a name never comes to own it, whatever is called later |
| ExtensionHosts.ExtensionHost.Register | packages/agent-core/src/extension-host.ts:106-115 | registering replaces the name's definition and issues a token no one holds |
| ExtensionHosts.ExtensionHost.DisposeMount | packages/agent-core/src/extension-host.ts:396-404 | the loop over names unregisters exactly as the specification |
| ExtensionHosts.ExtensionHost.Mount | packages/agent-core/src/extension-host.ts:344-406 | accepted if and only if no staged name is registered by anybody but the mount to be replaced; a refusal names such a name and changes nothing, success equals the specification |
| ExtensionMounts.FirstForeignExactly | packages/agent-core/src/extension-host.ts:345-355 | the name reported is the first staged one in the way |
| ExtensionHosts.ExtensionHost.Check | packages/agent-core/src/extension-host.ts:418-427 | the preflight loop refuses exactly when two stages share a name or a name belongs to an owner outside the group |
| ExtensionHosts.ExtensionHost.MountBatch | packages/agent-core/src/extension-host.ts:416-430 | a failed preflight changes nothing; after a passed one the batch is replaced as a whole if and only if every registered staged name with a slash is dropped, and each new mount owns exactly its stage |
| ExtensionOrder.DependencySorter.Visit | packages/agent-core/src/extension-host.ts:600-622 | the recursive visit terminates on every graph, keeps visited names topologically ordered, and a failure names a real cycle, a missing module or an invalid one |
| ExtensionOrder.ValidateDependencies | packages/agent-core/src/extension-host.ts:596-625 | an order is returned if and only if all modules are well formed, all dependencies are present and no cycle exists; it has each module once, behind its dependencies |
| ExtensionOrder.OrderMeansAcyclic | packages/agent-core/src/extension-host.ts:596-625 | a topological order rules out cycles |
| ExtensionOrder.OrderMeansPresent | packages/agent-core/src/extension-host.ts:604-604 | a topological order has every dependency |
| ExtensionOrder.ReasonsAreReal | packages/agent-core/src/extension-host.ts:602-616 | each reported reason contradicts the conditions for success |
| ExtensionRunners.StepKeepsInvariant | packages/agent-core/src/extension-host.ts:452-545 | load, batch load, unload, dispose, what follows each await, and clearing the host at any await point keep bookkeeping and closure |
| ExtensionRunners.ActiveSetIsAlwaysClosed | packages/agent-core/src/extension-host.ts:571-573 | in every reachable state at an await point active extensions are closed under dependencies |
| ExtensionRunners.FinishOneKeeps | packages/agent-core/src/extension-generation.ts:180-213 | committing a generation, or failing to because it was disposed meanwhile, keeps the invariant |
| ExtensionRunners.MountedBatchKeeps | packages/agent-core/src/extension-host.ts:499-515 | the swap of a whole batch keeps bookkeeping and closure |
| ExtensionRunners.ClearKeeps | packages/agent-core/src/extension-host.ts:327-329 | clearing the host disposes every fenced generation, and closure survives |
| ExtensionRunners.RemoveLast | packages/agent-core/src/extension-host.ts:530-545 | disposing in reverse dependency order removes a module nothing active depends on |
| ExtensionRunners.ClearedHostStrandsDependents | packages/agent-core/src/extension-host.ts:519-534 | concrete run: after the host was cleared a dependency can be unloaded before its dependent, and dispose then refuses |
| ExtensionDisposal.AdoptedStaysSane | packages/agent-core/src/extension-host.ts:452-515 | putting checked modules over the active ones adds no cycle and no malformed module to what is loaded |
| ExtensionDisposal.StepStaysOrdered | packages/agent-core/src/extension-host.ts:452-545 | every step keeps what is loaded well formed and acyclic, and what is being loaded checked |
| ExtensionDisposal.DisposalRefusedExactly | packages/agent-core/src/extension-host.ts:530-534 | in every reachable state dispose is refused if and only if a loaded but inactive extension needs one that is not loaded any more |
| ExtensionDisposal.OnlyClearingStrands | packages/agent-core/src/extension-host.ts:530-534 | in every run without a clear everything loaded is active and dispose is never refused |
| ExtensionAborts.InvalidatedClosedExactly | packages/agent-core/src/extension-generation.ts:209-213 | generations aborted one by one, seen from before: what the abort listeners see is closed under dependencies if and only if the aborted ones include those of every dependent |
| ExtensionAborts.ClearMomentsClosedExactly | packages/agent-core/src/extension-host.ts:327-329 | while the host is cleared, in the order the generations were made, every listener sees a closed set if and only if no active extension needs an older generation than its own |
| ExtensionAborts.ClearIsStepwise | packages/agent-core/src/extension-host.ts:327-329 | clearing the host is such a sequence over everything it fences |
| ExtensionAborts.CommitMomentClosedExactly | packages/agent-core/src/extension-generation.ts:180-185 | when a reload aborts its predecessor, the new generation is active but not yet bound: what the listeners see is closed if and only if no other active extension needs the reloaded one |
| ExtensionAborts.BatchMomentsAreClosed | packages/agent-core/src/extension-host.ts:504-510 | a batch adopts every new generation before it aborts an old one: at each abort the set is closed and every module of the batch is in place |
| ExtensionAborts.ClearShowsGap | packages/agent-core/src/extension-host.ts:327-329 | concrete run: two extensions, the second needing the first; the listeners of the first abort of a clear see the second active alone |
| ExtensionAborts.ReloadShowsGap | packages/agent-core/src/extension-generation.ts:180-185 | concrete run: reloading the first of them, the listeners of its old generation see the second without an active dependency |
| ExtensionLoaders.ExtensionLoader.LoadExtension | packages/agent-core/src/extension-host.ts:452-470 | accepted if and only if the module fits among the live ones; a step of the state machine |
| ExtensionLoaders.ExtensionLoader.LoadAll | packages/agent-core/src/extension-host.ts:476-498 | accepted if and only if names are unique and the whole batch fits; prepared in dependency order |
| ExtensionLoaders.ExtensionLoader.Finish | packages/agent-core/src/extension-host.ts:499-515 | the loops adopt all, then abort all old, then clean up, or dispose all new, as the specification |
| ExtensionLoaders.ExtensionLoader.UnloadExtension | packages/agent-core/src/extension-host.ts:519-528 | refused if and only if an active extension depends on it |
| ExtensionLoaders.ExtensionLoader.DisposeExtensions | packages/agent-core/src/extension-host.ts:530-545 | refused if and only if the loaded modules cannot be ordered; else dependents first |
| ExtensionLoaders.ExtensionLoader.AfterFactory | packages/agent-core/src/extension-host.ts:452-515 | what follows a factory, returned or thrown, is a step of the state machine |
| ExtensionLoaders.FilteredIsPermutation | packages/agent-core/src/extension-host.ts:486-486 | the filtered order of everything holds each module of the batch once |
| ExtensionOutcomes.LoadGoesThrough | packages/agent-core/src/extension-host.ts:452-470 | a load that goes through: the name stands for the new generation, which is active, its predecessor is disposed, all others are as they were |
| ExtensionOutcomes.LoadComesToNothing | packages/agent-core/src/extension-host.ts:466-470 | a load that does not: the new generation is disposed and all else is as it was |
| ExtensionOutcomes.BatchGoesThrough | packages/agent-core/src/extension-host.ts:499-515 | a batch that goes through: every module of it is loaded under its name with its new generation active, and what it replaces is disposed |
| ExtensionOutcomes.BatchComesToNothing | packages/agent-core/src/extension-host.ts:511-514 | a batch that does not: its clean-ups dispose every generation of it, last first, and leave all else as it was |
| ExtensionOutcomes.CleaningUpGoesInOrder | packages/agent-core/src/extension-host.ts:511-515 | generations are cleaned up one after the other: while one is waited for, those behind it are not disposed yet |
| ExtensionOutcomes.CleaningUpEnds | packages/agent-core/src/extension-host.ts:511-515 | waiting as often as there are generations disposes them all, and nothing else, and ends the operation |
| ExtensionOutcomes.AcceptedDisposeRemovesAll | packages/agent-core/src/extension-host.ts:530-545 | a dispose that is accepted ends with nothing loaded, having removed each extension before those it needs |
| ExtensionRegistrations.RegistrationsFollowActivity | packages/agent-core/src/extension-host.ts:344-545 | runner and host together, in every reachable state: every registered name belongs to exactly one mount, that of an active generation, and an active generation owns all it registered; with nothing active nothing is registered |
| ExtensionRegistrations.RemountRefusedExactly | packages/agent-core/src/extension-host.ts:344-355 | in every reachable state, mounting in place of a generation is refused if and only if another active generation has registered one of the names |
| ExtensionRegistrations.MoveKeeps | packages/agent-core/src/extension-host.ts:344-545 | every step of runner and host keeps that, with the success of a mount decided by the host |
| ExtensionRegistrations.CutoverKeeps | packages/agent-core/src/extension-host.ts:417-430 | after preflight a batch without slashed names always goes through |
| ExtensionRegistrations.MovesAreSteps | packages/agent-core/src/extension-host.ts:452-545 | every such step is a step of the runner alone, or leaves it alone |
| Admissions.EnterKeepsFair | packages/agent-core/src/codemode-admission.ts:74-119 | an arrival, however it is answered, keeps every queue invariant |
| Admissions.ReleaseKeepsFair | packages/agent-core/src/codemode-admission.ts:135-154 | handing a slot on, or returning it, keeps every queue invariant |
| Admissions.CancelKeepsFair | packages/agent-core/src/codemode-admission.ts:156-167 | an abort or a timeout keeps every queue invariant |
| Admissions.RunKeepsFair | packages/agent-core/src/codemode-admission.ts:53-176 | so does every sequence of calls |
| Admissions.EveryRunIsBounded | packages/agent-core/src/codemode-admission.ts:53-176 | in every run: active slots equal the permits held and never exceed the capacity the queue was built with, a request waits only when all are out, the queue is bounded by the limit it was built with, total wait is at most count times maximum |
| Admissions.NobodyOvertakes | packages/agent-core/src/codemode-admission.ts:144-154 | of two requests that were not dropped, the earlier is granted first and is answered once |
| Admissions.ReleaseIsIdempotent | packages/agent-core/src/codemode-admission.ts:135-142 | a release function called again, after any further calls, changes nothing |
| Admissions.RecordKeepsMeasured | packages/agent-core/src/codemode-admission.ts:169-175 | the wait counters are count, sum and maximum of the waits, each at least zero whatever the clock reads |
| AdmissionQueues.AnswersMeanWhatTheySay | packages/agent-core/src/codemode-admission.ts:74-91 | a permit is new and held, a refusal leaves nothing, the queue is full exactly when every permit is out and every place taken |
| AdmissionQueues.CancelTakesOnlyWaiters | packages/agent-core/src/codemode-admission.ts:156-167 | a late abort changes nothing; otherwise it takes out exactly that waiter and never a permit |
| AdmissionQueues.AdmissionQueue.Acquire | packages/agent-core/src/codemode-admission.ts:74-119 | the method changes state as the specification; a live request in time gets a permit if and only if one is left, a place if and only if none is but a place is, and a refusal otherwise; an aborted or late one is refused as such |
| AdmissionQueues.LiveRequestsAreServed | packages/agent-core/src/codemode-admission.ts:74-119 | the same of the specification: whoever is live and in time is served, queued, or told that all is taken |
| Admissions.CountersSayCalls | packages/agent-core/src/codemode-admission.ts:74-167 | in every run: cancelled counts what arrived aborted or was taken out as such, timed out what arrived late or was taken out as such |
| Admissions.ReleaseEndsWait | packages/agent-core/src/codemode-admission.ts:144-154 | a slot that passes on records one wait, from the arrival of the first in line to now |
| Admissions.CancelEndsWait | packages/agent-core/src/codemode-admission.ts:156-167 | a waiter that is taken out records its own wait |
| AdmissionQueues.AdmissionQueue.PassSlot | packages/agent-core/src/codemode-admission.ts:144-154 | active slots fall only when nobody waits |
| AdmissionQueues.AdmissionQueue.ReleasePermit | packages/agent-core/src/codemode-admission.ts:135-142 | releasing is guarded by the permit's own flag |
| AdmissionQueues.AdmissionQueue.CancelWaiter | packages/agent-core/src/codemode-admission.ts:156-167 | the method takes the waiter out as the specification |
| AdmissionQueues.AdmissionQueue.RecordWaitOf | packages/agent-core/src/codemode-admission.ts:169-175 | count, total and maximum are updated as the specification |
| AdmissionQueues.LeaseNeverLeaks | packages/agent-core/src/codemode-admission.ts:191-213 | over every run of a reservation: handed over at most once; once finished, either handed over or given back, never both or neither, and final |
| AdmissionQueues.WorkerReservation.AcquireWorker | packages/agent-core/src/codemode-admission.ts:196-206 | granted if and only if the reservation is neither finished nor transferred, the execution live and the deadline ahead; otherwise the first reason is given, in that order; a success transfers |
| AdmissionQueues.WorkerReservation.ReleaseIfUntransferred | packages/agent-core/src/codemode-admission.ts:207-211 | an untransferred permit goes back to the queue once |
| TreePaths.PathsAreUnique | packages/agent-core/src/tree.ts:203-212 | parent pointers determine each node's path |
| TreePaths.PrefixesArePaths | packages/agent-core/src/tree.ts:203-212 | every prefix of a path is the path of its last node |
| TreePaths.PathsAreDistinct | packages/agent-core/src/tree.ts:203-212 | no node is its own ancestor |
| TreePaths.LowestIsUnique | packages/agent-core/src/tree.ts:214-232 | at most one node is a lowest common ancestor |
| TreePaths.NoCommonMeansOtherTree | packages/agent-core/src/tree.ts:214-232 | two nodes have no common ancestor if and only if they hang below different roots |
| TreePaths.DivergedSplit | packages/agent-core/src/branch-summary.ts:53-81 | what a path has behind the fork is disjoint from the other path |
| TreePaths.HistorySplits | packages/agent-core/src/tree.ts:164-186 | history(ancestor) ++ what follows = history(head) |
| TreePaths.AddKeepsSound | packages/agent-core/src/tree.ts:44-78 | adding keeps paths, child lists and leaf consistent and changes no existing path |
| TreePaths.RevisionTellsChange | packages/agent-core/src/tree.ts:136-139 | over every run of changes the revision never falls, and an unchanged revision means an unchanged tree and leaf |
| TreePaths.SwitchIsAtomic | packages/agent-core/src/branch-summary.ts:211-229 | whatever ran meanwhile: on a conflict the tree is left as it is; otherwise exactly one node is added under the target, becomes the leaf, and no existing path changes |
| TreePaths.TakenSummaryNameMovesLeaf | packages/agent-core/src/branch-summary.ts:217-229 | the switch of an unchanged tree succeeds if and only if the summary's id is free; if it is taken the leaf has moved already |
| TreePaths.SummaryNamedLikeLeaf | packages/agent-core/src/branch-summary.ts:217-229 | concrete tree of two nodes: a summary named like the leaf is reported as existing, with the leaf moved |
| TreePaths.BoundariesSurvive | packages/agent-core/src/tree.ts:242-277 | a compaction boundary naming anything on the path up to its message, label or not, names something that is still there after cleaning, whatever follows the message |
| TreePaths.BoundaryMovesToNextKept | packages/agent-core/src/tree.ts:242-277 | exactly: a boundary that names a kept message stays; one that names a label moves to the next message that is kept |
| TreePaths.CleaningDropsOnlyLabels | packages/agent-core/src/tree.ts:242-277 | cleaning drops labels only and changes nothing but boundaries |
| SessionTrees.SessionTree.AddMessage | packages/agent-core/src/tree.ts:44-78 | added if and only if the id is new and the parent named, if any, exists; the new node continues the history of the leaf, or of that parent, with the message under its id; every other history stays |
| TreePaths.AddedContinuesHistory | packages/agent-core/src/tree.ts:44-78 | the same of the specification |
| TreePaths.RootStays | packages/agent-core/src/tree.ts:66-70 | the first message after a clear is the root, and stays it until the next |
| SessionTrees.SessionTree.SelectLeaf | packages/agent-core/src/tree.ts:87-96 | the revision grows exactly when the leaf changes |
| SessionTrees.SessionTree.Clear | packages/agent-core/src/tree.ts:283-288 | clearing keeps the revision growing |
| SessionTrees.SessionTree.GetPathToRoot | packages/agent-core/src/tree.ts:203-212 | the loop returns the reversed path |
| SessionTrees.SessionTree.GetHistory | packages/agent-core/src/tree.ts:145-162 | the loop returns the messages of the root-to-leaf path |
| SessionTrees.SessionTree.GetHistoryDelta | packages/agent-core/src/tree.ts:165-186 | with the previous head on the branch, its history ++ delta = history of the target; otherwise the full history |
| SessionTrees.SessionTree.FindCommonAncestor | packages/agent-core/src/tree.ts:218-232 | the answer is above both nodes and below every other common ancestor; none exactly when a node is missing or there is none |
| SessionTrees.SessionTree.CollectDivergingNodes | packages/agent-core/src/branch-summary.ts:53-81 | path(source) = path(fork) ++ diverged, and no diverged node is on the target's path |
| SessionTrees.SessionTree.GetCleanHistoryPath | packages/agent-core/src/tree.ts:242-277 | the loop computes the specified cleaning |
| SessionTrees.BeginSwitch | packages/agent-core/src/branch-summary.ts:195-212 | which error, immediate switch or summary request the first half gives; it changes nothing unless it switches at once, and the nodes to summarise are the source path behind the lowest common ancestor |
| SessionTrees.EndSwitch | packages/agent-core/src/branch-summary.ts:213-235 | the second half changes the tree as the specification |
| EventStreams.BoundaryStays | packages/ai/src/chatgpt-plan-provider.ts:706-709 | extending the buffer changes no match that was found and creates no earlier one |
| EventStreams.FoundIsLeftmost | packages/ai/src/chatgpt-plan-provider.ts:706-709 | the boundary found is the leftmost pair of line ends |
| EventStreams.FramesContinue | packages/ai/src/chatgpt-plan-provider.ts:301-306 | framing a first part, then its rest with a second part, frames the whole |
| EventStreams.ChunkingIsInvisible | packages/ai/src/chatgpt-plan-provider.ts:297-307 | for every way of cutting a text into chunks the events are those of the whole text |
| EventStreams.FramingConserves | packages/ai/src/chatgpt-plan-provider.ts:302-306 | the text is its events, a blank line behind each, and the rest |
| EventStreams.EventsAreWhole | packages/ai/src/chatgpt-plan-provider.ts:706-709 | no event and no rest contains a boundary |
| EventStreams.Drain | packages/ai/src/chatgpt-plan-provider.ts:301-306 | the inner loop hands over the complete events in order until one throws |
| EventStreams.ReadEvents | packages/ai/src/chatgpt-plan-provider.ts:297-309 | the read loop hands over the events of the whole text, and the rest unless blank, up to the first whose handling throws, however it was chunked |
| FunctionCalls.HandleIsSound | packages/ai/src/chatgpt-plan-provider.ts:182-226 | no event makes the assembler push out of order |
| FunctionCalls.CallsAreAssembled | packages/ai/src/chatgpt-plan-provider.ts:310-322 | for every event sequence each item is started at most once and ended at most once, and a stream that ends well has ended all it started |
| FunctionCalls.EndCarriesItsDeltas | packages/ai/src/chatgpt-plan-provider.ts:574-598 | the text parsed for an end is the concatenation of the deltas pushed for that item until then |
| FunctionCalls.RegisteredExactly | packages/ai/src/chatgpt-plan-provider.ts:541-566 | an item is registered if and only if it is complete and says the same of its call as was said before |
| FunctionCalls.EndedExactly | packages/ai/src/chatgpt-plan-provider.ts:574-598 | an open call is ended if and only if its final arguments continue what was streamed and are nothing or an object; what was missing comes first, then one end with all of them |
| FunctionCalls.EveryEndParses | packages/ai/src/chatgpt-plan-provider.ts:586-594 | over every stream no call ends with arguments that are not an object |
| FunctionCalls.FinishParses | packages/ai/src/chatgpt-plan-provider.ts:310-312 | nor do the calls ended with the stream |
| FunctionCalls.OnlyTheseReopen | packages/ai/src/chatgpt-plan-provider.ts:534-572 | any event, a completed response included, pushes a delta for an item that has ended if and only if it streams one or repeats arguments of which none was streamed |
| FunctionCalls.RepeatedArgumentsReopen | packages/ai/src/chatgpt-plan-provider.ts:567-570 | concrete stream: arguments stated twice come out a second time behind the end |
| CallAssemblers.CallAssembler.RegisterFunctionCall | packages/ai/src/chatgpt-plan-provider.ts:534-572 | the method registers as the specification |
| CallAssemblers.CallAssembler.FinalizeFunctionCall | packages/ai/src/chatgpt-plan-provider.ts:574-598 | final arguments must continue what was streamed; the end is pushed once |
| CallAssemblers.CallAssembler.RegisterOutput | packages/ai/src/chatgpt-plan-provider.ts:263-282 | the loop over the output of a completed response stops at the first failure |
| CallAssemblers.CallAssembler.HandleEvent | packages/ai/src/chatgpt-plan-provider.ts:182-287 | each event changes the table as the specification |
| CallAssemblers.CallAssembler.FinishOpen | packages/ai/src/chatgpt-plan-provider.ts:310-312 | on success nothing is left open |
| OAuthRefreshes.StepKeeps | packages/ai/src/oauth.ts:241-325 | every step between awaits keeps single flight and the bookkeeping of callbacks |
| OAuthRefreshes.OneExchangePerKey | packages/ai/src/oauth.ts:216-226 | over all interleavings a key has at most one operation that has not settled |
| OAuthRefreshes.NobodyJoinsTooLate | packages/ai/src/oauth.ts:222-231 | a refresh joins the unsettled operation of its key if there is one; the branch for settled operations is never taken |
| OAuthRefreshes.SettledMeansStored | packages/ai/src/oauth.ts:292-317 | after success every registered callback ran exactly once and ended; after failure none ran and all waiters are refused |
| OAuthRefreshes.RepliesAreSettled | packages/ai/src/oauth.ts:228-231 | a caller gets tokens only after its own callback stored them; with the operation settled nobody is left waiting |
| OAuthRefreshes.AbortStaysPrivate | packages/ai/src/oauth.ts:328-351 | an abort rejects a caller that is still waiting, does nothing to one that was answered, and changes nothing for the operation or any other caller |
| OAuthRefreshes.RepliesAreFinal | packages/ai/src/oauth.ts:328-351 | once a caller is answered no later event changes the answer |
| OAuthHistories.WaitersSayEvents | packages/ai/src/oauth.ts:292-320 | over every run: a callback counts as having stored if and only if it ended well, as refused if and only if it failed or its exchange did; the tokens are those the exchange succeeded with |
| OAuthHistories.CallersStandForAsks | packages/ai/src/oauth.ts:216-232 | the j-th caller waits for an operation of the key it asked for with the callback it gave, and is aborted if and only if its signal fired in time |
| OAuthHistories.RepliesSayEvents | packages/ai/src/oauth.ts:216-351 | a caller is rejected if and only if its signal fired in time, its exchange failed or its own callback did; it is granted tokens if and only if none of this, the exchange succeeded with them, its callback stored them and all is done |
| OAuthHistories.DrainSettles | packages/ai/src/oauth.ts:294-312 | a drain with nothing running and nothing pending settles well and frees the key |
| OAuthHistories.OneCallerIsTold | packages/ai/src/oauth.ts:216-351 | concrete run of one caller: granted if its callback stores the tokens, rejected if it fails |
| OAuthRefreshers.OAuthRefresher.RefreshToken | packages/ai/src/oauth.ts:216-232 | the method joins or creates, registers, begins, as the specification |
| OAuthRefreshers.OAuthRefresher.Drain | packages/ai/src/oauth.ts:294-312 | the head of the drain loop: call what is pending, or settle |
| OAuthRefreshers.OAuthRefresher.FailExchange | packages/ai/src/oauth.ts:313-320 | a failed exchange refuses all that wait and leaves the table |
| OAuthRefreshers.OAuthRefresher.SucceedExchange | packages/ai/src/oauth.ts:292-297 | tokens first, callbacks after |
| OAuthRefreshers.OAuthRefresher.ContinueDraining | packages/ai/src/oauth.ts:294-309 | callbacks that registered meanwhile come next |
| OAuthRefreshers.OAuthRefresher.AbortCaller | packages/ai/src/oauth.ts:328-351 | the listener rejects a caller that still waits and does nothing after the answer |
| ModelCatalogs.ClaimIsIndexed | packages/ai/src/catalog-v2.ts:305-311 | one claim more keeps the index exact, also for the third and later claimants |
| ModelCatalogs.IndexIsUnique | packages/ai/src/catalog-v2.ts:303-313 | the claims determine the index, so the order of registration does not matter |
| ModelCatalogs.RecordClaimsItsNames | packages/ai/src/catalog-v2.ts:365-369 | a registered model claims its canonical id, its id, what stands behind the first slash of that, its route id and every alias, trimmed and folded |
| ModelCatalogs.IdentityAndRoute | packages/ai/src/catalog-v2.ts:342-380 | which canonical id and which route id an entry gets |
| ModelCatalogs.WellFormedExactly | packages/ai/src/catalog-v2.ts:121-133 | an entry is well formed if and only if its metadata are valid and nothing it is named by is blank |
| ModelCatalogs.TrimExactly | packages/ai/src/catalog-v2.ts:432-435 | trimming takes away the white space at both ends, all of it, and nothing else |
| ModelCatalogs.ClearedSays | packages/ai/src/catalog-v2.ts:297-301 | the index without what only the model itself claims still tells who else claims each name |
| ModelCatalogs.ResolvesToOnlyClaimant | packages/ai/src/catalog-v2.ts:283-289 | a name that is no canonical id resolves to a model if and only if that model alone claims it |
| ModelCatalogs.ModelCatalog.RebuildAliases | packages/ai/src/catalog-v2.ts:303-313 | the rebuilt index says of every name who claims it: one, several, or nobody |
| ModelCatalogs.ModelCatalog.RegisterModel | packages/ai/src/catalog-v2.ts:121-148 | success leaves an exact index and the new record; from any index a well-formed entry is refused if and only if the index, without what the model alone has, gives a name it asks for to another or to several; reason and index left behind are those of the first such name |
| ModelCatalogs.VerdictOfClaims | packages/ai/src/catalog-v2.ts:135-145 | from an exact index that answer is the verdict of the claims there were |
| ModelCatalogs.RefusalLosesAliases | packages/ai/src/catalog-v2.ts:135-145 | a refused registration of a known model removes from the index every name it had alone and does not ask for again |
| ModelCatalogs.RefusedModelLosesAlias | packages/ai/src/catalog-v2.ts:135-145 | concrete index: a model registered again with an alias of another is refused and no longer found under the alias it had |
| ModelCatalogs.RefusedExactly | packages/ai/src/catalog-v2.ts:135-145 | that verdict: a well-formed entry is refused if and only if another model claims a name it asks for, with the owner named when it is the only claimant and as ambiguous when there are several |
| ModelCatalogs.ModelCatalog.UnregisterModel | packages/ai/src/catalog-v2.ts:150-157 | a removal leaves an exact index without that record |

## Left out

- Transcripts.ResolveModelTranscript: does not model the in-place rendering of updates, options.systemPrompt and options.tools, or the insertion order of the resulting maps, because sections and tools are maps here.
- JournalCommits.AppendBatch: reads and selections between the single writes of a batch are collected in one sequence, because no write touches the conversation.
- JournalCommits.CommitQueue.Commit: one commit whose turn has come; that it is a turn of a session, and what holds over all of them, is SessionCommits.TakeTurn and CommitTurns.
- SessionCommits.TakeTurn: after an unknown outcome the session and the context agree on the fault; how much was stored and adopted by then is not compared.
- ExtensionMounts.ReplacedOwnWhatStays: for mounts whose tokens are older than the next one, which MountHistories.EveryRunIsFenced proves of every run.
- TreePaths.BoundariesSurvive: assumes that the message with the boundary has an id of its own, which every node of a tree has unless an id generator returns nothing.
- registerAlias and the display names of the catalog.
- ExtensionRegistrations.RegistrationsFollowActivity: for runs in which no extension stages a command under a name that starts with two slashes, because such a name breaks the cutover (ExtensionMounts.SlashBreaksCutover), and in which nothing but extensions registers with the host.
- SessionTrees.BeginSwitch: the generation of the summary text and its token budget are not modelled; that the diverged nodes are empty reaches the second half as an absent summary.
- AdmissionQueues.AdmissionQueue.Acquire: a signal that aborts while the request is being queued is the next cancel step; argument checks of the queue's constructor are left out.
- FunctionCalls.CallsAreAssembled: text, reasoning and usage events only appear as unrelated events that may throw; whether output was seen is not modelled.
- OAuthRefreshes.StepKeeps: the order in which the callbacks of one batch are called is not modelled (a set); the response body is one opaque token value.
- Copies handed out by structuredClone: every value is immutable here, so aliasing of returned copies is not modelled.
- Timestamps, session ids and message bodies.
- A compaction whose payload is null, on which the source throws a type error; payloads here either carry a view or do not.
- commitCompaction and recordLoadout: they build an append and call the commit queue.
- Event listeners, transformers and hooks of an extension mount are one sequence of hooks; tool registration descriptors follow the tool.
- The Proxy surface of an extension generation and its guarded callbacks; what an active generation registers through it is a step of ExtensionRegistrations.
- getBranches, getAllNodes, metadata and creation times of tree nodes; addBranchMarker is an addition of a label.
- The session reducer's other event types, HTTP, cryptography, the browser flow of OAuth, provider request bodies, routing and pricing in the catalog, the command line, the sandbox and worker threads.
