# Chat turns, memories and sign-in, modelled and proved in Dafny

This project models the parts of the repository that hold one fact in several forms, and
proves that the forms agree.

**A chat turn.** The agent loop asks a model for an answer, runs the tools it calls and emits
packets. The server numbers the packets, folds them into a timeline, writes them as
server-sent events and stores one row. The phone cuts the byte stream into chunks, parses
it, reduces the events into its own timeline and, on `finish`, hands a pair of messages to its
history. A retry of the same message replays the stored row. The main results say that the
packets, the stored row, the replay and the reducer's turn carry the same text and the same
events, for every provider, every tool behaviour, every chunking and every interleaving of
requests. The pair that is handed over is taken from a ref that an effect sets after a render;
it is the stored reply if and only if that ref already showed the whole turn, and the results
say so for every schedule of renders and effects between the reads.

**Memories.** Rows and a remote index are kept together by operations whose remote calls can
fail before or after they took effect. The results are invariants over every run, and exact
conditions for what does not always hold.

**Lists and sign-in.** Cursor pages over tables that change between fetches, the cursor's
encoding, and the failure counter that guards credential checks.

| file | what it holds |
|---|---|
| `Prelude.dfy` | options, results, string operations of the two source languages |
| `Packets.dfy`, `Calendar.dfy`, `Locations.dfy` | packets and timeline events; dates; coordinates |
| `SseParser.dfy` | the incremental parser, and when chunking does not matter |
| `ChatStream.dfy` | step numbering, the timeline, the live turn and the replay |
| `TimelineLaws.dfy` | steps are 1..n and keep their kind; text is conserved |
| `ReplayLaws.dfy` | replays rebuild timelines; when a replay renumbers to itself |
| `ChatClient.dfy` | router, reducer, adapter, handlers; reads, renders and effects as a schedule |
| `Wire.dfy`, `ClientLaws.dfy` | frames survive chunking; the reducer follows the server |
| `CommitLaws.dfy`, `EndToEnd.dfy` | what `finish` commits, exactly; whole turns from server to client |
| `AgentRuntime.dfy`, `AgentLaws.dfy`, `ToolLaws.dfy` | the tool loop; packet grammar, transcript, reassembly; what tools get and answer |
| `AgentTurn.dfy` | one turn from the model to the phone |
| `ChatStore.dfy`, `IdempotentChat.dfy` | sessions and messages; concurrent requests for one message |
| `MessageLaws.dfy` | whose messages are whose, and where they are listed |
| `ResponsesEndToEnd.dfy` | from the protocol to the client, over every interleaving |
| `MemoryService.dfy`, `MemoryLaws.dfy`, `MemoryFields.dfy` | memories and their remote index; their fields |
| `Keyset.dfy`, `CursorCodec.dfy`, `Listings.dfy`, `ListingRows.dfy` | pages, cursors, and the three lists; which rows they show |
| `AuthThrottle.dfy`, `ThrottleLaws.dfy` | the failure counter of the sign-in endpoints; when it locks and forgets |

Code that changes state is a class or a method with a loop, proved equal to a function of
the old state; the laws are lemmas about those functions. `dafny verify dfyconfig.toml`
checks the whole project.

## Assumptions

- JSON printing and parsing are parameters. `Faithful` says that a packet survives the round
  trip and that its text has no raw CR or LF (section 7 of RFC 8259); `FaithfulJson` says the
  same of cursor objects, and `FaithfulStamps` that the timestamps in a list are read back as
  written.
- On the client, renders and effects happen between reads, any number of them in any order; no
  render and no effect happens inside the loop that handles the events of one read. An effect
  takes the state that was last rendered.
- The provider, the tools, the time-zone table and the text hash are arbitrary functions. A
  remote call to the memory index succeeds, fails untouched, or fails after it took effect.
- Ids are 128-bit and dates are calendar dates, as their column types say.
- Ids that the server draws are fresh; a commit that is not refused by a constraint succeeds.

## Where the code and its promises differ

- Chunk boundaries are said not to matter. They do not exactly for streams without CR CR LF
  (`ChunkInvarianceExactly`), and when no chunk is empty exactly for streams whose only
  CR CR LF is their very end (`RealChunkInvarianceExactly`); `EventsDependOnChunking` gives a
  family where an event changes.
- The handlers are said to read the freshest turn on `finish`
  (mobile/lib/chat/use-chat-stream.ts:56-58). They read it as of the last render whose effect
  ran, and no effect runs while the events of one read are handled. So a turn is committed
  whole if and only if that render came after everything it put on its timeline
  (`StoredTurnEndToEnd`); otherwise the pair is that of the shorter turn
  (`CommitsWhatWasShown`), and a turn that arrives in one read is always lost
  (`OneReadIsLost`, `OneDeltaIsLost`).
- A memory marked synced can have an old text in the index (`SyncedRowCanHaveOldText`);
  `IndexAgreement` says exactly when, over every run, and
  `UpdateAgreesExactly` and `SyncAgreesExactly` say it of one operation.
- A deleted memory can come back in the index: deletion is final exactly when the row carried
  a document id (`DeletionIsFinalExactly`, `SyncResurrects`).
- Deleting a memory whose add was reported as failed makes no remote call; its document stays
  if the add had landed (`DeletedDocumentIsGoneExactly`, `LeftDocumentStays`).
- The failure limit over one window holds exactly when the lock is at least as long as the
  window (`RateBoundExactly`).
- A session that is used while its list is being read can be missed (`UsedSessionIsMissed`);
  `SessionPages` says exactly when. A memory that is given an earlier date can be listed twice
  (`EditedMemoryIsListedTwice`); `MemoryPages` counts how often.
- A replay can be renumbered to itself exactly when its events alternate and its calls are
  distinct (`RenumberingReproducesExactly`). Tool ids default to the empty string, so the
  results that need distinct ids say so.

## Model

| member | source | states |
|---|---|---|
| SseParser.SplitSseBlocks | mobile/lib/api/sse-parser.ts:32-62 | the loop over one buffer returns the events of every complete block and the text after the last blank line |
| SseParser.ParseBlock | mobile/lib/api/sse-parser.ts:64-80 | the last `event: ` and the last `data: ` value of a block, the first one trimmed; nothing when either is missing |
| SseParser.StreamChat | mobile/lib/api/chat-stream.ts:82-104 | the read loop yields the events of threading the leftover through all chunks |
| SseParser.BlockSays | mobile/lib/api/sse-parser.ts:64-80 | a block is an event if and only if it has both lines; the last of each counts, the first trimmed |
| SseParser.ChunkInvariance | mobile/lib/api/sse-parser.ts:32-62 | any chunks of a text without CR CR LF give the blocks and the leftover of one call on the whole text |
| SseParser.ChunkInvarianceExactly | mobile/lib/api/sse-parser.ts:36-47 | all chunkings of a text agree if and only if it has no CR CR LF |
| SseParser.RealChunkInvarianceExactly | mobile/lib/api/sse-parser.ts:36-47 | all chunkings into non-empty chunks agree if and only if every CR CR LF is at the very end of the text |
| SseParser.CrCrLfBreaksChunking | mobile/lib/api/sse-parser.ts:48 | a text cut in two right after a CR CR LF loses a character |
| Wire.EventsDependOnChunking | mobile/lib/api/sse-parser.ts:48-80 | a family of streams where the data of the event differs between two chunkings |
| ChatStream.StepAssigner.StepFor | app/api/_chat_stream.py:81-100 | the fields and the step after one packet; `Assign` is the function whose laws follow |
| ChatStream.StreamState.Fold | app/api/_chat_stream.py:116-137 | the timeline after one packet |
| ChatStream.StreamState.EnsureToolRecord | app/api/_chat_stream.py:139-145 | the record at a step is kept if it is a tool's and made otherwise; no other step changes |
| ChatStream.StreamTurn | app/api/_chat_stream.py:218-281 | the packets on the wire and the stored row of a whole live turn, with and without a refused write |
| ChatStream.ReplayStream | app/api/_chat_stream.py:184-215 | the packets of a stored row, up to the first event of an unregistered tool |
| ReplayLaws.ReplayOne | app/api/_chat_stream.py:190-212 | folding the packets regenerated from one stored event writes that event at its step and nothing else |
| TimelineLaws.LinkedAlways | app/api/_chat_stream.py:81-145 | numbering and folding keep the joint invariant over every packet stream |
| TimelineLaws.StepsAreConsecutive | app/api/_chat_stream.py:81-100 | the allocated steps are exactly 1..n and are the keys of the timeline |
| TimelineLaws.StepsIdentifyBlocks | app/api/_chat_stream.py:81-100 | no step changes kind; two tool packets share a step if and only if they share a call id |
| TimelineLaws.TextConservation | app/api/_chat_stream.py:153-160 | the stored content is every text delta in arrival order, for every interleaving and reused ids |
| ReplayLaws.ReplayRebuildsExactly | app/api/_chat_stream.py:184-215 | folding the replay of a list gives the list back if and only if its steps ascend and unfinished calls carry no outcome |
| ReplayLaws.ReplayRefinesLive | app/api/_chat_stream.py:116-151 | folding the replay of what any turn stored rebuilds the live timeline |
| ReplayLaws.RenumberingReproducesExactly | app/api/_chat_stream.py:60-100 | a fresh assigner reproduces every step of a replay if and only if steps are 1..n, no two texts are neighbours and call ids are distinct |
| ReplayLaws.ContiguousTurnsRenumber | app/api/_chat_stream.py:60-100 | turns whose calls are contiguous store such lists |
| ClientLaws.RoutingRecoversMeaning | mobile/lib/api/packet-router.ts:40-87 | parsing and routing a framed packet gives the action that the packet means, tool name included |
| ClientLaws.SimulationStep | mobile/lib/chat/reducer.ts:97-165 | one reducer step mirrors one server fold |
| ClientLaws.ClientMirrorsServer | mobile/lib/chat/reducer.ts:82-170 | over every numbered stream and every schedule, the reducer's turn mirrors the server's timeline, and the last render and the ref mirror it as it was when they were taken |
| ClientLaws.EnvelopeReachesTheClient | mobile/lib/chat/reducer.ts:97-165 | over every schedule the turn in flight carries the id that `start` announced and the message of the last error |
| ClientLaws.AdaptedEventsAgree | mobile/lib/chat/adapter.ts:81-100 | the adapted, sorted events of a mirroring turn are the server's event list |
| ClientLaws.CommitAgrees | mobile/lib/chat/use-chat-stream.ts:153-174 | the pair built from a turn that shows a timeline holds that timeline's content and events |
| ClientLaws.FinishCommitsTheRef | mobile/lib/chat/use-chat-stream.ts:149-177 | over every stream and every schedule, `finish` hands over the timeline as the ref showed it, or no pair of this message when the ref is older than the turn |
| CommitLaws.DeliversExactly | mobile/lib/chat/use-chat-stream.ts:56-62 | the pair is the whole turn's if and only if what the ref showed was the whole timeline |
| CommitLaws.CompleteIsAllShown | mobile/lib/chat/use-chat-stream.ts:56-62 | where every content packet adds something, the ref showed everything if and only if no content was handled after its render |
| Wire.ChunkedStreamParses | mobile/lib/api/sse-parser.ts:32-80 | any chunking of framed packets with comments between them gives one event per packet and no leftover |
| EndToEnd.RegistryIsWellNamed | mobile/lib/api/packet-router.ts:82-87 | every registered tool name survives the trip through the packet type |
| EndToEnd.StoredTurnIsShown | mobile/lib/chat/reducer.ts:82-170 | under every schedule, at every moment between the last content and `finish`, the reducer's own turn shows exactly the stored row |
| EndToEnd.StoredTurnEndToEnd | app/api/_chat_stream.py:218-281 | after any chunking and schedule of a stored live turn the client has committed exactly the stored row if and only if its ref showed the whole timeline; it does when no content came after the ref's render, and when nothing is repeated only then |
| EndToEnd.CommitsWhatWasShown | mobile/lib/chat/use-chat-stream.ts:149-177 | otherwise it commits the row of the turn cut off at the ref's render, whose text is the deltas up to there |
| EndToEnd.FinishSeesEarlierReads | mobile/lib/api/chat-stream.ts:90-100 | `finish` sees what the ref showed before the read that brought it |
| EndToEnd.FinishBesideContentLoses | mobile/lib/api/chat-stream.ts:90-100 | so a turn that repeats nothing is never committed whole when `finish` shares a read with content |
| EndToEnd.OneReadIsLost | mobile/lib/chat/use-chat-stream.ts:149-177 | a stored turn that arrives in one read is never committed whole; an empty answer is, if the ref had reached the turn |
| EndToEnd.OneDeltaIsLost | mobile/lib/chat/use-chat-stream.ts:149-177 | the smallest input: `start`, one text delta and `finish` in one read commit an empty content and no events |
| EndToEnd.UnstoredTurnEndToEnd | app/api/_chat_stream.py:236-262 | after a turn that is not stored nothing is committed under any schedule, and the turn in flight shows the server's timeline and text |
| EndToEnd.ReplayEndToEnd | app/api/_chat_stream.py:16-20 | after any chunking and schedule of a replay the client has committed exactly the stored row if and only if no content was handled after the render that its ref shows |
| AgentRuntime.ToolCallAccumulator.FoldDeltas | app/agents/runtime.py:99-117 | the accumulator after a list of fragments |
| AgentRuntime.StreamOneTurn | app/agents/runtime.py:130-166 | the text packets and the turn result of one provider stream, or its exception |
| AgentRuntime.SurfaceToolError | app/agents/runtime.py:187-210 | the packets and the one tool message of a surfaced error |
| AgentRuntime.RunOneTool | app/agents/runtime.py:213-252 | packets, appended messages and exception of one call in every outcome |
| AgentRuntime.RunTools | app/agents/runtime.py:293-294 | the calls of a turn in order, stopped by the first that raises |
| AgentRuntime.RunAgentStream | app/agents/runtime.py:284-301 | packets, model requests and final transcript of a whole run |
| ToolLaws.RunsAreExplained | app/agents/runtime.py:284-301 | every run is at most ten rounds, each from the transcript that the one before left; a round goes on if and only if the last finish reason asks for tools, some are named and none raises; otherwise the run ends with what stopped it |
| ToolLaws.ArgumentsReachTheTool | app/agents/runtime.py:213-252 | in every round the k-th call is validated with exactly its fragments' arguments joined (`{}` when empty), run with what validation made of them, and answered on the wire and in the transcript with what came of it |
| ToolLaws.StreamSays | app/agents/runtime.py:130-166 | text packets, text, fragments and finish reason of a stream, said of its chunks in order |
| AgentLaws.ReassemblyIsPerIndex | app/agents/runtime.py:99-117 | each index holds the last non-empty id and name and its own argument fragments in order; calls are ordered by first appearance |
| AgentLaws.InterleavingDoesNotMatter | app/agents/runtime.py:149-166 | streams whose fragments agree per index reassemble the same calls, and in the same order when indexes first appear in the same order |
| AgentLaws.RunsAreGrammatical | app/agents/runtime.py:187-301 | every run emits text deltas and whole call blocks, and at most one error packet, as its last |
| AgentLaws.RunsAreBalanced | app/agents/runtime.py:213-301 | in every run each started tool is ended once, in the order of the starts, and no error packet comes before the last |
| AgentLaws.TranscriptsAreWellFormed | app/agents/runtime.py:284-301 | at every request the transcript is the base and whole rounds; requests extend each other, at most ten; the cap is hit if and only if ten rounds were answered |
| AgentLaws.StreamMatchesTranscript | app/agents/runtime.py:149-184 | the streamed text is the transcript's words and the text of a failing last answer; so they agree if and only if no such answer had sent text |
| AgentLaws.AgentTurnsRenumber | app/api/_chat_stream.py:60-100 | with distinct call ids, a fresh numbering of the replay of a run reproduces every step |
| AgentTurn.RunsComeFromAgent | app/agents/runtime.py:213-301 | every run emits only text, errors and packets of registered tools, which the chat protocol and the wire can carry |
| AgentTurn.RunsRepeatNothing | app/agents/runtime.py:213-301 | with distinct call ids no delta of a run is empty and no call says anything twice |
| AgentTurn.StoredWordsAreSpoken | app/api/_chat_stream.py:153-163 | the stored content is exactly what the run added to the model's transcript |
| AgentTurn.StoredExactly | app/api/_chat_stream.py:253-280 | a turn is stored and finished exactly if it sent content and no error and the database takes it |
| AgentTurn.ModelToPhone | app/api/_chat_stream.py:16-20 | for every provider, tool behaviour, comment placement, chunking and schedule, a stored turn leaves the client with the stored row if and only if its ref showed the whole timeline; with distinct call ids, if and only if no content came after the ref's render |
| AuthThrottle.ThrottleTable.GetLockExpiry | app/services/auth_throttle.py:15-25 | the lock of a key, if it is still running |
| AuthThrottle.ThrottleTable.RecordFailure | app/services/auth_throttle.py:28-66 | the row after a failure, and no other row changed |
| AuthThrottle.ThrottleTable.ClearFailures | app/services/auth_throttle.py:69-79 | the key's row is gone, the others stay |
| AuthThrottle.ThrottleTable.GuardedAttempt | app/api/auth.py:49-63 | lock check, credential check, then record or clear; other keys untouched |
| ThrottleLaws.AcceptedExactly | app/api/auth.py:49-63 | an attempt is accepted if and only if its credentials are right and it was not turned away |
| ThrottleLaws.SuccessForgets | app/services/auth_throttle.py:69-79 | after a success every later run leaves the same row and gets the same answers as on a key never used |
| ThrottleLaws.LocksExactly | app/services/auth_throttle.py:28-66 | a refused check locks, for the set time, if and only if it is the F-th (the first when F < 2) since the later of the last success and the start of its window |
| ThrottleLaws.TurnedAwayExactly | app/services/auth_throttle.py:15-25 | an attempt is turned away if and only if the lock of an earlier refused check still runs, with the whole seconds left, at least one |
| AuthThrottle.RateBound | app/services/auth_throttle.py:15-66 | at most 2F-2 refused checks in any half-open window without a success (one when F < 2) |
| AuthThrottle.RateBoundExactly | app/services/auth_throttle.py:28-66 | the bound holds for every run if and only if the lock is at least as long as the window |
| AuthThrottle.RateBoundIsReached | app/services/auth_throttle.py:28-66 | for all such settings some run has exactly that many |
| AuthThrottle.LockHolds | app/services/auth_throttle.py:15-25 | until a lock expires every attempt is refused unchecked and the row does not move |
| AuthThrottle.KeysAreDistinct | app/services/auth_throttle.py:11-12 | keys are equal if and only if action and address are |
| ChatStore.ChatDb.CreateSession | app/services/sessions.py:99-114 | the new session is visible to its user and counts as used now; nothing else changes |
| ChatStore.ChatDb.GetSession | app/services/sessions.py:117-127 | a session is found if it is the user's and not deleted |
| ChatStore.ChatDb.RecordUserMessage | app/services/sessions.py:258-312 | a bad pair of coordinates is refused before anything else; the first insert wins; title and activity change only with it |
| ChatStore.ChatDb.RecordAssistantMessage | app/services/sessions.py:315-355 | stored if and only if neither the key nor the one-reply index refuses it |
| ChatStore.ChatDb.FindAssistantForUserMessage | app/services/sessions.py:358-370 | a live reply if and only if there is one |
| ChatStore.ChatDb.DeleteSession | app/services/sessions.py:232-252 | the session and its messages are marked deleted, nothing else |
| MessageLaws.RowsComeFromRequests | app/services/sessions.py:258-355 | over every interleaving, each stored message is exactly what one request sent or its agent answered, in that request's session, under its user, at that time; nothing of it changes later |
| MessageLaws.RepliesBelong | app/services/sessions.py:315-355 | a stored reply lies in the session of a request for its message and belongs to its user |
| MessageLaws.UsersAreKeptApart | app/services/sessions.py:117-127 | no message is ever stored in another user's session |
| MessageLaws.LetInExactly | app/api/chat.py:58-71 | a request is let in if and only if its session is its user's and not deleted |
| MessageLaws.StoredRowsAreListed | app/services/sessions.py:174-229 | a stored message that is not deleted is listed exactly once by every finished walk over its request's session |
| MessageLaws.ResponsesAnnounceTheirSession | app/api/_chat_stream.py:184-230 | live turns and replays announce the session of their reply in `start` |
| MessageLaws.DeleteMarksExactly | app/services/sessions.py:232-252 | a delete marks exactly the session and its own messages, and only for its user |
| MessageLaws.LookupsFindLiveReplies | app/services/sessions.py:358-371 | a request replays a stored live reply to its message, and runs the agent if and only if there is none |
| MessageLaws.StoringStampsTheSession | app/services/sessions.py:300-312 | a stored message sets its session's last activity, and the title if there was none, to its first 60 characters |
| MessageLaws.SessionsStartAsAsked | app/services/sessions.py:99-114 | a new session has the user and title asked for and counts as used at its creation; nothing else changes |
| MessageLaws.TitlesAreTheFirstWords | app/services/sessions.py:300-312 | over every run a title stays, and an untitled session is named after the first user message stored in it and not before |
| MessageLaws.AnswersAreFinal | app/api/chat.py:58-101 | a request that was answered stays answered, with the same packets |
| IdempotentChat.Chat | app/api/chat.py:58-101 | one request run alone is its four protocol steps |
| IdempotentChat.RunTurn | app/api/_chat_stream.py:218-281 | a live turn of the endpoint is the protocol's completion step |
| IdempotentChat.StepKeepsInv | app/api/chat.py:58-101 | every step of every request keeps the protocol invariant and never takes a message back |
| IdempotentChat.InterleavingsAreSafe | app/models/message.py:96-101 | over every interleaving: first content stays, at most one live reply, `finish` only for a stored reply under the announced id |
| IdempotentChat.FirstContentStays | app/services/sessions.py:258-312 | a recorded message keeps its content through every later run |
| IdempotentChat.FinishesAgree | app/api/chat.py:72-101 | without session deletes all finishes for one message carry one id and show one timeline |
| IdempotentChat.LookupReplaysWhole | app/api/chat.py:77-85 | a lookup that finds a live reply answers with its whole replay under that reply's id |
| IdempotentChat.RetriesReplay | app/api/chat.py:72-85 | once a message has a live reply, every answered request for it is answered with a whole live reply and none starts the agent |
| IdempotentChat.NoSecondRun | app/api/chat.py:72-85 | the same without the agent, whatever tools the stored rows name |
| IdempotentChat.SessionsStay | app/services/sessions.py:232-252 | a session found by a request exists for the rest of every run |
| ResponsesEndToEnd.ResponsesReachTheClient | app/api/chat.py:58-101 | over every interleaving, any finished response, however cut, commented and rendered, leaves its client with exactly the stored reply to its message if and only if the client's ref showed the whole reply |
| ResponsesEndToEnd.RetriesCommitTheSame | app/api/_chat_stream.py:16-20 | without session deletes there is one pair that every client of a finished response to a message commits if and only if its ref showed the whole response; two clients commit the same pair if and only if their refs showed the same events |
| MemoryService.MemoryTable.SendToSupermemoryAdd | app/services/memory.py:120-154 | row, documents and call log after an add in each remote outcome |
| MemoryService.MemoryTable.SendToSupermemoryPatch | app/services/memory.py:157-182 | the same for a patch, with and without the text |
| MemoryService.MemoryTable.CreateMemory | app/services/memory.py:258-338 | validation, idempotency id, text dedupe and insert, in that order |
| MemoryService.MemoryTable.UpdateMemory | app/services/memory.py:341-413 | every refusal leaves the store as it was; otherwise the patched row is sent |
| MemoryService.MemoryTable.DeleteMemory | app/services/memory.py:416-458 | soft delete, with a remote delete when there is a document id |
| MemoryService.MemoryTable.SyncMemory | app/services/memory.py:570-623 | the retry that the status asks for |
| MemoryFields.UpdateReadsBack | app/services/memory.py:371-413 | an accepted update writes every field that was given and no other, in that row alone, and reports the remote outcome |
| MemoryFields.MissingDocumentIsReported | app/services/memory_client.py:233-258 | an update or retry of a memory whose document is missing puts nothing in the index and reports the memory unsynced |
| MemoryFields.RunsAreLogged | app/services/memory.py:120-185 | over every run the index holds what the calls made so far leave of it: adds write, patches rewrite, deletes remove |
| MemoryFields.UpdateAnswersExactly | app/services/memory.py:354-403 | an update is not found, invalid, a duplicate or accepted exactly as its row, its values and the other live texts say |
| MemoryFields.UpdatesCompose | app/services/memory.py:384-395 | two accepted updates leave what one with the later values on top leaves, and that one is accepted |
| MemoryFields.UpdateIsShown | app/services/memory.py:92-117 | after an update whose remote call succeeds the document shows what was given |
| MemoryFields.IndexShowsFields | app/services/memory.py:92-117 | over every run the document of a live synced row shows date, zone, creation time, label and coordinates field by field |
| MemoryFields.CreateAnswersExactly | app/services/memory.py:258-338 | which creates are refused and how, which row answers the others, and that a new row holds what was asked for |
| MemoryFields.DeleteReadsBack | app/services/memory.py:416-458 | a delete changes only the deletion mark and what is known of the index |
| MemoryFields.SyncReadsBack | app/services/memory.py:570-623 | in every run a sync changes no field and reports the retry that the status asked for |
| MemoryFields.RunsKeepFieldsValid | app/services/_memory_helpers.py:37-55 | over every run each row is in a zone that exists, with coordinates both missing or both in range |
| MemoryLaws.RunSound | app/services/memory.py:258-623 | every run keeps the store invariant |
| MemoryLaws.IndexAgreement | app/services/memory.py:92-182 | a live synced row has a document with its metadata; the text agrees if and only if the last content that reached the index is the row's, and does unless a metadata-only update followed a failed text send |
| MemoryLaws.StoreInvariant | app/models/memory.py:102-129 | texts, hashes, coordinates, status and error of every row; live rows of a user differ in hash |
| MemoryLaws.InconsistentBranchIsDead | app/services/memory.py:600-612 | a pending delete always has a document id and is deleted |
| MemoryLaws.SyncedRowCanHaveOldText | app/services/memory.py:409 | the exception of the index agreement happens |
| MemoryLaws.UpdateAgreesExactly | app/services/memory.py:395-412 | an update that ends synced leaves the right text if and only if it sent it or it was right before |
| MemoryLaws.SyncAgreesExactly | app/services/memory.py:589-612 | a sync that ends synced repairs exactly the rows marked unsynced |
| MemoryLaws.EffectIsLocal | app/services/memory.py:258-623 | an operation writes one row and makes at most one call, about that row |
| MemoryLaws.BuriedRun | app/services/memory.py:430-457 | a deleted row that carried a document id gets only delete calls in every later run |
| MemoryLaws.DeletionIsFinalExactly | app/services/memory.py:430-457 | a deletion is final over all later runs if and only if the row carried a document id |
| MemoryLaws.SyncResurrects | app/services/memory.py:594-596 | otherwise one sync adds the deleted memory to the index |
| MemoryLaws.DeletedDocumentIsGoneExactly | app/services/memory.py:430-457 | over every run, a live row's document is gone after its delete if and only if it carried a document id and the remote delete took effect, or carried none and no add for it had landed |
| MemoryLaws.FailedAddIsLeftBehind | app/services/memory.py:120-154 | an add that failed after it took effect leaves a document that the delete does not touch |
| MemoryLaws.LeftDocumentStays | app/services/memory.py:594-596 | such a document stays unchanged through every later run that does not sync its row |
| MemoryLaws.CreateIsIdempotent | app/services/memory.py:275-320 | repeating a create returns the same row, changes nothing and calls nobody |
| Keyset.PageIsCut | app/services/sessions.py:174-229 | a page is in order and past its cursor, and every row it leaves out comes after it |
| Keyset.WalkUnderChange | app/services/sessions.py:174-229 | a completed walk over a changing table lists every row live throughout exactly once, none twice, in order |
| Keyset.FixedWalkIsTheList | app/services/sessions.py:130-171 | on a fixed table a walk ends and its pages are the sorted list |
| Keyset.PastShrinks | app/services/sessions.py:158-169 | each page that is not the last moves the cursor past a row |
| Listings.ListMemories | app/services/memory.py:201-252 | one call: the first matching rows past the cursor, from the latest date to the earliest and within a date from the largest id down, and a next cursor if and only if a row is left; a malformed cursor is an error |
| ListingRows.MemoriesListed | app/services/memory.py:218-252 | said of the rows: a page shows exactly live memories of the user within the dates, ends included, behind the cursor and in order; what it leaves out comes later and means a next page; 1 to 200 rows |
| Listings.ListSessions | app/services/sessions.py:130-171 | the same for the user's sessions by last activity |
| ListingRows.SessionsListed | app/services/sessions.py:130-171 | the same of the user's sessions that are not deleted |
| Listings.ListSessionMessages | app/services/sessions.py:174-229 | the same for a session's messages in both directions |
| ListingRows.MessagesListed | app/services/sessions.py:174-229 | the same of the session's messages that are not deleted |
| Listings.FollowIsWalk | app/services/sessions.py:174-229 | a client that hands cursor strings back walks as the keys do and gets no error |
| Listings.ListingUnderChange | app/services/sessions.py:174-229 | the walk's guarantees by row id, for any of the three lists |
| Listings.WalkCounts | app/services/sessions.py:174-229 | for every row, however it comes, goes and moves: the times a finished walk lists it and the times it left unread are the times it came to lie past the cursor |
| Listings.ListingOfFixedTable | app/services/sessions.py:130-171 | on a fixed table the pages of a client are the sorted list |
| Listings.MemoryPages | app/services/memory.py:201-252 | the memory list over a date range, while memories come, go and change: how often each is listed; one whose date stays is listed at most once, and exactly once when it was there throughout |
| ListingRows.MemoriesUnderChange | app/services/memory.py:201-252 | a memory that keeps its date is listed at most once, and exactly once if at every fetch it was live, the user's and within the dates |
| Listings.EditedMemoryIsListedTwice | app/services/memory.py:201-252 | a memory that was read and then given an earlier date is listed again |
| Listings.MessagePages | app/services/sessions.py:174-229 | the message list while chat turns and deletes interleave with the fetches |
| ListingRows.MessagesUnderChange | app/services/sessions.py:174-229 | a message that the first fetch sees in the session and that is not deleted at the last is listed exactly once |
| Listings.SessionPages | app/services/sessions.py:130-171 | the session list while sessions are created, used and deleted between the fetches: none listed twice; one visible throughout is listed if and only if no use carried it over the cursor |
| ListingRows.SessionsUnderChange | app/services/sessions.py:130-171 | a session that is the user's and not deleted at any fetch is listed exactly once unless a use carried it over the cursor |
| Listings.UsedSessionIsMissed | app/services/sessions.py:149-158 | a session visible throughout and used between two fetches is absent from a finished walk |
| Listings.StampCursorsAreHonest | app/services/sessions.py:62-89 | the session and message cursor decodes to the row it was made from |
| CursorCodec.CursorRoundTrip | app/services/_memory_helpers.py:58-98 | every date and id come back from their cursor |
| CursorCodec.CursorsAreTakenExactly | app/services/_memory_helpers.py:72-98 | another version is refused; of this one exactly the cursors whose date and id can be read are taken |
| CursorCodec.UrlsafeRoundTrip | app/services/_memory_helpers.py:68-77 | bytes survive encoding, stripping the padding, restoring it and decoding |
| CursorCodec.DecodeEncode64 | app/services/_memory_helpers.py:68-77 | bytes survive base64url (section 5 of RFC 4648) |
| CursorCodec.RepadRestores | app/services/_memory_helpers.py:76 | the length decides the padding that was stripped |
| CursorCodec.CursorsHaveNoPadding | app/services/_memory_helpers.py:68 | no cursor has a padding character left |
| CursorCodec.IsoRoundTrip | app/services/_memory_helpers.py:93 | every date survives its text |
| CursorCodec.UuidRoundTrip | app/services/_memory_helpers.py:94 | every id survives its hyphenated text |

## Left out

- Laziness of the Python generators: a turn's packets are a list, so a client that goes away in the middle of a stream is not modelled.
- Interleaving inside one agent run with other requests' writes: `IdempotentChat` interleaves whole database steps and runs each agent between two of them.
- Payloads whose fields do not fit their event name: the client's casts let them through, the model drops them.
- SessionPages: assumes that the clock which the writes of a run read does not go back.
- RetriesReplay: assumes that the stored rows name registered tools, as every row stored by the protocol does; for other rows `ReplayStream` says how the replay stops.
- RateBound: sequential attempts on one key; `record_failure` reads and then writes, so racing failures can be lost.
- Timestamps `external_synced_at`, `updated_at` and the time zone of messages: carried, never decided on.
- The id of a remote document is taken to be the custom id that was sent.
- Alternate spellings that the date and UUID parsers also accept, and section 9.2.6 of the WHATWG HTML standard beyond what the client implements.
- `stop`, a screen that goes away and a transport error: a client's read loop runs to the end of its stream.
- Commits of the client: `startedAt`, the time zone and the times of the two messages are not part of a committed pair, and neither is what the history does with it.
- Prompt text, history loading, memory search and its local fallback, hydration of hits, text previews and time-zone validation itself: queries and text without state.
- A request that is refused before the chat endpoint runs, HTTP status codes, and the other endpoints.
