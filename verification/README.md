# Chau7: verified models of the remote link, the streams and the proxy

Chau7 is a terminal whose Mac can be followed and answered from a phone, and whose
API traffic passes through a local proxy. This project models the parts of it that
carry state and proves what they are for. Where a part works fast, in pieces or
concurrently, it is proved to agree with a simple form of itself.

* **Incremental text** (`Utf8`, `Utf8Reference`, `OutputStore`): UTF-8 decoded across
  arbitrary frame splits (section 4 of RFC 3629; section 3.9 of the Unicode Standard), and
  lazily trimmed. `Utf8Reference` says what the decoder is by scalar values alone. A Swift
  string is represented by its UTF-8 view.
* **The receive queue** (`InboundQueue`, `LeastShedding`, `SocketGenerations`,
  `SocketDelivery`): bounded, may shed frames but no more than it must, leaves no unnoticed
  hole, on one socket and over all that follow each other.
* **The remote link** (`RemoteLink`): socket generations, approval answers and key
  epochs as one state machine. `AnswersGiven` proves that what is queued is what the user
  answered, `ApprovalDelivery` how answers survive socket churn without being sent twice,
  `LinkStatus` that socket, session and key follow a small machine of their own,
  `KeyEpochs` that no key and sequence number is used twice, and `RemoteClient` holds the
  objects that move field by field as the state machine says and keep both. `PendingState`
  is the merge of frames and snapshots that supplies the cards, `AnswersShown` the two
  together, `SnapshotRace` how frames and snapshots race over whole runs, and
  `DeferredDecisions` the bounded ledger of answers given before their request is known.
* **The task lifecycle** (`TaskLifecycle`, `TaskTriggers`, `CandidateFates`, `TaskOrigins`,
  `FiledCalls`, `CallFiling`, `TaskManager`): what proposes a candidate, what becomes of it
  and of the calls filed under it, where each task comes from, one timer, and a database
  that must agree with memory.
* **The render engine** (`RenderEngine`, `RenderMutations`): the handoff from replay to
  live emulator, and the chain of mutations that a reset outdates.
* **The proxy's streams** (`StreamingRate`, `StreamingWindow`, `SseStream`,
  `ResponseMetadata`, `ReportedFields`): a pruned sliding window, event streams (section 9.2
  of the HTML Living Standard) cut anywhere, and cumulative accounting in which the last
  event that tells a field decides it.
* **Arithmetic and retention** (`WrapGeometry`, `Diagnostics`, `DiagnosticsFile`,
  `MockupBatch`): folding a grid and painting runs, the two-budget log with its
  incremental file, and the retry buffer.

In each module the state is a value, one function says what an event does to it, and
lemmas speak of every run. Beside them stand the classes the program is made of: their
methods update fields, and each contract equates the new state with that function of
the old one. `Wrappers` and `Sequences` hold an option type and facts about sequences.

What lies outside is an argument: whether a socket opens, a frame encrypts or a key
derives, the replay guard's verdict, the order a dictionary or map is read in, the time
of day, what the JSON of an event decodes to, whether an emulator starts. Identifiers
and nonces come from counters, which stand for generators that never repeat.

## What the proofs found

Each of these is a promise that the code keeps only under a condition. The lemmas named
give the exact condition and, where there is a failing input, that input.

* The text trim cuts at a byte, not at a character. When it has just run and cut behind
  the lead of a four-byte sequence, what is shown differs from the trim of the whole text
  (`OutputStore.LazyTrimmingIsInvisible`, `OutputStore.LazyTrimmingCanShow`). What is shown
  is within the cap, as the comment at RemoteTerminalOutputStore.swift:98 says, exactly
  when nothing is cut or the cut falls between two characters; otherwise it can be six
  bytes over (`OutputStore.TextStaysBounded`, `OutputStore.ShownTextCanExceedTheCap`).
* A snapshot over the replay cap is cut at a byte as well, unlike the trimmed replay, which
  is moved on to the start of a character
  (`RenderEngine.SnapshotReplayBeginsInsideExactlyWhen`,
  `RenderEngine.SnapshotReplayCanBeginInside`, `RenderEngine.TrimmedReplayBeginsAtCharacter`).
* A prompt list that arrives after a fetch began is to outrank the fetched one. The client
  merges the approvals first, which forgets when the fetch began, so the older list wins
  (`PendingState.PromptsOutrankedExactlyWhen`, `PendingState.NewerPromptsAreOverwritten`,
  `AnswersShown.SnapshotPromptsWinUnlessSimultaneous`).
* A manual start is not tracked as activity, so a call right after it can be taken for the
  end of an idle gap (`TaskTriggers.ContinuationIsQuietUnless`,
  `TaskTriggers.IdleGapAfterOneSecond`).
* A call filed under a candidate is recorded under it only once the response is complete. If
  the candidate was confirmed by then, the call stays without a task
  (`FiledCalls.FiledCallEndsWithCandidateExactlyWhen`, `FiledCalls.LateReportLosesItsTask`).
* The diagnostics log counts a loaded line and keeps it in one step, so the rewrite flag
  meant for a file that holds more is never set: a torn line, or entries over a cap, leave
  the cursor wrong (`DiagnosticsFile.LoadIsSoundExactlyWhen`,
  `DiagnosticsFile.LoadedLogIsSavedExactlyWhen`, `DiagnosticsFile.TornLineStays`,
  `DiagnosticsFile.FullFileIsNotLoadedSoundly`).
* Clearing that log removes the file at once but not the writes still queued
  (`DiagnosticsFile.ClearedLogIsSavedExactlyWhen`, `DiagnosticsFile.ClearedEntryComesBack`),
  and a flush that finds nothing new does not wait for them
  (`DiagnosticsFile.FlushWaitsExactlyWhen`, `DiagnosticsFile.FlushCanReturnEarly`).
* The sequence counter wraps at 2^64, so uniqueness holds exactly as long as a key draws
  fewer numbers (`KeyEpochs.FramesCollideOnlyByWrapping`, `KeyEpochs.LongEpochRepeatsANumber`).
* A Gemini event with usage replaces the whole record, so a reported counter is taken back
  exactly when such an event does not tell it (`ResponseMetadata.GeminiReportsAsLastUsage`,
  `ResponseMetadata.ReportIsTakenBackExactlyWhen`, `ResponseMetadata.GeminiReportCanRevert`).

Every output frame that the relay lets through fits the phone's receive budget, so none of
them strands a recovery (`InboundQueue.RelayedFramesAreServed`). With a budget smaller than a
frame one could (`InboundQueue.OnlyOversizeOutputStrandsRecovery`,
`InboundQueue.TinyBudgetStrandsRecovery`).

## Model

| member | source | states |
|---|---|---|
| `Utf8.PartialIsProperPrefix` | apps/chau7-ios/Chau7RemoteApp/RemoteTerminalOutputStore.swift:121-142 | bytes held back are a proper prefix of some well-formed sequence, at most three bytes long |
| `Utf8.HeldStartIsUnique` | apps/chau7-ios/Chau7RemoteApp/RemoteTerminalOutputStore.swift:108-143 | there is at most one place from which the end of the data is an incomplete but valid sequence |
| `Utf8.ExtentIsMaximal` | apps/chau7-ios/Chau7RemoteApp/RemoteTerminalOutputStore.swift:53-54 | a malformed run becomes one U+FFFD per maximal subpart: no longer prefix of the rest conforms |
| `Utf8.RepairIsWellFormed` | apps/chau7-ios/Chau7RemoteApp/RemoteTerminalOutputStore.swift:53-54 | the repairing decoder yields well-formed text from any bytes |
| `Utf8.RepairFixesExactlyWellFormed` | apps/chau7-ios/Chau7RemoteApp/RemoteTerminalOutputStore.swift:53-54 | decoding leaves bytes unchanged if and only if they are well-formed |
| `Utf8.RepairSplit` | apps/chau7-ios/Chau7RemoteApp/RemoteTerminalOutputStore.swift:47-62 | cutting a stream at the start of its held bytes, decoding both parts gives the decoding of the whole, whatever follows |
| `Utf8Reference.WellFormedIsEncoding` | apps/chau7-ios/Chau7RemoteApp/RemoteTerminalOutputStore.swift:53-54 | the byte table accepts exactly the encodings of scalar values as section 3 of RFC 3629 computes them |
| `Utf8Reference.ConformsIsBeginning` | apps/chau7-ios/Chau7RemoteApp/RemoteTerminalOutputStore.swift:121-142 | a sequence conforms if and only if some bytes complete it to the encoding of a scalar value |
| `Utf8Reference.SubpartCostsOneReplacement` | apps/chau7-ios/Chau7RemoteApp/RemoteTerminalOutputStore.swift:53-54 | a maximal subpart that is no character (the longest conforming prefix, or one byte) becomes one U+FFFD, however many bytes it has |
| `Utf8Reference.RepairDecodes` | apps/chau7-ios/Chau7RemoteApp/RemoteTerminalOutputStore.swift:53-54 | the decoder keeps the encoding of a scalar value and puts one U+FFFD for each maximal subpart, said by scalar values alone |
| `Utf8Reference.RepairIsTheDecoder` | apps/chau7-ios/Chau7RemoteApp/RemoteTerminalOutputStore.swift:53-54 | these rules leave one function on byte sequences, and it is this decoder |
| `Utf8Reference.CutEuroSign` | apps/chau7-ios/Chau7RemoteApp/RemoteTerminalOutputStore.swift:53-54 | a cut euro sign before a letter costs one U+FFFD |
| `OutputStore.ChunkContinuesDecoding` | apps/chau7-ios/Chau7RemoteApp/RemoteTerminalOutputStore.swift:47-62 | one append: held bytes and new chunk decode to what the longer stream adds, and the new held bytes are those of the longer stream |
| `OutputStore.DecodingIsSplitInvariant` | apps/chau7-ios/Chau7RemoteApp/RemoteTerminalOutputStore.swift:47-62 | for every byte stream and every split into frames: committed and pending text followed by the decoding of the held bytes is the decoding of the whole stream, trimmed as of the last cut if there was one, and the held bytes are at most three, a proper prefix of a well-formed sequence |
| `OutputStore.TrimOfText` | apps/chau7-ios/Chau7Core/Sources/Chau7Core/RemoteOutputBuffering.swift:19-22 | the trim of well-formed text is its exact byte tail unless the cut falls inside a sequence, and then which replacement characters it begins with |
| `OutputStore.TrimAgain` | apps/chau7-ios/Chau7Core/Sources/Chau7Core/RemoteOutputBuffering.swift:19-22 | exactly when trimming in between does not change a later trim |
| `OutputStore.LazyTrimmingIsInvisible` | apps/chau7-ios/Chau7RemoteApp/RemoteTerminalOutputStore.swift:71-106 | for every run, what is shown equals the trim of the whole decoded text since the last snapshot, if and only if the one exceptional cut (just trimmed, behind the lead of a four-byte sequence) is not in force |
| `OutputStore.LazyTrimmingCanShow` | apps/chau7-ios/Chau7RemoteApp/RemoteTerminalOutputStore.swift:89-92 | a concrete run in which the exception shows: an emoji across the cut |
| `OutputStore.SnapshotRestartsTheText` | apps/chau7-ios/Chau7RemoteApp/RemoteTerminalOutputStore.swift:64-69 | since the newest snapshot of a tab, over any run: its text is the decoding of the last 200 000 bytes of the snapshot, and its stream the bytes received since, at most 65 536 of each frame |
| `OutputStore.FlushCutsExactlyWhen` | apps/chau7-ios/Chau7RemoteApp/RemoteTerminalOutputStore.swift:83-94 | over every run, a flush moves the pending text behind the committed one and cuts if and only if that makes more than 232 768 bytes; then it keeps the decoding of the last 200 000 |
| `OutputStore.TextStaysBounded` | apps/chau7-ios/Chau7RemoteApp/RemoteTerminalOutputStore.swift:98-106 | over every run: committed text never exceeds cap plus slack; what is shown is well-formed and is within the cap if and only if nothing is cut or the cut falls between two characters, and otherwise exceeds it by at most six bytes |
| `OutputStore.TrimmedLength` | apps/chau7-ios/Chau7Core/Sources/Chau7Core/RemoteOutputBuffering.swift:19-22 | a trim is as long as the cap plus two bytes for each byte of the sequence it cuts |
| `OutputStore.ShownTextCanExceedTheCap` | apps/chau7-ios/Chau7RemoteApp/RemoteTerminalOutputStore.swift:98-106 | a run after which what is shown is six bytes over the cap |
| `OutputStore.IncompleteUTF8SuffixStart` | apps/chau7-ios/Chau7RemoteApp/RemoteTerminalOutputStore.swift:111-142 | the loop finds the start of the incomplete sequence at the end of the data, if there is one |
| `OutputStore.IsIncompleteSequence` | apps/chau7-ios/Chau7RemoteApp/RemoteTerminalOutputStore.swift:121-141 | the loop accepts exactly the proper prefixes of well-formed sequences |
| `OutputStore.RemoteTerminalOutputStore.Append` | apps/chau7-ios/Chau7RemoteApp/RemoteTerminalOutputStore.swift:47-62 | appends to one tab as the stream semantics says and leaves the other tabs alone |
| `OutputStore.RemoteTerminalOutputStore.ReplaceSnapshot` | apps/chau7-ios/Chau7RemoteApp/RemoteTerminalOutputStore.swift:64-69 | restarts one tab from the decoded, capped snapshot; the other tabs are untouched |
| `OutputStore.RemoteTerminalOutputStore.FlushPendingOutput` | apps/chau7-ios/Chau7RemoteApp/RemoteTerminalOutputStore.swift:71-96 | commits the pending text of the tabs asked for, trims past the slack, and returns exactly the tabs that had any |
| `OutputStore.RemoteTerminalOutputStore.RetainVisibleTabs` | apps/chau7-ios/Chau7RemoteApp/RemoteTerminalOutputStore.swift:41-45 | forgets exactly the tabs that are not visible |
| `OutputStore.RemoteTerminalOutputStore.Reset` | apps/chau7-ios/Chau7RemoteApp/RemoteTerminalOutputStore.swift:35-39 | forgets every tab |
| `OutputStore.RemoteTerminalOutputStore.VisibleOutput` | apps/chau7-ios/Chau7RemoteApp/RemoteTerminalOutputStore.swift:98-106 | shows the trim of committed and pending text |
| `InboundQueue.EnqueueSheds` | apps/chau7-ios/Chau7RemoteApp/RemoteTransport.swift:457-517 | kind by kind, what one frame does to the queue: control frames all stay, grids and output are lost only as counted |
| `InboundQueue.EnqueueInOrder` | apps/chau7-ios/Chau7RemoteApp/RemoteTransport.swift:457-517 | frames popped and queued stay in the order of receipt |
| `InboundQueue.EnqueueWithinBudget` | apps/chau7-ios/Chau7RemoteApp/RemoteTransport.swift:457-517 | after every enqueue the queue is within its budget unless only control frames are left |
| `InboundQueue.EnqueueKeepsOneGrid` | apps/chau7-ios/Chau7RemoteApp/RemoteTransport.swift:462-467 | at most one grid is queued |
| `InboundQueue.EnqueueGivesUpAllOrNothing` | apps/chau7-ios/Chau7RemoteApp/RemoteTransport.swift:489-516 | either every queued output is given up together and recovery is pending, or the queue holds all the output it held and the new one |
| `LeastShedding.ShedIsLeast` | apps/chau7-ios/Chau7RemoteApp/RemoteTransport.swift:481-516 | shedding removes the oldest, and the smallest number of them that meets the budget, or all there are |
| `LeastShedding.EnqueueIsLeast` | apps/chau7-ios/Chau7RemoteApp/RemoteTransport.swift:457-517 | one frame, in full: a new grid replaces every queued one; then the least number of grids goes; only if that is not enough is the queued output given up, and then the least number of the oldest goes; each is counted |
| `LeastShedding.NothingIsShedWhileItFits` | apps/chau7-ios/Chau7RemoteApp/RemoteTransport.swift:457-517 | while the frame fits it is appended and nothing is shed or given up |
| `LeastShedding.OutputIsGivenUpExactlyWhen` | apps/chau7-ios/Chau7RemoteApp/RemoteTransport.swift:489-496 | output is given up if and only if some is queued and the queue would not fit even without any grid |
| `InboundQueue.RunKeepsInvariant` | apps/chau7-ios/Chau7RemoteApp/RemoteTransport.swift:439-551 | over every run of one socket: byte count equals the sum of the queued sizes, the budget holds, popped and queued are an in-order subsequence with every control frame, and each missing frame is counted once |
| `InboundQueue.AppliedOutputHasNoGap` | apps/chau7-ios/Chau7RemoteApp/RemoteTransport.swift:457-550 | output handed over for application since a recovery signal is a gap-free prefix of the output received since then |
| `InboundQueue.RecoveryPendingMeansOutputLost` | apps/chau7-ios/Chau7RemoteApp/RemoteTransport.swift:489-542 | recovery is pending exactly when some output since the last signal neither was applied nor still will be, and then nothing is applied before the signal |
| `InboundQueue.OnlyOversizeOutputStrandsRecovery` | apps/chau7-ios/Chau7RemoteApp/RemoteTransport.swift:674-713 | a queue that is being served stays so, with exactly one exception: an output frame larger than the whole budget reaches an idle queue |
| `InboundQueue.FittingRunsAreServed` | apps/chau7-ios/Chau7RemoteApp/RemoteTransport.swift:695-713 | with output frames within the budget no message and no signal is ever stranded |
| `InboundQueue.RelayedFramesAreServed` | services/chau7-relay/src/session.ts:262 | with the phone's budget and no frame larger than the relay lets through, no message and no signal is ever stranded |
| `InboundQueue.TinyBudgetStrandsRecovery` | apps/chau7-ios/Chau7RemoteApp/RemoteTransport.swift:674-713 | a budget and a frame for which the signal is left waiting |
| `InboundQueue.DrainRaisesPendingSignal` | apps/chau7-ios/Chau7RemoteApp/RemoteTransport.swift:695-713 | an uninterrupted drain empties the queue in order, applies nothing given up, and raises a pending signal exactly once |
| `InboundQueue.RemoteInboundMessageQueue.RemoveGrids` | apps/chau7-ios/Chau7RemoteApp/RemoteTransport.swift:462-467 | a new grid removes every queued grid, each counted |
| `InboundQueue.RemoteInboundMessageQueue.ShedGrids` | apps/chau7-ios/Chau7RemoteApp/RemoteTransport.swift:481-486 | over budget, the oldest grids go, each counted |
| `InboundQueue.RemoteInboundMessageQueue.SuppressQueuedOutput` | apps/chau7-ios/Chau7RemoteApp/RemoteTransport.swift:491-496 | marks every queued output and nothing else, and sets the recovery flag |
| `InboundQueue.RemoteInboundMessageQueue.EvictSuppressedOutput` | apps/chau7-ios/Chau7RemoteApp/RemoteTransport.swift:512-516 | over budget, the oldest given-up outputs go, each counted |
| `InboundQueue.RemoteInboundMessageQueue.EnqueueFrame` | apps/chau7-ios/Chau7RemoteApp/RemoteTransport.swift:457-517 | the whole enqueue equals its one-shot form, with an exact byte count |
| `InboundQueue.RemoteInboundMessageQueue.PopFirst` | apps/chau7-ios/Chau7RemoteApp/RemoteTransport.swift:519-524 | takes the oldest message and its bytes, or nothing |
| `InboundQueue.RemoteInboundMessageQueue.TakeShedCounts` | apps/chau7-ios/Chau7RemoteApp/RemoteTransport.swift:527-536 | returns and clears the shed counts |
| `InboundQueue.RemoteInboundMessageQueue.TakeOutputRecoverySignalIfDrained` | apps/chau7-ios/Chau7RemoteApp/RemoteTransport.swift:538-542 | raises and clears the signal only on an empty queue |
| `InboundQueue.RemoteInboundMessageQueue.RemoveAll` | apps/chau7-ios/Chau7RemoteApp/RemoteTransport.swift:544-550 | the queue starts over |
| `SocketGenerations.RunKeepsInvariant` | apps/chau7-ios/Chau7RemoteApp/RemoteTransport.swift:598-713 | over every run of frames, drains and closings: the current drain is not cancelled, every other drain is of an older socket, and a cancelled drain that is still to begin precedes every frame of the new socket |
| `SocketGenerations.EveryGenerationIsItsOwnRun` | apps/chau7-ios/Chau7RemoteApp/RemoteTransport.swift:649-713 | however often the socket is closed and opened and however late old drains begin or resume: queue and drain are what the frames and turns of their own generation make of an empty queue, and the client handles one frame of it at a time |
| `SocketGenerations.NoGapOnAnySocket` | apps/chau7-ios/Chau7RemoteApp/RemoteTransport.swift:489-550 | so on every socket output is applied without a gap and everything received is accounted for |
| `SocketDelivery.EveryFrameIsDelivered` | apps/chau7-ios/Chau7RemoteApp/RemoteTransport.swift:598-677 | over every run in job order: the generation counts the closings, and the frames enqueued are, with those still waiting for the main actor, all that the open socket has received since, in order |
| `SocketDelivery.NothingIsStranded` | apps/chau7-ios/Chau7RemoteApp/RemoteTransport.swift:649-713 | with frames that fit the budget: whatever is queued, and a signal that is owed, has a drain that is with the client or about to begin |
| `SocketDelivery.CurrentDrainTakesItsTurn` | apps/chau7-ios/Chau7RemoteApp/RemoteTransport.swift:695-713 | when that drain begins or resumes it takes one turn of the queue |
| `SocketGenerations.ReceivePump.RunNextJob` | apps/chau7-ios/Chau7RemoteApp/RemoteTransport.swift:672-677 | the main actor's next job: a frame of this generation is enqueued and a drain scheduled if there is none, one of another generation is dropped, or a scheduled drain begins |
| `SocketGenerations.ReceivePump.RunDrain` | apps/chau7-ios/Chau7RemoteApp/RemoteTransport.swift:695-713 | from the head of the drain's loop: a frame for the client, or the end of the drain with its signal and a new drain if need be |
| `SocketGenerations.ReceivePump.ResumeDrain` | apps/chau7-ios/Chau7RemoteApp/RemoteTransport.swift:699-703 | a drain resumed under another generation leaves at once, any other goes on |
| `SocketGenerations.ReceivePump.CloseSocket` | apps/chau7-ios/Chau7RemoteApp/RemoteTransport.swift:598-607 | cancels the drain, empties the queue and starts the next generation |
| `ApprovalDelivery.RunDelivery` | apps/chau7-ios/Chau7RemoteApp/RemoteClient.swift:1799-1927 | in every reachable state: at most one outstanding approval send per request, of the current generation; in-flight requests are queued and have such a send; a card shown as sending has a send with that very answer; a busy card shows the queued answer |
| `ApprovalDelivery.TakeSelects` | apps/chau7-ios/Chau7RemoteApp/ApprovalCoordinator.swift:39-51 | takes exactly the queued answers that are shown and not in flight, each once, and forgets exactly those no longer shown |
| `ApprovalDelivery.SubmitKeepsCarriers` | apps/chau7-ios/Chau7RemoteApp/RemoteTransport.swift:615-645 | a send adds one outstanding completion of the current generation and disturbs no other |
| `ApprovalDelivery.SettledDelivery` | apps/chau7-ios/Chau7RemoteApp/RemoteClient.swift:1903-1909 | a completed send takes its own answer and card away and keeps all others matched with their sends |
| `ApprovalDelivery.RequeuedDelivery` | apps/chau7-ios/Chau7RemoteApp/RemoteClient.swift:1910-1924 | a failed send leaves its answer queued and its card saying so, and the replacement connection starts clean |
| `ApprovalDelivery.TeardownDelivery` | apps/chau7-ios/Chau7RemoteApp/RemoteClient.swift:572-580 | after any teardown nothing is outstanding, nothing is in flight, no card claims to be sending, and every answer is still queued |
| `ApprovalDelivery.AnswerLeavesQueueOnlyWhen` | apps/chau7-ios/Chau7RemoteApp/ApprovalCoordinator.swift:32-91 | an answer leaves the queue if and only if that same answer is reported sent in its own generation, a flush finds its request gone, the user gives the opposite answer, or the user's intent is discarded |
| `ApprovalDelivery.FlushSendsEveryAnswer` | apps/chau7-ios/Chau7RemoteApp/RemoteClient.swift:1876-1927 | with the session up and encryption working, a flush leaves no answer behind: each is outstanding with the queued value and its card says so |
| `AnswersGiven.IdleCardTakesTheAnswer` | apps/chau7-ios/Chau7RemoteApp/RemoteClient.swift:791-809 | whatever the link is doing: an answer to a request whose card is idle is the one that is queued, and the card shows that answer as waiting or being sent |
| `AnswersGiven.AnswerIsQueuedExactlyWhen` | apps/chau7-ios/Chau7RemoteApp/RemoteClient.swift:791-809 | an answer that is not queued becomes so if and only if the event is that answer, given on an idle card |
| `AnswersGiven.QueuedIsLastAnswer` | apps/chau7-ios/Chau7RemoteApp/RemoteClient.swift:791-809 | over every run: what is queued for a request is what the user last answered while its card was idle |
| `AnswersShown.NoAnswerIsSuperseded` | apps/chau7-ios/Chau7RemoteApp/RemoteClient.swift:2240-2307 | over every run of the client with its reconciler, whatever frames and snapshots race: the cards are the reconciler's list, every queued answer is on a card that shows it, no completion is superseded, and no flush finds a request gone |
| `AnswersShown.CompletedShown` | apps/chau7-ios/Chau7RemoteApp/RemoteClient.swift:1929-1934 | a reported send takes the answer and its card away together |
| `AnswersShown.StepKeys` | apps/chau7-ios/Chau7RemoteApp/RemoteClient.swift:1929-1934 | only a reported answer, or discarding the user's intent, takes a card away; no other event of the link does |
| `AnswersShown.SnapshotKeepsBusy` | apps/chau7-ios/Chau7RemoteApp/RemoteClient.swift:2241-2246 | a snapshot never takes away a card that is being answered |
| `PendingState.SnapshotKeepsExactly` | apps/chau7-ios/Chau7Core/Sources/Chau7Core/Remote/PendingStateReconciler.swift:145-180 | a request is pending after a snapshot if and only if the snapshot lists it and it was not resolved here within the retention, or it was pending and a frame delivered it since the fetch began or it is being answered |
| `PendingState.SnapshotOnce` | apps/chau7-ios/Chau7Core/Sources/Chau7Core/Remote/PendingStateReconciler.swift:149-180 | a merge lists each request once if the snapshot does |
| `PendingState.UpsertKeeps` | apps/chau7-ios/Chau7Core/Sources/Chau7Core/Remote/PendingStateReconciler.swift:78-88 | a frame adds its request or replaces it in its place, and the list still names each once |
| `PendingState.ResolutionRemoves` | apps/chau7-ios/Chau7Core/Sources/Chau7Core/Remote/PendingStateReconciler.swift:99-107 | a local resolution removes that request and no other |
| `PendingState.UpsertLists` | apps/chau7-ios/Chau7Core/Sources/Chau7Core/Remote/PendingStateReconciler.swift:78-88 | a request delivered again takes its old place with its new content, a new one goes last, all others stay as they are; the delivery is noted and a resolution forgotten |
| `PendingState.ResolutionLists` | apps/chau7-ios/Chau7Core/Sources/Chau7Core/Remote/PendingStateReconciler.swift:99-107 | a request resolved here goes, the others keep order and content; the resolution is noted and a delivery forgotten |
| `PendingState.SnapshotListsExactly` | apps/chau7-ios/Chau7Core/Sources/Chau7Core/Remote/PendingStateReconciler.swift:149-180 | which requests are pending after a snapshot, with their content and order: first the snapshot's version of what it brings, then the pending version of what it may not remove |
| `PendingState.NextIsAdmittedExactlyWhen` | apps/chau7-ios/Chau7Core/Sources/Chau7Core/Remote/PendingStateReconciler.swift:131-143 | after any run of snapshots the next is admitted if and only if it lacks coordinates, none before had any, it is of another epoch than the newest admitted one, or its version is higher |
| `SnapshotRace.SnapshotSettlesTheRace` | apps/chau7-ios/Chau7Core/Sources/Chau7Core/Remote/PendingStateReconciler.swift:145-180 | over every run on a forward clock, by the last thing heard of a request alone: a snapshot's request is pending unless its answer was reported sent less than two minutes ago, and one it does not bring stays if and only if a frame delivered it since the fetch began or it is being answered |
| `SnapshotRace.PromptsAreExactly` | apps/chau7-ios/Chau7RemoteApp/RemoteClient.swift:2218-2249 | over every run on a forward clock: the prompts are those of the newest frame or admitted snapshot |
| `PendingState.PromptsOutrankedExactlyWhen` | apps/chau7-ios/Chau7RemoteApp/RemoteClient.swift:2242-2249 | as the client merges a snapshot, a newer prompt list outranks the snapshot's if and only if it came no earlier than the moment the snapshot's prompts are applied, and when this differs from what lines 19-20 of the reconciler promise |
| `PendingState.NewerPromptsAreOverwritten` | apps/chau7-ios/Chau7Core/Sources/Chau7Core/Remote/PendingStateReconciler.swift:184-193 | a prompt list that arrives between fetch and answer is overwritten by the answer |
| `AnswersShown.SnapshotPromptsWinUnlessSimultaneous` | apps/chau7-ios/Chau7RemoteApp/RemoteClient.swift:2218-2249 | over every run on a clock that does not run backwards: an admitted snapshot replaces the prompts, also those that came by frame after its fetch began, unless they came at the very instant it is applied |
| `PendingState.PendingStateReconciler.ApplyWSApprovalUpsert` | apps/chau7-ios/Chau7Core/Sources/Chau7Core/Remote/PendingStateReconciler.swift:78-88 | records the delivery, forgets a local resolution, and adds or replaces the request |
| `PendingState.PendingStateReconciler.ApplyLocalApprovalResolution` | apps/chau7-ios/Chau7Core/Sources/Chau7Core/Remote/PendingStateReconciler.swift:99-107 | records the resolution and removes the request |
| `PendingState.PendingStateReconciler.AdmitSnapshot` | apps/chau7-ios/Chau7Core/Sources/Chau7Core/Remote/PendingStateReconciler.swift:131-143 | refuses exactly a snapshot of the last epoch whose version is not newer |
| `PendingState.PendingStateReconciler.ApplySnapshotApprovals` | apps/chau7-ios/Chau7Core/Sources/Chau7Core/Remote/PendingStateReconciler.swift:149-180 | the two loops of the merge, and the requests it removes |
| `PendingState.PendingStateReconciler.ApplySnapshotPromptList` | apps/chau7-ios/Chau7Core/Sources/Chau7Core/Remote/PendingStateReconciler.swift:184-193 | replaces the prompts unless a list is newer than the fetch |
| `DeferredDecisions.ChosenSplitsOrder` | apps/chau7-ios/Chau7RemoteApp/ApprovalCoordinator.swift:142-151 | what is taken and what is left are together every recorded decision |
| `DeferredDecisions.ChosenKeepsDistinct` | apps/chau7-ios/Chau7RemoteApp/ApprovalCoordinator.swift:142-151 | and each of the two lists a request once |
| `DeferredDecisions.DeferredDecisionLedger.constructor` | apps/chau7-ios/Chau7RemoteApp/ApprovalCoordinator.swift:113-119 | an empty ledger; a capacity below one counts as one |
| `DeferredDecisions.DeferredDecisionLedger.Record` | apps/chau7-ios/Chau7RemoteApp/ApprovalCoordinator.swift:129-138 | the newest decision wins; a request too many costs exactly the oldest one |
| `DeferredDecisions.DeferredDecisionLedger.TakeReady` | apps/chau7-ios/Chau7RemoteApp/ApprovalCoordinator.swift:142-151 | hands over the decisions whose requests are known, in the order of recording, and leaves the others as they were |
| `DeferredDecisions.DeferredDecisionLedger.Reset` | apps/chau7-ios/Chau7RemoteApp/ApprovalCoordinator.swift:153-156 | forgets every decision |
| `KeyEpochs.InvalidateClosed` | apps/chau7-ios/Chau7RemoteApp/RemoteSessionController.swift:142-151 | restarting the counter on a closed socket is safe even when the nonce stays |
| `KeyEpochs.OpenCleared` | apps/chau7-ios/Chau7RemoteApp/RemoteClient.swift:376-409 | a socket is opened only after the nonces are cleared |
| `KeyEpochs.RehandshakeFresh` | apps/chau7-ios/Chau7RemoteApp/RemoteSessionController.swift:159-165 | restarting the counter in place replaces the iOS nonce by a new one |
| `KeyEpochs.ProduceFresh` | apps/chau7-ios/Chau7RemoteApp/RemoteClient.swift:1782-1797 | a frame produced under the current key takes a number that key has not used within one turn of the counter |
| `KeyEpochs.RunFresh` | apps/chau7-ios/Chau7RemoteApp/RemoteSessionController.swift:87-165 | over every run and any verdicts: a key exists only on an open socket, belongs to the current iOS nonce, and each iOS nonce is used with one key whose numbers are drawn in order |
| `KeyEpochs.FramesCollideOnlyByWrapping` | apps/chau7-ios/Chau7RemoteApp/RemoteSessionController.swift:87-90 | two encrypted frames share nonces and number if and only if they are a multiple of 2^64 draws of one key apart |
| `KeyEpochs.FramesAreUnique` | apps/chau7-ios/Chau7RemoteApp/RemoteSessionController.swift:87-165 | no two encrypted frames share nonces and number while each key draws fewer than 2^64 numbers |
| `KeyEpochs.LongEpochRepeatsANumber` | apps/chau7-ios/Chau7RemoteApp/RemoteSessionController.swift:87-90 | a run in which the wrapped counter does repeat a number under one key |
| `LinkStatus.StatusIsExactly` | apps/chau7-ios/Chau7RemoteApp/RemoteClient.swift:346-1413 | after any event, whatever answers and frames are under way: socket, confirmation, scheduled reconnect, key and nonces are those of a small machine that reads the event and two bits about answers |
| `LinkStatus.RunIsCoherent` | apps/chau7-ios/Chau7RemoteApp/RemoteClient.swift:556-633 | over every run: a confirmed session has a key, a key needs an open socket and both nonces, and a reconnect is scheduled only while there is no socket |
| `LinkStatus.ConfirmedExactlyWhen` | apps/chau7-ios/Chau7RemoteApp/RemoteClient.swift:1232-1262 | over every run, a session becomes confirmed if and only if SESSION_READY arrives while there is a key |
| `LinkStatus.KeyIsTakenUpExactlyWhen` | apps/chau7-ios/Chau7RemoteApp/RemoteClient.swift:1328-1392 | over every run, exactly when a key is taken up, and of which nonces |
| `LinkStatus.FramesGoOut` | apps/chau7-ios/Chau7RemoteApp/RemoteClient.swift:1054-1076 | exactly which frames besides answers a handshake tick, a HELLO, an acceptance, a failed decryption and a plain send put on an open socket |
| `LinkStatus.ReadyGoesOut` | apps/chau7-ios/Chau7RemoteApp/RemoteClient.swift:1232-1262 | with no answer to flush, a session that is ready sends what precedes and what follows the answers |
| `RemoteClient.ApprovalCoordinator.TakeSendable` | apps/chau7-ios/Chau7RemoteApp/ApprovalCoordinator.swift:39-51 | walks the whole ledger, in an order of its own choosing, as the one-pass form does |
| `RemoteClient.ApprovalCoordinator.ResolveSend` | apps/chau7-ios/Chau7RemoteApp/ApprovalCoordinator.swift:54-64 | the three outcomes, and what each leaves in the ledger |
| `RemoteClient.ApprovalCoordinator.ResetInFlight` | apps/chau7-ios/Chau7RemoteApp/ApprovalCoordinator.swift:80-86 | returns exactly the queued answers that were in flight and clears the marks |
| `RemoteClient.RemoteClient.ReleaseInFlightApprovals` | apps/chau7-ios/Chau7RemoteApp/RemoteClient.swift:1862-1866 | cards of released answers go back to queued, all others stay |
| `RemoteClient.RemoteClient.Flush` | apps/chau7-ios/Chau7RemoteApp/RemoteClient.swift:1876-1927 | takes all sendable answers first and then sends each, or reconnects |
| `RemoteClient.TakeAppend` | apps/chau7-ios/Chau7RemoteApp/ApprovalCoordinator.swift:39-51 | reading the ledger one entry further adds what that entry alone gives: the loop and the one-pass form agree |
| `RemoteClient.StepKeepsValid` | apps/chau7-ios/Chau7RemoteApp/RemoteClient.swift:791-1926 | every event of the link keeps both: each answer on its way at most once, and every frame fresh |
| `RemoteClient.RemoteClient.UserResponds` | apps/chau7-ios/Chau7RemoteApp/RemoteClient.swift:791-809 | keeps the object valid: an answer is taken only for a card that is shown and not busy, then the ledger is flushed |
| `RemoteClient.RemoteClient.ApprovalsListed` | apps/chau7-ios/Chau7RemoteApp/RemoteClient.swift:2303-2307 | keeps the object valid: the list replaces the cards, keeping the states of those already shown |
| `RemoteClient.RemoteClient.SendSettles` | apps/chau7-ios/Chau7RemoteApp/RemoteClient.swift:1805-1826 | keeps the object valid: a completion of the current generation resolves, a failure first tears the link down |
| `RemoteClient.RemoteClient.UserConnects` | apps/chau7-ios/Chau7RemoteApp/RemoteClient.swift:346-420 | keeps the object valid: coalesces behind an open socket, otherwise disconnects first and opens if it can |
| `RemoteClient.RemoteClient.UserDisconnects` | apps/chau7-ios/Chau7RemoteApp/RemoteClient.swift:556-633 | keeps the object valid: the teardown, with or without discarding the user's intent |
| `RemoteClient.RemoteClient.SendFrame` | apps/chau7-ios/Chau7RemoteApp/RemoteClient.swift:1782-1797 | keeps the object valid: without a key nothing, on failed encryption a number is used up, otherwise one frame and one send |
| `RemoteClient.RemoteClient.SocketFails` | apps/chau7-ios/Chau7RemoteApp/RemoteClient.swift:960-1048 | keeps the object valid: tears down once, a second failure is coalesced while a reconnect is scheduled |
| `RemoteClient.RemoteClient.HelloArrives` | apps/chau7-ios/Chau7RemoteApp/RemoteClient.swift:1328-1342 | keeps the object valid: the verdict's reset or escalation, then the new Mac nonce and the key |
| `RemoteClient.RemoteClient.PairAcceptArrives` | apps/chau7-ios/Chau7RemoteApp/RemoteClient.swift:1361-1392 | keeps the object valid: the right identity lets the key be derived, a wrong one ends the handshake |
| `RemoteClient.RemoteClient.PairRejectArrives` | apps/chau7-ios/Chau7RemoteApp/RemoteClient.swift:1394-1413 | keeps the object valid: ends the handshake and any scheduled reconnect |
| `RemoteClient.RemoteClient.SessionReadyArrives` | apps/chau7-ios/Chau7RemoteApp/RemoteClient.swift:1232-1262 | keeps the object valid: confirms the session, flushes the answers once, and sends what precedes and follows them |
| `RemoteClient.RemoteClient.DecryptionFails` | apps/chau7-ios/Chau7RemoteApp/RemoteClient.swift:1156-1171 | keeps the object valid: the verdict's reset or escalation |
| `RemoteClient.RemoteClient.ReconnectTimerFires` | apps/chau7-ios/Chau7RemoteApp/RemoteClient.swift:1035-1048 | keeps the object valid: a scheduled reconnect restarts the connection once |
| `RemoteClient.RemoteClient.HandshakeRetryTimerFires` | apps/chau7-ios/Chau7RemoteApp/RemoteClient.swift:1054-1076 | keeps the object valid: HELLO is repeated only while the socket is open and unconfirmed |
| `RemoteClient.RemoteClient.HandshakeTimeoutTimerFires` | apps/chau7-ios/Chau7RemoteApp/RemoteClient.swift:1077-1105 | keeps the object valid: closes, drops the key and goes through the disconnect path |
| `TaskLifecycle.StepKeepsInvariant` | services/chau7-proxy/task.go:135-591 | every operation and every firing keeps memory, database, candidates and timer consistent |
| `TaskLifecycle.RunKeepsInvariant` | services/chau7-proxy/task.go:135-591 | so does every run |
| `TaskLifecycle.ActiveRowIsCurrentTask` | services/chau7-proxy/task.go:242-328 | in every reachable state the active rows of a tab are exactly its current task when that is active, hence at most one |
| `TaskLifecycle.CandidateBecomesOneTask` | services/chau7-proxy/task.go:281-328 | no candidate ever becomes two tasks, and one still pending has become none |
| `TaskLifecycle.TaskStatesAreFinal` | services/chau7-proxy/task.go:369-436 | completed and abandoned are never left; an active task is abandoned if and only if another takes its place, and completed if and only if it is assessed |
| `TaskLifecycle.EarliestExists` | services/chau7-proxy/task.go:525-529 | among pending candidates there is an earliest deadline |
| `TaskTriggers.RemembersTheLastCall` | services/chau7-proxy/task.go:161-164 | over every run, what the manager remembers of a tab is exactly the last call on it that did not start a task itself |
| `TaskTriggers.TriggerIsTheFirstReason` | services/chau7-proxy/task.go:181-209 | over every run, the trigger is the first of three reasons that the tab's last tracked call gives, and there is none if and only if none of them holds |
| `TaskTriggers.CandidateIsProposedExactlyWhen` | services/chau7-proxy/task.go:135-178 | over every run, a call proposes a candidate if and only if it does not start a task itself, no other candidate is left pending, and there is a reason; the candidate carries a reason that holds and its deadline |
| `TaskTriggers.ContinuationIsQuietUnless` | services/chau7-proxy/task.go:149-164 | a call that goes on with the work of the call just before it, within the idle timeout, proposes a candidate if and only if that call was a manual start and what was tracked before it is stale |
| `TaskTriggers.IdleGapAfterOneSecond` | services/chau7-proxy/task.go:149-152 | a run in which a call one second after a manual start is taken for the end of an idle gap |
| `CandidateFates.CandidateMeetsItsFate` | services/chau7-proxy/task.go:242-366 | what an event does to a pending candidate: it waits on under its identifier if and only if nothing names it or falls due, and it becomes a task if and only if it is confirmed or expires |
| `CandidateFates.CallFollowsItsCandidate` | services/chau7-proxy/task.go:281-366 | the calls recorded for a candidate go to the new task on confirmation or expiry, to the previous active task on dismissal, and nowhere on a manual start |
| `CandidateFates.OtherCallsStay` | services/chau7-proxy/task.go:584-591 | calls recorded for no candidate are never re-pointed |
| `CandidateFates.CallHasOneCandidate` | services/chau7-proxy/task.go:584-591 | when each call is reported once, a pending call is recorded for exactly one candidate |
| `CandidateFates.ExpireCandidates` | services/chau7-proxy/task.go:543-579 | a pass in any order removes exactly the candidates it reaches that are due |
| `CandidateFates.ExpireTasks` | services/chau7-proxy/task.go:545-579 | each of them becomes its tab's task; other tabs do not notice |
| `CandidateFates.ExpireCalls` | services/chau7-proxy/task.go:560-563 | and its calls go to that task |
| `CandidateFates.TimerIsArmedForEarliest` | services/chau7-proxy/task.go:514-533 | in every reachable state the timer is armed if and only if the manager is open and some candidate waits, for the earliest deadline |
| `CandidateFates.FiringStrandsNoCandidate` | services/chau7-proxy/task.go:536-581 | a firing confirms every due candidate whatever the map order, leaves the rest unchanged, and re-arms strictly later |
| `TaskOrigins.TaskIsExactly` | services/chau7-proxy/task.go:242-501 | after any event a tab's current task is the one the event starts, with session, project, name, trigger, start and time as the call, the user or the candidate gives them, under a new identifier; or the one it was, with what the user corrects |
| `TaskOrigins.RowIsExactly` | services/chau7-proxy/task.go:242-501 | after any event a database row is what it was, except that the tab's active one is abandoned at that time if the event starts another, and that the current one takes the user's correction |
| `TaskOrigins.CandidateIsExactly` | services/chau7-proxy/task.go:212-239 | a candidate stays as it is but for calls recorded for it, and a new one carries the headers of the call that proposes it, its deadline, and no calls |
| `TaskLifecycle.AssignmentMeans` | services/chau7-proxy/task.go:166-176 | what a call is filed under: the candidate that waits on its tab, or else the task whose row is the tab's active one, or else nothing |
| `CallFiling.AnswerIsExactly` | services/chau7-proxy/task.go:166-176 | over every run, the caller is told the candidate if and only if it waits on the tab after the call, and a task if and only if none waits and its row is the tab's active one |
| `CallFiling.CallEndsExactly` | services/chau7-proxy/proxy.go:100-107 | over every run, from the arrival of a call on: answered with a task it ends with it, answered with nothing it ends without one, and answered with a candidate it ends with that candidate's task if and only if, at the report, the candidate waits and later becomes a task, or another waits and is dismissed while that task is active |
| `FiledCalls.FiledCallEndsWithCandidateExactlyWhen` | services/chau7-proxy/proxy.go:102-107 | over every run: a call whose row is recorded without a task and that is reported once ends with a candidate's task if and only if, at the report, that candidate waits on the tab and later becomes a task, or another waits there and is dismissed while that task is the tab's active one |
| `FiledCalls.PromptReportFollowsTheCandidate` | services/chau7-proxy/proxy.go:325-328 | reported while its candidate still waits, a call ends with the candidate's task if and only if the candidate becomes one |
| `FiledCalls.LateReportLosesItsTask` | services/chau7-proxy/proxy.go:325-328 | a run in which the candidate is confirmed before the report and the call stays without a task |
| `FiledCalls.UnrecordedCallStays` | services/chau7-proxy/task.go:584-591 | a call on no candidate's record is never re-pointed again |
| `TaskManager.Database.UpdateTask` | services/chau7-proxy/db.go:623-643 | changes name, state and completion of an existing row only |
| `TaskManager.Database.RepointCalls` | services/chau7-proxy/db.go:710-713 | re-points each listed call whose row exists |
| `TaskManager.TaskManager.ScheduleGraceCheckLocked` | services/chau7-proxy/task.go:516-533 | the loop with its zero-time sentinel arms the earliest deadline |
| `TaskManager.TaskManager.CreateCandidateLocked` | services/chau7-proxy/task.go:212-239 | proposes a candidate unless one is pending, and re-arms |
| `TaskManager.TaskManager.CreateTaskLocked` | services/chau7-proxy/task.go:242-278 | abandons the active task, drops the candidate and installs the new task |
| `TaskManager.TaskManager.ConfirmCandidate` | services/chau7-proxy/task.go:281-328 | confirms the named candidate, or any candidate of the tab if none is named, and returns the new task or reports that there is no such candidate |
| `TaskManager.TaskManager.DismissCandidateLocked` | services/chau7-proxy/task.go:331-351 | dismisses the named candidate and reports how many calls it had |
| `TaskManager.TaskManager.DismissCandidate` | services/chau7-proxy/task.go:354-366 | reports whether there was such a candidate |
| `TaskManager.TaskManager.ProcessAPICall` | services/chau7-proxy/task.go:135-178 | the whole handling of a call; the caller is told the candidate if and only if it waits on the tab then, and a task if and only if none waits and its row is the tab's active one |
| `TaskManager.TaskManager.AssessTask` | services/chau7-proxy/task.go:369-436 | completes the current task with that id, in memory and database, or reports that there is none |
| `TaskManager.TaskManager.StartTask` | services/chau7-proxy/task.go:465-487 | with a candidate named it is confirmed or reported missing; otherwise a manual start inherits session and project from the tab's last task |
| `TaskManager.TaskManager.UpdateTaskName` | services/chau7-proxy/task.go:490-501 | renames the current task with that id in memory and database |
| `TaskManager.TaskManager.CloseManager` | services/chau7-proxy/task.go:504-512 | closing disarms the timer for good |
| `TaskManager.TaskManager.RunGraceCheck` | services/chau7-proxy/task.go:536-581 | a firing, on time or stale, goes through all candidates and re-arms |
| `TaskManager.TaskManager.RecordPendingCall` | services/chau7-proxy/task.go:584-591 | adds the call to the tab's candidate, if there is one |
| `RenderEngine.InjectedIsSuffixOfHistory` | apps/chau7-ios/Chau7RemoteApp/RemoteTerminalRendererStore.swift:120-220 | replay and live emulator never coexist for a tab; what is injected, or still to be, is a suffix of capped snapshot and later output, and all of it if and only if no more than the cap had to wait |
| `RenderEngine.HandoffKeepsContent` | apps/chau7-ios/Chau7RemoteApp/RemoteTerminalRendererStore.swift:178-201 | starting an emulator loses and doubles nothing, for any tab |
| `RenderEngine.AppendReplayIsSuffix` | apps/chau7-ios/Chau7RemoteApp/RemoteTerminalRendererStore.swift:203-220 | the trimmed replay is a suffix, whole exactly while it fits the cap |
| `RenderEngine.TrimmedReplayIsExactly` | apps/chau7-ios/Chau7RemoteApp/RemoteTerminalRendererStore.swift:203-220 | past the cap the replay is the last 300 000 bytes without the continuation bytes at their start, at most three of well-formed output |
| `RenderEngine.EmulatorStartsExactlyWhen` | apps/chau7-ios/Chau7RemoteApp/RemoteTerminalRendererStore.swift:178-201 | over every run, after a scroll or snapshot there is an emulator if and only if there was, or the viewport has been set, output waits and it starts; it is given what waited, and nothing waits any more |
| `RenderEngine.TrimmedReplayBeginsAtCharacter` | apps/chau7-ios/Chau7RemoteApp/RemoteTerminalRendererStore.swift:214-218 | a replay that has just been trimmed never begins inside a character |
| `RenderEngine.SnapshotReplayBeginsInsideExactlyWhen` | apps/chau7-ios/Chau7RemoteApp/RemoteTerminalRendererStore.swift:222-226 | the replay of a well-formed snapshot begins inside a character if and only if the snapshot is over the cap and the byte at the cut continues a sequence |
| `RenderEngine.SnapshotReplayCanBeginInside` | apps/chau7-ios/Chau7RemoteApp/RemoteTerminalRendererStore.swift:222-226 | a snapshot whose replay does, and shows a U+FFFD first |
| `RenderEngine.ResyncToScalar` | apps/chau7-ios/Chau7RemoteApp/RemoteTerminalRendererStore.swift:214-218 | the loop drops exactly the leading continuation bytes |
| `RenderEngine.RemoteTerminalRenderEngine.Retain` | apps/chau7-ios/Chau7RemoteApp/RemoteTerminalRendererStore.swift:59-66 | forgets exactly the tabs that are not visible |
| `RenderEngine.RemoteTerminalRenderEngine.Replace` | apps/chau7-ios/Chau7RemoteApp/RemoteTerminalRendererStore.swift:120-123 | a snapshot replaces the replay and drops the live emulator |
| `RenderEngine.RemoteTerminalRenderEngine.AppendReplayChunk` | apps/chau7-ios/Chau7RemoteApp/RemoteTerminalRendererStore.swift:203-220 | appends to the replay and trims it to the lower mark past the cap |
| `RenderEngine.RemoteTerminalRenderEngine.Append` | apps/chau7-ios/Chau7RemoteApp/RemoteTerminalRendererStore.swift:125-142 | output goes to the live emulator or else to the replay, never to both |
| `RenderEngine.RemoteTerminalRenderEngine.EnsurePlayback` | apps/chau7-ios/Chau7RemoteApp/RemoteTerminalRendererStore.swift:178-201 | hands the replay over once, if an emulator can be started |
| `RenderMutations.OnlyLaterMutationsHaveEffect` | apps/chau7-ios/Chau7RemoteApp/RemoteTerminalRendererStore.swift:303-457 | over every interleaving: once the last reset has run, the engine is what a new one becomes by the mutations enqueued since, in order, as far as they have run |
| `RenderMutations.IdleStoreHasRunAll` | apps/chau7-ios/Chau7RemoteApp/RemoteTerminalRendererStore.swift:303-457 | when the chain is idle the engine has run every mutation enqueued since the last reset and no other, in order |
| `RenderMutations.RenderedBytesAreSuffix` | apps/chau7-ios/Chau7RemoteApp/RemoteTerminalRendererStore.swift:303-457 | so the bytes of a tab are a suffix of what those mutations say, whole under the cap, whatever snapshots were taken in between |
| `RenderMutations.RemoteTerminalRendererStore.EnqueueMutation` | apps/chau7-ios/Chau7RemoteApp/RemoteTerminalRendererStore.swift:441-472 | a mutation, a scroll among them, joins the chain under the current generation |
| `RenderMutations.RemoteTerminalRendererStore.ResetRendering` | apps/chau7-ios/Chau7RemoteApp/RemoteTerminalRendererStore.swift:303-318 | a reset outdates what is queued and joins the chain itself |
| `RenderMutations.RemoteTerminalRendererStore.RunHead` | apps/chau7-ios/Chau7RemoteApp/RemoteTerminalRendererStore.swift:448-450 | the head of the chain checks its generation before it touches the engine |
| `RenderMutations.RemoteTerminalRendererStore.RunOnEngine` | apps/chau7-ios/Chau7RemoteApp/RemoteTerminalRendererStore.swift:451-456 | then runs on the engine, whatever was enqueued meanwhile |
| `RenderMutations.RemoteTerminalRendererStore.PublishSnapshot` | apps/chau7-ios/Chau7RemoteApp/RemoteTerminalRendererStore.swift:476-482 | publication takes its snapshot outside the chain |
| `StreamingRate.PruningIsInvisible` | services/chau7-proxy/streaming_rate.go:62-139 | on a clock that does not run backwards, after every delta the pruned samples give the same window, runes and tokens as all samples ever taken, and the same notifications |
| `StreamingRate.FallbackChangesNothing` | services/chau7-proxy/streaming_rate.go:126-129 | the fallback for windows under 250 ms never changes the baseline, on any clock |
| `StreamingRate.BaselineIsLastBeforeCutoff` | services/chau7-proxy/streaming_rate.go:118-124 | the loop finds the last sample not after the cutoff, or the oldest |
| `StreamingRate.PruneLeavesOneOlder` | services/chau7-proxy/streaming_rate.go:102-111 | pruning leaves at most one sample from before the window |
| `StreamingRate.NotificationsAreSpaced` | services/chau7-proxy/streaming_rate.go:80-99 | notifications are at least 900 ms apart, each with more tokens in all, and each for a real window with at least one token |
| `StreamingWindow.RunesAreCounted` | services/chau7-proxy/streaming_rate.go:72-79 | the observer's total is the runes of all deltas, pruned or not |
| `StreamingWindow.WindowIsLastThreeSeconds` | services/chau7-proxy/streaming_rate.go:113-139 | on a forward clock, from the deltas alone: the window holds all runes of the last three seconds, over the time since the last delta with text before them, or the first of all; with its tokens |
| `StreamingWindow.NotificationIsSentExactlyWhen` | services/chau7-proxy/streaming_rate.go:80-99 | on a forward clock, from the deltas alone: exactly when a notification is sent, and that it carries that window and the tokens of all text so far |
| `StreamingRate.StreamingRateObserver.DropOldSamples` | services/chau7-proxy/streaming_rate.go:102-111 | the pruning loop |
| `StreamingRate.StreamingRateObserver.ShortWindowRate` | services/chau7-proxy/streaming_rate.go:113-139 | the window computed by the loop over the samples |
| `StreamingRate.StreamingRateObserver.ConsumeDelta` | services/chau7-proxy/streaming_rate.go:72-99 | the handling of one text delta |
| `SseStream.SplittingIsInvisible` | services/chau7-proxy/streaming_sse.go:13-76 | for every split of a response into writes the result is the fold over the lines of the whole, with an unterminated last line, and so that of one write |
| `SseStream.PendingIsUnfinishedLine` | services/chau7-proxy/streaming_sse.go:13-33 | what is held back is always exactly the bytes after the last newline |
| `SseStream.LinesMakeTheStream` | services/chau7-proxy/streaming_sse.go:13-33 | lines and rest, joined at newlines, are the stream again, and contain no newline |
| `SseStream.LinesOfSplit` | services/chau7-proxy/streaming_sse.go:13-33 | cutting the stream anywhere, the second part continues the rest of the first |
| `SseStream.CarriageReturnsAreIgnored` | services/chau7-proxy/streaming_sse.go:35-45 | lines ended by CR LF give what lines ended by LF give |
| `SseStream.DataIsTheValue` | services/chau7-proxy/streaming_sse.go:35-45 | a line gives this data if and only if it is the field name and this value with white space around either, the value has none at its ends and is not the end marker |
| `SseStream.StreamingMetadataObserver.ConsumeLines` | services/chau7-proxy/streaming_sse.go:13-33 | the loop that borrows lines from the chunk and copies only a line split across writes |
| `SseStream.StreamingMetadataObserver.WriteChunk` | services/chau7-proxy/streaming_sse.go:58-62 | one write |
| `SseStream.StreamingMetadataObserver.FinishStream` | services/chau7-proxy/streaming_sse.go:70-76 | an unterminated last line still counts |
| `ResponseMetadata.EachFieldIsLastOffer` | services/chau7-proxy/metadata.go:360-421 | after any Anthropic or OpenAI events each field is the last value offered for it, in the code's order within an event, and a counter is reported if and only if it was offered |
| `ReportedFields.EachFieldIsLastTold` | services/chau7-proxy/metadata.go:360-421 | field by field from the payload, after any Anthropic or OpenAI events: each field is what the last event that tells it says, the more authoritative place first, and what it was if none does; a counter is reported if and only if it was or some event tells it |
| `ReportedFields.StreamedFieldsAreLastTold` | services/chau7-proxy/metadata.go:353-357 | from the bytes: however a response is split, each field is what the last event of the whole stream that tells it says |
| `ReportedFields.GeminiFieldsOfLastUsage` | services/chau7-proxy/metadata.go:423-429 | after any Gemini events every field is that of the last event with usage |
| `ReportedFields.CacheReadIsNotCacheCreation` | services/chau7-proxy/metadata.go:391-412 | a message that tells 900 cached tokens read and none written |
| `ResponseMetadata.ReportsNeverRevert` | services/chau7-proxy/metadata.go:391-412 | for Anthropic and OpenAI what was reported stays reported |
| `ResponseMetadata.GeminiKeepsLastUsage` | services/chau7-proxy/metadata.go:423-429 | the Gemini result is the last event with positive input or output |
| `ResponseMetadata.GeminiReportsAsLastUsage` | services/chau7-proxy/metadata.go:423-429 | after any Gemini events the cached tokens are reported if and only if the last event with usage reports them, or, without one, if they were before |
| `ResponseMetadata.ReportIsTakenBackExactlyWhen` | services/chau7-proxy/metadata.go:353-429 | whatever the provider, one event takes a report back if and only if it is Gemini's, has usage and does not tell that counter |
| `ResponseMetadata.GeminiReportCanRevert` | services/chau7-proxy/metadata.go:423-429 | two events after which a reported Gemini counter is no longer reported |
| `ResponseMetadata.StreamedFieldsAreLastOffers` | services/chau7-proxy/metadata.go:353-357 | from the bytes: however the response was split, each field is the last offer of the events of the whole stream |
| `ResponseMetadata.ResponseMetadataResult.MergeAnthropic` | services/chau7-proxy/metadata.go:362-412 | the sequence of conditional updates for one Anthropic event |
| `ResponseMetadata.ResponseMetadataResult.MergeOpenAI` | services/chau7-proxy/metadata.go:190-256 | the projection of one OpenAI event and its merge |
| `ResponseMetadata.ResponseMetadataResult.MergeGemini` | services/chau7-proxy/metadata.go:305-324 | the replacement of the record by one Gemini event |
| `WrapGeometry.SlicesFitTheGrid` | apps/chau7-ios/Chau7RemoteApp/RemoteModels.swift:190-204 | exactly the display rows of the count have a slice; none is empty or wider than the phone, and all lie in the grid |
| `WrapGeometry.PlaceOfCell` | apps/chau7-ios/Chau7RemoteApp/RemoteTerminalRendererView.swift:686-693 | the cursor formula inverts the slice map |
| `WrapGeometry.CellAtPlace` | apps/chau7-ios/Chau7RemoteApp/RemoteTerminalRendererView.swift:686-693 | and the slice map inverts the cursor formula |
| `WrapGeometry.EveryCellIsPaintedOnce` | apps/chau7-ios/Chau7RemoteApp/RemoteModels.swift:179-209 | a display row and offset paint a source cell if and only if they are its place: folding is a bijection |
| `WrapGeometry.EveryCellHasOneRow` | apps/chau7-ios/Chau7RemoteApp/RemoteModels.swift:157-167 | with ordered offsets and a sentinel every cell of an engine-folded buffer is in exactly one row |
| `WrapGeometry.FillRun` | apps/chau7-ios/Chau7RemoteApp/RemoteTerminalRendererView.swift:962-971 | fills the columns of one run unless it has the background's colour |
| `WrapGeometry.PaintRow` | apps/chau7-ios/Chau7RemoteApp/RemoteTerminalRendererView.swift:668-683 | the run loop paints each column in the colour of its cell, or of the last cell there is |
| `WrapGeometry.RunsAreCellByCell` | apps/chau7-ios/Chau7RemoteApp/RemoteTerminalRendererView.swift:668-683 | painting runs equals painting cell by cell if and only if the cells reach the end of the row or the last has the background's colour |
| `WrapGeometry.PaintedAtItsPlace` | apps/chau7-ios/Chau7RemoteApp/RemoteTerminalRendererView.swift:649-693 | with all cells present, as both producers of a grid supply them, each source cell's colour is at its place |
| `Diagnostics.RetentionKeepsTheNewest` | apps/chau7-ios/Chau7RemoteApp/RemoteModels.swift:303-341 | for any consistent policy both caps hold afterwards, removal is oldest-first within each class, and an entry that is not sensitive goes only if the total is over its cap after the sensitive trim |
| `Diagnostics.TrimsStopAtTheTargets` | apps/chau7-ios/Chau7RemoteApp/RemoteModels.swift:303-341 | a trim stops at its target: over its limit sensitive input goes down to the sensitive target, and a log still over its cap down to the entry target; an inconsistent policy removes nothing |
| `Diagnostics.RemovedExactlyWhen` | apps/chau7-ios/Chau7RemoteApp/RemoteModels.swift:303-341 | position by position, exactly which entries go |
| `Diagnostics.RemovalsLeaveRetained` | apps/chau7-ios/Chau7RemoteApp/RemoteModels.swift:303-341 | removing the computed indexes is that retention |
| `DiagnosticsFile.LogStaysBoundedAndSaved` | apps/chau7-ios/Chau7RemoteApp/DiagnosticsLog.swift:149-179 | over every run of records, saves, flushes, writes and clearings the log is within both caps and the cached sensitive count is exact; and as long as it is only cleared behind a settled queue, a save leaves the full encoding of the retained entries |
| `DiagnosticsFile.EntriesAreExactly` | apps/chau7-ios/Chau7RemoteApp/DiagnosticsLog.swift:149-179 | over every run: the log holds what was recorded at level Info or above, or let through, since it was last cleared, numbered in turn, as far as the policy retains it |
| `DiagnosticsFile.WritesAreWorkedOff` | apps/chau7-ios/Chau7RemoteApp/DiagnosticsLog.swift:333-352 | the queued writes take effect one by one, in order, until the file is settled |
| `DiagnosticsFile.AppendRefinesRewrite` | apps/chau7-ios/Chau7RemoteApp/DiagnosticsLog.swift:333-352 | after every save the file will hold the full encoding, whether it is appended to or rewritten |
| `DiagnosticsFile.SavedExactlyWhen` | apps/chau7-ios/Chau7RemoteApp/DiagnosticsLog.swift:333-352 | wherever a log starts and over every run: a save leaves the full encoding if and only if some save has had to rewrite the file, this one included, or the file was right for the part before the cursor |
| `DiagnosticsFile.StepKeepsCount` | apps/chau7-ios/Chau7RemoteApp/DiagnosticsLog.swift:149-179 | every event keeps both caps and the exact count |
| `DiagnosticsFile.StepKeepsFile` | apps/chau7-ios/Chau7RemoteApp/DiagnosticsLog.swift:149-352 | every event keeps the cursor right, clearing behind a settled queue included |
| `DiagnosticsFile.FlushWaitsExactlyWhen` | apps/chau7-ios/Chau7RemoteApp/DiagnosticsLog.swift:354-362 | a flush leaves nothing queued if and only if it found something to write or nothing was queued before it |
| `DiagnosticsFile.FlushCanReturnEarly` | apps/chau7-ios/Chau7RemoteApp/DiagnosticsLog.swift:354-362 | a run in which a flush returns while a saved entry is not in the file yet |
| `DiagnosticsFile.ClearedLogIsSavedExactlyWhen` | apps/chau7-ios/Chau7RemoteApp/DiagnosticsLog.swift:302-311 | after clearing, over every run: a save leaves the full encoding if and only if a rewrite was forced or the queue held nothing that brings a file back |
| `DiagnosticsFile.ClearedEntryComesBack` | apps/chau7-ios/Chau7RemoteApp/DiagnosticsLog.swift:302-311 | a run in which a cleared entry's line comes back |
| `DiagnosticsFile.LoadIsSoundExactlyWhen` | apps/chau7-ios/Chau7RemoteApp/DiagnosticsLog.swift:412-446 | a file is loaded soundly if and only if its entries are within both caps and it holds their lines and nothing else |
| `DiagnosticsFile.LoadedLogIsSavedExactlyWhen` | apps/chau7-ios/Chau7RemoteApp/DiagnosticsLog.swift:412-446 | after loading, over every run: a save leaves the full encoding if and only if some save has had to rewrite the file or the file agreed with what the cursor skips |
| `DiagnosticsFile.TornLineStays` | apps/chau7-ios/Chau7RemoteApp/DiagnosticsLog.swift:420-443 | a file with a torn last line, and the save behind it |
| `DiagnosticsFile.FullFileIsNotLoadedSoundly` | apps/chau7-ios/Chau7RemoteApp/DiagnosticsLog.swift:429-443 | a file of one entry too many |
| `Diagnostics.RemovalIndexes` | apps/chau7-ios/Chau7RemoteApp/RemoteModels.swift:303-341 | the loops that collect the index set, and the guard on an inconsistent policy |
| `Diagnostics.Removing` | apps/chau7-ios/Chau7RemoteApp/DiagnosticsLog.swift:470-478 | the one-pass removal |
| `DiagnosticsFile.DiagnosticsLog.ApplyRetentionPolicy` | apps/chau7-ios/Chau7RemoteApp/DiagnosticsLog.swift:450-467 | the trim with its count, cursor and rewrite flag |
| `DiagnosticsFile.DiagnosticsLog.RecordEntry` | apps/chau7-ios/Chau7RemoteApp/DiagnosticsLog.swift:149-179 | the level gate and the recording of one entry |
| `DiagnosticsFile.DiagnosticsLog.Save` | apps/chau7-ios/Chau7RemoteApp/DiagnosticsLog.swift:333-352 | append or rewrite, queued, and waited for when asked to |
| `DiagnosticsFile.DiagnosticsLog.LoadFile` | apps/chau7-ios/Chau7RemoteApp/DiagnosticsLog.swift:412-446 | the loop over the lines with its two counts, and what is kept of them |
| `DiagnosticsFile.DiagnosticsLog.ClearLog` | apps/chau7-ios/Chau7RemoteApp/DiagnosticsLog.swift:302-311 | drops the entries and the file and records that it did |
| `MockupBatch.RetryIsNewestSuffix` | services/chau7-proxy/mockup.go:252-266 | after a failed flush the queue is the newest suffix of failed batch and new events, of length max(new, min(total, 10 batches)) |
| `MockupBatch.DeliveredInOrderOldestDropped` | services/chau7-proxy/mockup.go:84-271 | over every interleaving: delivery is in order and without duplicates, every event is delivered, dropped or outstanding, and all outstanding events are newer than those |
| `MockupBatch.OnlyOldestUndeliveredAreDropped` | services/chau7-proxy/mockup.go:252-266 | only a failed flush over the limit drops events, and only the oldest not delivered |
| `MockupBatch.EventMovesExactly` | services/chau7-proxy/mockup.go:84-268 | over every run: a send queues the next event, a flush takes the whole queue, a success delivers what it took, a failure puts it back except for events with at least 1000 newer ones, which are dropped |
| `MockupBatch.MockupClient.Send` | services/chau7-proxy/mockup.go:84-103 | queues the event and tells whether the batch is full |
| `MockupBatch.MockupClient.TakeBatch` | services/chau7-proxy/mockup.go:235-248 | the first locked region of a flush |
| `MockupBatch.MockupClient.SettleBatch` | services/chau7-proxy/mockup.go:250-268 | the second locked region |

## Left out

- The replay guard, the crypto session, the rate limiter, sockets, TLS, Keychain and UI: only their observable outcome is an argument of an event.
- Answering prompts, URL actions, telemetry, tab lists, Live Activity, push and background keepalive: they ride on the same steps and add single-branch facts.
- RemoteLink: answers wait in the deferred-decision ledger outside this state machine; an answer enters it when its card is shown.
- Replacing the session controller after a Keychain retry: a session is modelled from its start to the end of the process.
- The Mac's long-lived public key: whether a key can be derived is an argument, and a key is identified by its nonce pair alone.
- RenderMutations.OnlyLaterMutationsHaveEffect: the model's generation counter does not wrap, because 2^64 resets would have to be enqueued behind one task.
- InboundQueue.RunKeepsInvariant: speaks of one socket; SocketGenerations.EveryGenerationIsItsOwnRun carries it over to all of them.
- SocketGenerations.EveryGenerationIsItsOwnRun: the main actor runs its jobs in the order they were added, which is asked for as `InJobOrder`; the generation counter does not wrap here, because 2^64 closings would have to pass within one drain; the rate limiter only delays listening and is left out.
- SseStream.CarriageReturnsAreIgnored: trimming knows the ASCII white space only, not U+0085 and the other non-ASCII spaces that Go's trimming also removes.
- SseStream.SplittingIsInvisible: does not model the borrowing of a line from the caller's chunk and the release of large scratch buffers; the 1 MiB pending-line drop belongs to the rate observer and is not modelled either.
- StreamingRate.PruningIsInvisible: the rate itself is a floating-point quotient and is left out; runes, tokens and nanoseconds are exact, and a reported rate is positive exactly when its runes are.
- TaskLifecycle.StepKeepsInvariant: database writes succeed and one event reads the clock once; task metrics, assessments, naming, confidence and notifications are left out.
- TaskManager.TaskManager.AssessTask: the task's metrics, the assessment record and its notification are left out, as are pointers to tasks returned to callers, which the manager later changes in place.
- FiledCalls.FiledCallEndsWithCandidateExactlyWhen: speaks of a call reported once, as the proxy reports it, whose row is in the database by then.
- CallFiling.CallEndsExactly: speaks of a call that is recorded once and, if it was filed under a candidate, reported once, as the proxy does.
- LinkStatus.ReadyGoesOut: speaks of a session without answers to flush; ApprovalDelivery.FlushSendsEveryAnswer says what becomes of those.
- StreamingWindow.WindowIsLastThreeSeconds: asks for a clock that does not run backwards; so does SnapshotRace.SnapshotSettlesTheRace.
- AnswersShown.NoAnswerIsSuperseded: asks that a snapshot list each request once, as the client's own projection does, which stops the app otherwise.
- PendingState.PendingStateReconciler.ApplySnapshotApprovals: notifications for added requests are left out, and so is completing a prompt on the phone.
- CandidateFates.CallFollowsItsCandidate: speaks of a call recorded for one candidate; CandidateFates.CallHasOneCandidate shows that this is so when each call is reported once.
- DiagnosticsFile.LogStaysBoundedAndSaved: writes succeed; timestamps, metadata and the mirror to the system log are left out.
- DiagnosticsFile.DiagnosticsLog.LoadFile: which lines the text has and what each decodes to is an argument, with none for a file that is missing or no text.
- MockupBatch.DeliveredInOrderOldestDropped: one flusher at a time; the HTTP exchange is only its outcome.
- ResponseMetadata.StreamedFieldsAreLastOffers: what a data line decodes to is a parameter; a line that does not decode changes nothing.
- WrapGeometry.PlaceOfCell: the quotient rounded up is taken exactly, where the source rounds up a double; the two agree for source widths below 2^53.
- WrapGeometry.PaintRow: only background colours; glyphs, decorations and the row range that is visible are left out.
- Pricing, baselines, token estimates, prompt injection, routing and headers of the proxy: floating point or mostly single-branch.
