# nanobot: verified models of session history, dispatch and audit

This project models the parts of nanobot in which several functions have to agree with each other
over a whole session or a whole run, and proves that they do. `dafny verify dfyconfig.toml` checks
all of it.

**History and the model-facing copy** (`Messages`, `Repair`, `Governance`, `History`, `Replay`,
`Consolidation`). A provider rejects a history in which a tool result has no earlier call, or a call
has no result. `Repair` defines the two repair passes on values, including where every backfilled
result goes; `Governance` runs the passes over shared message objects, with the code's own index
arithmetic over a growing list, and is proved equal to them. `History` covers the two ways a turn
enters the session: saving it, and restoring what a crash left. `Replay` and `Consolidation` cover
where a replay window starts and how old messages leave it.

**The run loop** (`Batches`, `RunLoop`). Requests, retries, injections, the completion guard and
checkpoints of `_run_core`; the checkpoints are shown to be the ones `History` restores, what a run
appends to be what `History` can save, and the lists sent to be the ones `Governance` prepares.

**Session dispatch** (`Dispatch`, `Loop`). `Dispatch` is a transition system over the steps between
two points where the event loop can switch tasks, with an inductive invariant and a rank for
progress. `Loop` is the imperative agent loop; each of its methods is proved to make exactly one of
those steps.

**Audit evidence** (`Integrity`, `Reader`, `ReadBack`, `Catalog`, `Prefixes`, `Index`, `Agreement`,
`Commits`). The digest is an arbitrary function; where a result depends on it, it is assumed
injective and the lemma says so. `Reader` and `Catalog` are the two sides of the catalog files,
`ReadBack` relates them. `Index` is the incremental index, `Agreement` relates both of its tables to
the logs they mirror, and `Commits` derives what `Agreement` asks of the commits from the catalogs'
records. The disk is an arbitrary function at every read of a segment, so nothing is assumed about
segments staying intact.

**Audit graph and run tree** (`Lanes`, `RunTree`, `Partition`, `Regions`, `TraceGraph`, `TurnGraph`,
`Recovery`). Lanes and the forest are proved on any parent relation, cyclic or not. `Partition`
compares the passes that divide a run's events among nodes with a classification of each event by
itself. `Regions`, `TraceGraph` and `TurnGraph` are the levels `run`, `trace_full` and `trace`: which
node owns each event, which region each node lies in, and that the final check accepts.

**Smaller state** (`Memory`, `Ledger`). History cursors and Dream batches under crashes, and the
failure ledger of a logical request. `Wrappers` holds what several modules share.

Loops are proved equal to reference functions. What those compute is said once more in the fields of
their inputs and results, without the functions themselves: in the contract of the operation, or in a
lemma beside it (`...Meaning`, `...IsExact`).

Four promises do not hold of the code as it stands; each is given with the exact condition under
which it does, and with inputs that break it:

* An append that failed may have left its line in the catalog file. The catalog reads back exactly
  as written, without a diagnostic, if and only if the files have as many lines as there are records
  (`Catalog.WriterReaderRoundTrip`). After a failed commit whose line did land and a recovery, a read
  ends in front of everything written since (`Catalog.RecoveryForks`). What is read is always a
  prefix of what was written, with at most one leftover behind all of it, unless a line cut inside a
  character makes the read raise (`Catalog.LeftoversOnlyCutTheRead`).
* Building a trace graph raises if and only if an event of a run carries an attempt id and is also a
  model or tool event of a named call, or is a `run_started` or `run_finished` event with an attempt,
  checkpoint, goal or delivery id (`TraceGraph.TraceFullNodes`, `TraceGraph.LifecycleHasOwner`;
  `TraceGraph.GoalOnRunFinishedRaises` is such an event). The schema admits a goal id on
  `run_finished`; every producer in the repository leaves it unset, so that event can only come from
  elsewhere.
* The cursor an append returns lies above every entry of the history file and above the counter,
  which holds the last cursor returned. It lies above every cursor that was ever issued if and only if
  one of the two still bears witness to the highest of them (`Memory.MemoryStore.AppendHistory`).
  Losing the counter file loses that witness if and only if the counter was ahead of the file
  (`Memory.MemoryStore.AppendWithoutCounter`), as it is after an append that ran on in an unfinished
  line; `Memory.TornLineRepeatsCursor` returns cursor 2 twice. An append loses it if and only if it
  crashes after running on in an entry that was cut off at its newline, and then a new entry can get a
  cursor that Dream has passed (`Memory.CursorFallsBehindDream`). On a file that others wrote, the new cursor
  lies above every entry whatever the counter says if and only if the tail cannot be used or is the
  highest entry (`Memory.NextCursorExceedsAll`, `Memory.DisorderRepeatsCursor`). After a write cut
  inside a character every append and every Dream run raises (`Memory.HalfCharacterStays`).
* Every list sent to the provider is paired, whatever the provider, the tools, the guard and the
  follow-ups do, if and only if no request after the last iteration is asked for or the run begins
  with a paired history: that request is made from the history itself and not from a governed copy
  (`RunLoop.Run.RunCore` for one half, `RunLoop.UngovernedRequest` for the other).
  `Session.get_history` (nanobot/session/manager.py:197-200) trims orphan results in front of a
  window, so the history that breaks it is one with an unanswered call, or another caller's list.

The run loop makes at most `4 * max_iterations` provider requests, one fewer than four per iteration
and a final one would allow, because the first iteration never reaches its fourth.

## Model

| member | source | states |
|---|---|---|
| Repair.DroppingLeavesNoOrphans | nanobot/agent/context_governance.py:231-255 | whatever the list, after dropping no tool result is without an earlier call |
| Repair.DroppingKeepsLegalHistory | nanobot/agent/context_governance.py:231-255 | a list without orphans is returned as it is, so only orphans are dropped |
| Repair.DroppingIsExact | nanobot/agent/context_governance.py:231-255 | what is kept, and in which order: every message but the results whose id no earlier assistant message calls |
| Repair.MissingCallsMeaning | nanobot/agent/context_governance.py:257-279 | a call is backfilled if and only if it is declared with an id that no result in the list carries |
| Repair.FillersBehindTheirCalls | nanobot/agent/context_governance.py:280-296 | every inserted result lies in the unbroken block of tool messages behind the message that declares it |
| Repair.InsertionIsNextBackfill | nanobot/agent/context_governance.py:280-296 | the offset arithmetic: with `k` results in place, a scan that starts at the call's index plus one plus `k` and stops at the first other message inserts exactly the next one |
| Repair.BackfillIsExact | nanobot/agent/context_governance.py:257-296 | the whole output: every input message once and unchanged, one error result for every call whose id no result carries, nothing else, results in the order of their calls and right behind the tool messages of their call |
| Repair.BackfillCounts | nanobot/agent/context_governance.py:257-296 | an id no result carries gets as many results as there are calls with it; the number of results with any other id stays |
| Repair.DeletingFillersRestoresInput | nanobot/agent/context_governance.py:257-296 | deleting the inserted results gives the input list back |
| Repair.BackfillKeepsNoOrphans | nanobot/agent/context_governance.py:257-296 | backfilling introduces no orphan |
| Repair.BackfillAnswersAll | nanobot/agent/context_governance.py:257-296 | after backfilling an orphan-free list every declared id has a result behind its first declaration |
| Repair.RepairPairs | nanobot/agent/context_governance.py:75-89 | dropping and then backfilling pairs any list at all |
| Repair.RepairIsExact | nanobot/agent/context_governance.py:75-89 | the same for both repairs, one after the other |
| Repair.RepairKeepsPaired | nanobot/agent/context_governance.py:75-89 | a paired list comes out unchanged |
| Messages.PairedMeaning | nanobot/agent/context_governance.py:231-296 | pairing in terms of calls and results: each result behind a call with its id, each called id with a result behind such a call |
| Governance.StripPlaceholders | nanobot/agent/context_governance.py:138-174 | the loop returns the list without placeholder assistant messages and leaves the input's objects alone |
| Governance.PlaceholdersAreDropped | nanobot/agent/context_governance.py:138-174 | exactly the assistant messages without calls that show a placeholder are dropped, the rest stays in order |
| Governance.StripMalformedCalls | nanobot/agent/context_governance.py:176-229 | the loop over shared objects returns the list with degenerate calls removed |
| Governance.HollowMessagesAreDropped | nanobot/agent/context_governance.py:176-229 | each message is kept with exactly the calls that name a function; dropped is only an assistant message with calls none of which does, and without text |
| Governance.OnlyValidCallsRemain | nanobot/agent/context_governance.py:176-229 | no assistant message of the result carries a call without a text name |
| Governance.DropOrphanResults | nanobot/agent/context_governance.py:231-255 | the loop computes `WithoutOrphans` of the messages it sees |
| Governance.CollectMissing | nanobot/agent/context_governance.py:257-279 | the two collecting loops find exactly the missing calls, in order |
| Governance.SkipToolMessages | nanobot/agent/context_governance.py:280-296 | the inner scan passes tool messages only and stops at the first other one or the end |
| Governance.BackfillMissingResults | nanobot/agent/context_governance.py:257-296 | inserting into the list while walking it gives exactly one result for each call that is owed one, in order, and as many results for an id as calls |
| Governance.ApplyResultBudget | nanobot/agent/context_governance.py:298-317 | normalised contents replace tool results in copies only |
| Governance.ResultBudgetMeaning | nanobot/agent/context_governance.py:109-136 | what becomes of a tool result: made non-empty, stored unless a file was read, and cut to size |
| Governance.InputBudgetMeaning | nanobot/agent/context_governance.py:91-107 | the limit set, or what the window leaves behind the output and a reserve of 1024; never negative |
| Governance.ApplyRecordedCompactions | nanobot/agent/context_governance.py:456-476 | every recorded id's result shows the notice, in fresh copies, or the input list itself is returned |
| Governance.InflightCandidates | nanobot/agent/context_governance.py:478-505 | the candidates are the compactable results behind the in-flight start, oldest first |
| Governance.CandidatesMeaning | nanobot/agent/context_governance.py:478-505 | the candidates are all long results of the compactable tools that are in flight and not recorded, each once, from the oldest to the newest |
| Governance.CompactCandidates | nanobot/agent/context_governance.py:319-378 | the loop copies before its first change and ends in the state the reference loop `Compacting` ends in |
| Governance.CompactInflightOverflow | nanobot/agent/context_governance.py:319-378 | the resulting list and the grown id set are those of `Inflight`, and no input object is modified |
| Governance.InflightIsExact | nanobot/agent/context_governance.py:319-378 | which results end up compacted: those recorded before and, of the oldest candidates, those with a new id, up to the first place at which there is reason to stop; for repeated ids too |
| Governance.InflightFitsOrExhausts | nanobot/agent/context_governance.py:319-378 | with a positive budget the estimate ends within it or every candidate id is recorded, and recorded ids only grow |
| Governance.InflightSparesNewest | nanobot/agent/context_governance.py:319-378 | the newest candidate, if no other has its id, is compacted only if the list with all older ones compacted is still over budget |
| Governance.InflightReappliesRecorded | nanobot/agent/context_governance.py:456-476 | a later call re-applies every recorded compaction and changes nothing but contents of tool results |
| Governance.ShapedIsExact | nanobot/agent/context_governance.py:75-89 | the passes in front of compaction one by one, each by what it does to the messages it gets, and none of them left out |
| Governance.PrepareForModel | nanobot/agent/context_governance.py:75-89 | for every history and any snipping step the result is paired and exactly a repair of what snipping left, recorded ids only grow, and no input message changes |
| Replay.FindLegalStart | nanobot/utils/helpers.py:383-398 | the window from the result on has no orphan result, and every window that starts earlier has one |
| Replay.RecentStart | nanobot/utils/helpers.py:357-380 | the last `max` messages if a user turn is among them or there is none at all, otherwise back to the last user turn, or to the delivery right before it |
| Consolidation.PickBoundary | nanobot/agent/memory.py:771-791 | the cut is `IsBoundary`: the earliest user turn that removes enough tokens, or the last user turn if none does; none exactly if there is no user turn to cut at |
| Consolidation.ReplayBoundary | nanobot/agent/memory.py:804-838 | `IsReplayEnd`: there is a boundary exactly if the tail is too long and its window, moved on to its first user turn and its legal start, begins behind the cursor; it is that start |
| Consolidation.Session.ArchiveTo | nanobot/agent/memory.py:1048-1073 | the archived chunk is what lies between the old and the new cursor, also when messages arrive meanwhile |
| Consolidation.Session.ConsolidateOverflow | nanobot/agent/memory.py:840-867 | the cursor moves to the boundary of the replay window if there is one, and exactly when a chunk is archived |
| Consolidation.Session.TokenRounds | nanobot/agent/memory.py:1033-1084 | each round cuts where `IsBoundary` says for the estimate of that round, and the reason to stop is the true one |
| Consolidation.Session.MaybeConsolidate | nanobot/agent/memory.py:982-1089 | the archived chunks always concatenate to the messages between origin and cursor; the first cut is the boundary of the replay window; at most five token rounds, each at the earliest user turn that removes enough of the messages it sees, or at the last user turn if none does; which estimates make it idle or give up |
| History.FindOverlap | nanobot/agent/loop.py:2661-2671 | the overlap found is the largest suffix of the session that equals a prefix of the restored messages under the checkpoint key |
| History.RestoreCheckpoint | nanobot/agent/loop.py:2624-2676 | a checkpoint restores the session to `IsRestored` and is cleared; without one nothing changes |
| History.RestoredMeaning | nanobot/agent/loop.py:2624-2659 | what a checkpoint restores, message by message: the calling message, the results that were there, an interruption for each pending call, in this order, with times |
| History.KeyMeaning | nanobot/agent/loop.py:2612-2622 | two messages count as the same exactly if they agree in all that the provider sees |
| History.RestoredSessionEndsInCheckpoint | nanobot/agent/loop.py:2661-2676 | the restored session extends the old one and ends in the restored messages |
| History.RestoredSessionIsShortest | nanobot/agent/loop.py:2661-2676 | no shorter extension of the session ends in the restored messages |
| History.RestoringAgainAddsNothing | nanobot/agent/loop.py:2661-2676 | restoring the same checkpoint again, at any time, adds nothing |
| History.RunnerCheckpointIsExchange | nanobot/agent/runner.py:472-548 | what a runner checkpoint restores is one calling message followed by results for exactly its ids |
| History.RecoveryKeepsPairing | nanobot/agent/loop.py:2624-2676 | recovery from any runner checkpoint leaves a paired session paired |
| History.RestorePendingUserTurn | nanobot/agent/loop.py:2678-2696 | a user turn without an answer gets one, and pairing is kept |
| History.SaveTurn | nanobot/agent/loop.py:2502-2571 | saving appends exactly the entries `Saved` lists, with the latency on the last assistant message of the turn |
| History.SavedIsExact | nanobot/agent/loop.py:2502-2571 | which messages of a turn are saved, in which order and with which content and keys; a result is saved exactly if an earlier message of the session or the turn calls with its id |
| History.LatencyMeaning | nanobot/agent/loop.py:2567-2571 | the latency goes to the last assistant message that was saved and to no other |
| History.SavingKeepsNoOrphans | nanobot/agent/loop.py:2502-2571 | saving never lets a result without a call, or without an id, into the session |
| History.SavedAnswers | nanobot/agent/loop.py:2502-2571 | a call and its result in the turn are a call and its result in the session |
| History.SavingKeepsPairing | nanobot/agent/loop.py:2502-2571 | saving a turn whose calls are answered keeps both directions of pairing |
| Batches.Partition | nanobot/agent/runner.py:1778-1801 | the batches concatenate to the calls; only calls that are safe side by side share one, and no two neighbours could be merged |
| Batches.Execute | nanobot/agent/runner.py:1320-1371 | there is one result for each call, in the order of the calls, whatever the batching; equal calls may give different results |
| RunLoop.ToolTurnKeepsPairing | nanobot/agent/runner.py:460-517 | a calling message with one result for each call keeps a history paired |
| RunLoop.Run.RequestModel | nanobot/agent/runner.py:868-1060 | one to three requests, each with one more note behind the list before; only the third may return a call without a valid name, and each carries a paired list if the prepared one is paired |
| RunLoop.ModelCallMeaning | nanobot/agent/runner.py:1028-1094 | the reply keeps exactly the validly named calls in their order, and a tool response without any is asked for again, twice at most |
| RunLoop.Run.AppendInjected | nanobot/agent/runner.py:147-168 | the loop joins the follow-ups one by one as `JoinedAll` says, and pairing is kept |
| RunLoop.JoiningOne | nanobot/agent/runner.py:147-168 | a follow-up is merged into a user message at the end exactly if neither is hidden, and appended otherwise |
| RunLoop.JoiningKeepsHistory | nanobot/agent/runner.py:147-168 | follow-ups change nothing before the last message and keep its role, and the history ends in a user message |
| RunLoop.Run.TryDrain | nanobot/agent/runner.py:170-223 | what is found is at most three user messages and nothing once five cycles are used up; the history gets the answer and then what was found, or a note while a goal is active; otherwise nothing changes |
| RunLoop.FoundMeaning | nanobot/agent/runner.py:170-223 | a drain gives the first three of what is there, as user messages, and nothing after five cycles |
| RunLoop.Run.GuardFinal | nanobot/agent/runner.py:394-423 | a refusal adds exactly its messages and the barrier note, and pairing is kept whatever they are; a guard that raises refuses and adds nothing |
| RunLoop.Run.AppendFinal | nanobot/agent/runner.py:1758-1771 | a non-empty final text becomes the one answer that ends the history |
| RunLoop.Run.RunTools | nanobot/agent/runner.py:460-517 | the turn appended is the calling message and the aligned results; the checkpoint in front of it has every call pending, the one behind it every result |
| RunLoop.Run.AnswerIteration | nanobot/agent/runner.py:561-754 | one more request exactly for the second empty answer; a truncated answer goes on at most three times in a row; any other answer ends the run as it is exactly if nothing was injected, no goal is active and the guard allows it |
| RunLoop.Run.Iteration | nanobot/agent/runner.py:425-754 | tools run exactly if the reply has calls and ended for tools or by itself: then the history goes on with its calling message and one result for each call, otherwise nothing joins it that calls or answers a call |
| RunLoop.Run.RunCore | nanobot/agent/runner.py:359-809 | the run is a log of such iterations; at most `4 * max_iterations` requests, five injection cycles and fifteen follow-ups; a paired history stays paired; what the run appends answers its own calls; every list sent is paired if no request after the last iteration is asked for or the run began with a paired history, and not if that request is made and the run began with an orphan result; every checkpoint is restorable; an unblocked run ends in an answer |
| RunLoop.TurnsStand | nanobot/agent/runner.py:359-809 | the turn of every iteration that ran tools stands in the final history, right behind what was there before it |
| RunLoop.OnlyTurnsCall | nanobot/agent/runner.py:359-809 | behind the initial messages nothing else calls a tool or answers a call |
| RunLoop.SavedRunIsPaired | nanobot/session/turn_continuation.py:182-200 | saving what a run appended, with or without its own user message, keeps a paired session paired |
| RunLoop.Run.GovernedRequest | nanobot/agent/runner.py:426-447 | a request of an iteration carries what governance makes of the history, so the lists sent are paired whatever the history is |
| RunLoop.OrphanStaysBehind | nanobot/agent/runner.py:359-809 | no messages appended behind an orphan result make up for it |
| RunLoop.UngovernedRequest | nanobot/agent/runner.py:359-809 | for every history that is not paired, every governance and any number of iterations there is a world in which the run sends that history with a note behind it |
| Dispatch.ReachableInvariant | nanobot/agent/loop.py:1433-1685 | the invariant holds after every sequence of enabled steps |
| Dispatch.ChainsAreRuns | nanobot/agent/loop.py:1433-1685 | every chain of enabled steps from the empty state is a run, so the results hold of all of them |
| Dispatch.MutualExclusion | nanobot/agent/loop.py:1527-1542 | at most one dispatch task is inside a session's critical section |
| Dispatch.PublishedQueueIsOwnersQueue | nanobot/agent/loop.py:1537-1542 | a session's pending queue exists only while its own task holds the lock and runs |
| Dispatch.ExactlyOnePlace | nanobot/agent/loop.py:1466-1522 | every message taken from the bus is in exactly one place and there only once, also after a full queue |
| Dispatch.QueuesAreFifo | nanobot/agent/loop.py:1433-1685 | no step reorders the bus, a pending queue or a deferred queue: each loses its head, or grows at its end, or stays |
| Dispatch.NoDeferredTurnIsStranded | nanobot/agent/automation_turns.py:16-30 | a session with deferred turns has a task that will publish one, or a deferrable message on its way to the loop |
| Dispatch.QuiescentHasConsumedAll | nanobot/agent/loop.py:1648-1685 | when no step is left every message is consumed and no queue is left |
| Dispatch.InternalStepLowers | nanobot/agent/loop.py:1433-1685 | without new arrivals every step lowers a well-founded rank, so no schedule runs forever |
| Dispatch.SomeStepIsEnabled | nanobot/agent/loop.py:1433-1685 | unless all is done some step is enabled: no deadlock |
| Dispatch.EverythingIsConsumed | nanobot/agent/loop.py:1433-1685 | from every reachable state there is a run to the end in which every message is consumed |
| Loop.AgentLoop.ConsumeInbound | nanobot/agent/loop.py:1433-1435 | taking a message is the protocol's consume step |
| Loop.AgentLoop.DeferIfActive | nanobot/agent/automation_turns.py:90-107 | a deferrable turn of an active session joins the end of its deferred queue; any other is left alone |
| Loop.AgentLoop.PutPending | nanobot/agent/loop.py:1494-1512 | the message joins the end of the queue exactly if fewer than 20 are in it |
| Loop.AgentLoop.RouteMessage | nanobot/agent/loop.py:1456-1522 | the routing branches together are the protocol's route step; field by field: where each kind of message goes, and that a plain one for an active session makes a new task exactly if 20 are waiting in its queue |
| Loop.AgentLoop.Acquire | nanobot/agent/loop.py:1532-1537 | entering the lock is the protocol's acquire step |
| Loop.AgentLoop.PublishQueue | nanobot/agent/loop.py:1538-1541 | publishing the pending queue is the protocol's start step |
| Loop.AgentLoop.TakeQueueBack | nanobot/agent/loop.py:1648-1658 | taking back only the own queue is the protocol's finish step |
| Loop.AgentLoop.RepublishLeftovers | nanobot/agent/loop.py:1659-1672 | the leftovers return to the bus in order |
| Loop.AgentLoop.PublishNextDeferred | nanobot/agent/automation_turns.py:16-30 | one deferred turn returns to the bus exactly if there is one |
| Loop.AgentLoop.PublishAndRelease | nanobot/agent/loop.py:1673-1678 | the rest of the cleanup and leaving the lock are two protocol steps |
| Loop.DrainingReturnsAllLeftovers | nanobot/agent/loop.py:1659-1672 | draining one by one returns the whole queue, in order |
| Integrity.VerifyChain | nanobot/audit/integrity.py:70-107 | accepts exactly the chains; on rejection `checked` is the length of the longest accepted prefix and the code names the first problem |
| Integrity.FinalHashPinsChain | nanobot/audit/integrity.py:70-107 | two non-empty accepted chains with the same last hash are equal |
| Integrity.SameFinalHashAddsNothing | nanobot/audit/index.py:343-354 | a chain that extends an indexed one and ends in the same hash adds nothing |
| Reader.Collect | nanobot/audit/reader.py:58-83 | the dictionaries hold exactly the records with a right digest, by hash and by predecessor, every other line gets its diagnostic, and reading raises exactly if some line is no text |
| Reader.ReadCatalog | nanobot/audit/reader.py:55-109 | it raises exactly if some line is no text; otherwise the walk ends, each record of it was the only candidate for its place, it stops where there is not exactly one, and the diagnostics are exactly those due |
| ReadBack.WalkIsRepeatFreeChain | nanobot/audit/reader.py:84-109 | on arbitrary contents the result is nothing or a repeat-free hash chain of right digests from the only `process_started` root |
| ReadBack.CandidatesMeaning | nanobot/audit/reader.py:84-103 | a root names no predecessor and starts the process; a follower names the last hash and repeats none |
| ReadBack.DiagnosticsMeaning | nanobot/audit/reader.py:58-109 | how many diagnostics of each kind a read gives: one for each line that does not parse and each wrong digest, and one each for the root, a fork and records not reached |
| ReadBack.VisitingOrderDoesNotMatter | nanobot/audit/reader.py:55-109 | whether it raises, the result and the diagnostics depend on which lines there are, not on the order of the files |
| ReadBack.FollowerIsNew | nanobot/audit/integrity.py:48-52 | with an injective digest no record can follow a record of a catalog and repeat an earlier hash |
| ReadBack.CleanDirectoryReadsBack | nanobot/audit/reader.py:55-109 | a catalog with nothing left by failed appends is returned in full, in order and without diagnostics |
| ReadBack.ReadsBackUnlessStrays | nanobot/audit/reader.py:55-109 | it is returned so if and only if no failed append left a line, that is, if there are as many lines as records |
| Catalog.ProcessCatalog.Append | nanobot/audit/catalog.py:114-139 | on success the record is the next of the chain; a failure changes no field and may leave its line behind |
| Catalog.ProcessCatalog.RegisterSegment | nanobot/audit/catalog.py:147-166 | an unsafe path raises before anything is written |
| Catalog.ProcessCatalog.RotateSegment | nanobot/audit/catalog.py:168-187 | the first record of a new segment names the last one of the old, and the numbers start again; if the file cannot be created, the id has changed and nothing can be appended |
| Catalog.ProcessCatalog.RecoverAfterUncertain | nanobot/audit/catalog.py:189-213 | recovery registers a segment behind the last known record and abandons the old one; if the file cannot be created, only the id has changed |
| Catalog.ProcessCatalog.CommitEpoch | nanobot/audit/catalog.py:238-251 | the committed prefix moves exactly when its record is written |
| Catalog.ProcessCatalog.CloseProcess | nanobot/audit/catalog.py:253-261 | the closing record names the last committed epoch and heads |
| Catalog.WriterReaderRoundTrip | nanobot/audit/catalog.py:114-213 | after any run of the operations, reading the files in any order gives exactly the records and no diagnostic if and only if no failed append left a line, that is, if the files have as many lines as there are records |
| Catalog.LeftoversOnlyCutTheRead | nanobot/audit/reader.py:84-109 | whatever failed appends left, a read that does not raise gives the first of the written records in order, and at most one leftover behind all of them |
| Catalog.RecoveryForks | nanobot/audit/catalog.py:189-213 | a commit whose append raised although its line landed, and a recovery: of three written records a read returns the first and reports a fork |
| Prefixes.ChoosePrefixes | nanobot/audit/index.py:201-241 | for one process it raises if and only if a record commits a registered segment whose path leads out of the audit root; otherwise each segment gets the commit of the highest epoch among those behind its registration, the first of equals |
| Index.InsertAll | nanobot/audit/index.py:375-397 | rows that exist are kept, the count is the number of new ones |
| Index.Check | nanobot/audit/index.py:355-374 | a prefix is refused exactly if reading raises, it is empty, its last hash is another, or it is no chain |
| Index.ScanPrefixes | nanobot/audit/index.py:340-411 | the loop with its skips, failures and blocked processes is the fold of one step over the prefixes |
| Index.ScanIsRounds | nanobot/audit/index.py:340-411 | the loop goes through one round for each prefix: skipped if its process is blocked or its cursor is at the commit, refused if it does not read as a chain ending in the committed hash, otherwise taken in; it raises exactly at the first prefix that lies in front of its cursor |
| Index.NothingNewChangesNothing | nanobot/audit/index.py:350-354 | with every cursor at its commit the loop changes nothing |
| Index.AuditIndex.Update | nanobot/audit/index.py:326-524 | both loops are kept or undone together; the revision moves by one exactly if a segment was taken in or coverage or failures changed, and rows, cursors and verified processes change only with a segment; the first failure and the revision each changed process is verified at are recorded; an update with nothing new keeps everything |
| Agreement.AcceptedIsWritten | nanobot/audit/index.py:355-374 | whatever the disk returned, an accepted prefix is what its writer wrote |
| Agreement.TakeInKeepsMirror | nanobot/audit/index.py:375-411 | taking a prefix in keeps the table equal to what the cursors have passed |
| Agreement.ScanKeepsMirror | nanobot/audit/index.py:340-411 | so does a whole loop, with or without refused prefixes |
| Agreement.CleanUpdateHoldsAll | nanobot/audit/index.py:340-411 | a loop that starts with nothing blocked and adds no failure leaves exactly the committed entries of all segments in its table |
| Agreement.UpdateEqualsRebuild | nanobot/audit/index.py:326-524 | that is the table a rebuild from nothing makes, from another reading of the disk |
| Agreement.RunsStayGood | nanobot/audit/index.py:326-524 | in every interleaving of appends, commits and updates both tables mirror their logs, although the payload loop inherits what the event loop blocked |
| Agreement.UpdatesAgreeWithTheLog | nanobot/audit/index.py:326-524 | in every such run an update does not raise, and a clean one leaves both tables equal to their logs and makes the next one idle |
| Agreement.CleanUpdateAgrees | nanobot/audit/index.py:326-524 | an update whose two loops report no failure leaves all that is committed in both tables and all cursors at their commits |
| Agreement.UpdateIndex | nanobot/audit/index.py:326-524 | `update` is that step of a run, does not raise, and complete coverage means that both tables agree with their logs |
| Commits.ListPrefixes | nanobot/audit/index.py:196-251 | it raises if and only if that happens for some process; otherwise over all processes there is one prefix for each segment any catalog commits, the latest |
| Commits.ListedMeaning | nanobot/audit/index.py:196-251 | each listed prefix carries the offset and the hash that the latest commit of its segment names, in its stream |
| Commits.ListedAreCommits | nanobot/audit/index.py:196-251 | what is listed from honest catalogs is what the writers wrote, each segment once |
| Commits.GrowthAdvances | nanobot/audit/index.py:196-251 | as honest catalogs grow, no listed segment disappears and no listed commit goes back |
| Commits.CatalogGrowthIsAStep | nanobot/audit/index.py:196-251 | so appending to segments and catalogs is a step of the runs in which the index agrees with the log |
| Lanes.LaneOfFollowsParent | nanobot/audit/graph.py:611-649 | the reference lane of a resolved run is the one beside its parent's lane |
| Lanes.ResolvesMeaning | nanobot/audit/graph.py:611-655 | a run gets a lane of its own exactly if it is a main run, has a parent that does, or needs no parent and has none |
| Lanes.LaneMeaning | nanobot/audit/graph.py:611-647 | the lane by the run's kind and its parent's lane, with child agents of a centre run to the left and the right in turn, the first to the left |
| Lanes.BlockedNeverResolve | nanobot/audit/graph.py:651-654 | a set of runs that all wait for each other never resolves |
| Lanes.AssignLanes | nanobot/audit/graph.py:604-655 | the loop ends on any parent relation and gives every run its reference lane, with depth its absolute value |
| Lanes.CentreIsMain | nanobot/audit/graph.py:617-618 | lane 0 holds exactly the main runs |
| Lanes.SameSideAsParent | nanobot/audit/graph.py:619-647 | a run under a parent off the centre is on its side and at least as deep |
| Lanes.SiblingsApart | nanobot/audit/graph.py:604-632 | child agents of one centre run never share a lane |
| Lanes.CycleIsUnresolved | nanobot/audit/graph.py:651-654 | runs whose parents form a cycle stay unresolved, on lane 1 |
| RunTree.Builder.Build | nanobot/audit/query.py:216-237 | the closure returns the specified tree, restores `visiting`, and sets the flag exactly if a run meets itself |
| RunTree.MeetingIsCycle | nanobot/audit/query.py:216-237 | meeting a run that is being built means there is a cycle |
| RunTree.CycleMeetsItself | nanobot/audit/query.py:216-237 | building at a run on a cycle meets it again |
| RunTree.RootsCoverAll | nanobot/audit/query.py:239-257 | without cycles the roots' trees hold every started run exactly once |
| RunTree.FlagIsExact | nanobot/audit/query.py:239-257 | the roots and the leftover runs together meet every cycle there is |
| RunTree.BuildRunTree | nanobot/audit/query.py:195-257 | it ends on any relation, the trees are those of the runs without a parent and then of the runs these do not reach, each once and in sorted order, the flag is set if and only if there is a cycle, and without one every started run is placed once, under its parent or as a root |
| Partition.RunPass | nanobot/audit/graph.py:1035-1103 | one pass makes one group for each key it meets, with exactly the events it takes, and consumes their ids |
| Partition.RunPasses | nanobot/audit/graph.py:1040-1103 | the groups hold every claim of every pass once, and the events of no pass are ignored |
| Partition.AddNodes | nanobot/audit/graph.py:307-312 | adding the nodes raises if and only if an event id occurs twice |
| Partition.ClaimIsOwner | nanobot/audit/graph.py:1040-1103 | the claim of a pass on an event is what the event's own fields say, unless it is claimed twice |
| Partition.FirstOfferIsOwner | nanobot/audit/graph.py:1040-1103 | the eleven passes, one after the other, give each event the owner that a single look at its kind and ids names |
| Partition.RunNodes | nanobot/audit/graph.py:1002-1250 | it raises if and only if some event carries an attempt id and the id of a model call or tool as one of its events; otherwise the kind and the ids of each event name the node that owns it, two events of one sort have the same node if and only if they carry the same id, and every event is owned or ignored and never both |
| Regions.OpenRegions | nanobot/audit/graph.py:1012-1030 | there is a region for each iteration met and one for events without, all empty |
| Regions.PlaceNodes | nanobot/audit/graph.py:1106-1233 | every node of a run graph lies in the region of its first event and in no other |
| Regions.ValidateMembership | nanobot/audit/graph.py:1846-1857 | accepts exactly if the regions' members are the nodes and each node is a member of the region it names |
| Regions.BuildRunGraph | nanobot/audit/graph.py:1002-1250 | building a run graph fails if and only if an event is claimed twice; the membership check never fails on its own; each owner of an event has a node, in the region of the first of its events |
| TraceGraph.Add | nanobot/audit/graph.py:307-312 | adding a node raises exactly if one of its events has an owner, and otherwise owns exactly its events |
| TraceGraph.LifecycleHasOwner | nanobot/audit/graph.py:1040-1103 | a lifecycle event is taken by a pass if and only if it carries an attempt, checkpoint, goal or delivery id |
| TraceGraph.AddRun | nanobot/audit/graph.py:726-862 | a run raises if and only if an event of it is claimed twice or a lifecycle event is taken by a pass; otherwise exactly its events join, and the members of its lane are its node and the nodes inside it |
| TraceGraph.DropDuplicates | nanobot/audit/graph.py:706-717 | a subagent event is dropped exactly if an earlier one has its idempotency key |
| TraceGraph.AddTasks | nanobot/audit/graph.py:864-990 | task nodes own exactly the kept subagent events with a task id and never clash with runs; each lies in its child's lane if there is one, otherwise in a region of its own |
| TraceGraph.TaskHomeMeaning | nanobot/audit/graph.py:864-912 | a task lies in the lane of the last run its events name beside its owner, if that run has events of its own, and the owner is the first parent they name |
| TraceGraph.TraceFullNodes | nanobot/audit/graph.py:696-1000 | it raises if and only if some run does; otherwise the kind, run, task and ids of each event name its one owner, or it is ignored; the nodes are exactly the runs and the owners of events, and each lies in its region and in no other |
| TraceGraph.BuildTraceFullGraph | nanobot/audit/graph.py:390 | the membership check never adds a failure of its own |
| TurnGraph.OpensWithFirst | nanobot/audit/graph.py:414-427 | the event that decides a run's turn is the first of the run |
| TurnGraph.TraceNodes | nanobot/audit/graph.py:410-483 | the level of turns never raises; events with a run are owned by its node and the others ignored, and each run node lies in the turn of its first event and in no other |
| TurnGraph.BuildTraceGraph | nanobot/audit/graph.py:390 | the membership check accepts it |
| TraceGraph.GoalOnRunFinishedRaises | nanobot/audit/graph.py:1076-1078 | on a single `run_finished` event with a goal id and no attempt id it raises |
| Recovery.Search | nanobot/audit/hook.py:467-508 | the lists name exactly the pending failures the call retries, continues or recovers, and the rest stays pending |
| Recovery.RunnerHook.Classify | nanobot/audit/hook.py:467-508 | the first step of a tool's end keeps every recovery on record unique |
| Recovery.RunnerHook.Emit | nanobot/audit/hook.py:520-576 | the second step appends the event, which names only earlier failures |
| Recovery.RunnerHook.Settle | nanobot/audit/hook.py:577-578 | the third step makes a failure pending after its event |
| Recovery.RecoveredOnceAndForward | nanobot/audit/hook.py:467-578 | in any interleaving a failed call is recovered by at most one call, an ok one that finishes after it |
| Recovery.RecoveryEdges | nanobot/audit/graph.py:1371-1442 | the edges are exactly the declared recoveries of calls that ended abnormally |
| Recovery.RecoveryEdgesPointForward | nanobot/audit/graph.py:1371-1442 | a failed node has at most one outgoing recovery edge, and it points forward |
| Memory.NextCursorExceedsAll | nanobot/agent/memory.py:363-379 | on any file the new cursor exceeds every entry whatever the counter says, if and only if the tail was not used or no entry lies above it |
| Memory.DisorderRepeatsCursor | nanobot/agent/memory.py:363-379 | entries 5 and 3 in this order: the next cursors are 4 and 5 |
| Memory.BatchLeavesRest | nanobot/agent/memory.py:381-383 | handing out the first entries and moving the cursor to the last of them leaves exactly the rest |
| Memory.MemoryStore.AppendHistory | nanobot/agent/memory.py:253-304 | up to a crash at any point of the line or between the two files: the file, the counter and what Dream works through; the new cursor exceeds every entry and the counter, and every issued cursor exactly if one of the two bears witness to it; that witness is kept unless an entry without a newline is destroyed by an append that crashes |
| Memory.WriteMeaning | nanobot/agent/memory.py:288-304 | what a write leaves in the file, for each way the file ended before and each place at which the write is cut off |
| Memory.MemoryStore.AppendWithoutCounter | nanobot/agent/memory.py:363-379 | once the counter is lost, the next cursor exceeds every issued one if and only if the counter was not ahead of the file |
| Memory.TornLineRepeatsCursor | nanobot/agent/memory.py:288-304 | a torn line, an append into it and a lost counter: cursor 2 is returned twice |
| Memory.CursorFallsBehindDream | nanobot/agent/memory.py:288-304 | an entry cut off at its newline, taken by Dream and destroyed by an append that crashes: the next entry gets a cursor Dream has passed |
| Memory.HalfCharacterStays | nanobot/agent/memory.py:426-437 | after a write cut inside a character every append raises, Dream gets nothing and the file stays, whatever operations follow |
| Memory.MemoryStore.CompactHistory | nanobot/agent/memory.py:415-423 | with a limit it raises exactly if the file ends in half a character; otherwise the newest parsed entries are kept, and Dream loses at most a prefix of what it has not seen |
| Memory.MemoryStore.BuildDreamBatch | nanobot/agent/memory.py:532-558 | it raises exactly with half a character at the end of the file; otherwise the batch is the first entries behind the cursor, and the cursor returned is the last entry's |
| Memory.MemoryStore.Dream | nanobot/agent/memory.py:493-494 | moving the cursor to the returned value leaves what was handed out and what is left as one list, unchanged |
| Memory.HandedOutOnceInOrder | nanobot/agent/memory.py:532-558 | no entry is handed out twice, and entries come in the order of their cursors |
| Ledger.TrailingIsLongest | nanobot/agent/status_overlay.py:90-136 | the trailing run is the longest one of outcomes that count |
| Ledger.EntryStep | nanobot/agent/status_overlay.py:116-133 | the entry after an outcome is the update of the entry before it, for the operation named and no other |
| Ledger.Session.Begin | nanobot/agent/status_overlay.py:54-67 | a real user request starts an empty ledger |
| Ledger.Session.Record | nanobot/agent/status_overlay.py:90-136 | an outcome is recorded exactly if it belongs to the current request and names an operation, and the ledger keeps reflecting the recorded outcomes |
| Ledger.LedgerCountsTrailingFailures | nanobot/agent/status_overlay.py:90-136 | the count is the length of the trailing run of failures, the revision the number of outcomes, and at most eight different sources are kept |

## Left out

- Provider calls, streaming, hooks, prompt templates, token counting, snipping and tool execution are arbitrary functions. An exception that ends a run early is not modelled; it can only make fewer requests.
- Files, fsync, SQLite and JSON text. A segment is a sequence of records with end offsets, a table is a map, a transaction that fails is no change.
- Task cancellation in the dispatch protocol, and with it `/stop`, which cancels tasks and pops queues. Turns are assumed to end. The concurrency gate only delays a task; its capacity is not counted. Publishing on the unbounded inbound bus never suspends.
- `process_direct` is a holder of a session lock that takes and leaves it; the protocol's progress result assumes that none holds one.
- Governance.CompactCandidates: the target is 85 hundredths of the budget in whole numbers, where the code multiplies by the float 0.85 and truncates.
- Governance.CompactInflightOverflow: `inflight_start_index` is compared with indices of the list as it stands in that pass, as the code does; nothing is claimed about which original message an index means.
- Governance.ApplyResultBudget: persisting an oversized result is an arbitrary function of id, name and content; the file it writes is not part of the model.
- History.SaveTurn: text truncation and content sanitising are arbitrary functions, and `_runtime_context` is kept as a text.
- Consolidation.Session.MaybeConsolidate: which summary is persisted in the session metadata is not stated. Messages may arrive while an archive call is awaited; nothing else may change the session meanwhile, which the consolidation lock is for.
- RunLoop.Run.RequestModel: the transient status overlay a provider may lay over the list is not part of the request.
- RunLoop.Run.RunCore: usage accounting, hooks, streaming and the stop reason are not part of the model. `_run_core` does not reset `stop_reason` or `error` after an error it recovered from, and nothing is claimed about them.
- RunLoop.Run.AnswerIteration: the two fixed texts and the merging of contents are arbitrary functions of the run.
- Catalog.ProcessCatalog.RotateSegment: sealing the old segment never raises, and a failed creation leaves no lines.
- Catalog.ProcessCatalog.Append: timestamps, host and process fields are left out of a record's body. Segment ids are fresh, as `new_audit_id` makes them.
- Catalog.ProcessCatalog.RegisterSegment: which path tokens are safe is an arbitrary predicate.
- Index.AuditIndex.Update: of a `process_integrity` row only the revision it was verified at is modelled, not the verifier's report; timestamps are left out, and payload rows have no byte offsets. Segment ids are unique over processes and streams, so the event and payload cursors are two maps by segment id.
- Commits.ListPrefixes: sorting the prefixes is left out; the index results hold for every order. Which path tokens lead out of the root is an arbitrary predicate.
- Commits.CatalogGrowthIsAStep: the records read from a catalog are assumed to grow by new records behind the old ones. That holds while no append fails; a recovery after a commit whose line landed can make a later read shorter (`Catalog.RecoveryForks`), and an update may then find a prefix moved backwards.
- Agreement.RunsStayGood: the log of each segment is one hash chain with growing offsets, and ids are unique over all segments; a catalog commits only what a writer wrote. `AuditWriter` is not part of this model.
- Recovery.RecoveryEdges: one run's log of calls stands for the nodes of a trace; a recovery that names a call of another run is not part of it.
- Partition.RunPasses: the straight line of eleven passes is a loop over their numbers, and nodes are not sorted. Event ids are unique, as the index's primary key makes them.
- TraceGraph.TraceFullNodes: events come in the order `build` sorts them in, so the sorting inside is left out; `ignored` is a set here, the code's list may repeat an id. Edges and the display fields of nodes and regions are not modelled, and node ids are structured values, so that ids of different nodes never meet as strings.
- Recovery.RunnerHook.Classify: whether a result verifies a recovery is an input, and audit ids of tool calls are fresh.
- Memory.MemoryStore.AppendHistory: a crash leaves the counter file as it was or fully written; losing it is a step of its own. Entries of other writers are covered only by `Memory.NextCursorExceedsAll`.
- `SubagentTaskStore`, `GoalOrchestrationStore`, `AuditVerifier`, `Session.retain_recent_legal_suffix`, process supervision, the HTTP API, channels and configuration.
- `_find_traces_scan` and `_find_traces_indexed`, which use different notions of when a trace was last seen.
- Redaction patterns and the classification of tool errors by text.
