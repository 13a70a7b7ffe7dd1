# xiaoO: a verified model of its core protocols

xiaoO runs LLM agents: a turn loop with tools, a compacted conversation history, a rate-limited and
retried model client, an encrypted secrets store shared between processes, a registry of background
operations, and language-server clients. This project models the parts of it that decide something
hard and proves what they keep, over every input, every interleaving and every run.

| file | what it models |
|---|---|
| `SecretsFormat`, `SecretsProtocol`, `SecretsProofs`, `SecretsMeaning`, `SecretsProgress` | the secrets store: file lock, temp file and rename, lazily created master key, lock-free readers, v1 to v2 migration, I/O errors and crashes at any system call |
| `Messages`, `Compaction`, `ContextManager`, `HistoryRuns`, `CompressMeaning` | chat histories, the compaction window and its retraction loop, compression, and whole runs of appends and compactions |
| `SummaryText`, `SummarySelection`, `SummaryRender`, `SummaryMeaning` | the printed summary, reading it back, choosing its lines within a token budget, and rendering messages as its source lines |
| `TokenCache` | token counts, their cache, and pruning of old tool output |
| `ToolExec`, `ToolMeaning`, `LoopHistory`, `TurnSpec`, `TurnProofs`, `TurnMeaning`, `LoopLog`, `AgentLoop`, `Resume` | tool calls and results; one turn as a function, with context recovery, invalid-call retry and suspension; what turns and runs keep; the loop itself, proved to play that function; suspended calls and their results |
| `Streaming` | the throttled display of a streamed answer |
| `RateLimit`, `RequestPolicy` | the admission gate (semaphore and token bucket) and the retry policy |
| `McpRegistry`, `McpRuns`, `McpMeaning` | the registry of background agent operations |
| `Framing`, `LspClient` | Content-Length framing of the Language Server Protocol 3.17 (Base Protocol, Header Part) and the table of pending requests |
| `JsonRepair`, `JsonMeaning` | closing truncated JSON and unwrapping JSON encoded as a string (RFC 8259, sections 2 and 7) |
| `Options`, `Bytes`, `Chars`, `Lists` | shared helpers |

Concurrent and long-running parts are transition systems: a state, an event type whose values carry
every choice of the environment, and a fold over event sequences, so a theorem about every event
sequence is a theorem about every interleaving or run. An event that is impossible in a state leaves
it alone. Objects the program updates in place are classes whose methods are proved against functions
on their values. The files ending in `Meaning` say what those functions compute in other terms: the events of a
run, the characters of a text, the fields of a message. The environment appears as parameters: encryption is a record of functions with a
round trip, an LLM call, a tool execution, a hook or a compression verdict is an arbitrary outcome,
clocks and durations are numbers (reals where the program uses `f64` or `Duration`), and random choices
are inputs.

## Model

| member | source | states |
|---|---|---|
| `SecretsFormat.KeyFileVerifiesExactlyWhenComplete` | apps/vault/src/instance_key.rs:162-206 | a prefix of a key file verifies exactly if it is the whole file, and then gives back its key: a torn key is never mistaken for a key |
| `SecretsFormat.StoreRoundTrip` | apps/shared/src/llm_secrets.rs:359-445 | a sealed v2 store opens with its key to the same store, and is not taken for a v1 store |
| `SecretsFormat.DecodeKeepsWorking` | apps/shared/src/llm_secrets.rs:391-445 | what decodes without a key, or with one, decodes the same once that key exists |
| `SecretsProofs.DecideIsApply` | apps/shared/src/llm_secrets.rs:103-138 | what a writer does with the store it loaded (publish, remove the file, nothing) is the sequential meaning of its operation |
| `SecretsProofs.KeyStepLocal` | apps/vault/src/instance_key.rs:47-140 | no step of `load_or_create` changes a published store or an existing complete key; the key it hands out is the one on disk |
| `SecretsProofs.PublishStepLocal` | apps/shared/src/llm_secrets.rs:300-344 | sealing and the temp file leave store and key alone; the rename puts a complete sealed store in place at once |
| `SecretsProofs.LoadingKeepsInv` | apps/shared/src/llm_secrets.rs:258-298 | reading the store in pieces under the lock keeps the protocol invariant |
| `SecretsProofs.KeyingKeepsInv` | apps/vault/src/instance_key.rs:47-140 | every step of key loading and creation, by the lock holder, keeps the protocol invariant |
| `SecretsProofs.PublishingKeepsInv` | apps/shared/src/llm_secrets.rs:300-325 | every step of publication keeps the protocol invariant |
| `SecretsProofs.UnlinkingKeepsInv` | apps/shared/src/llm_secrets.rs:118-138 | removing the file of an emptied store keeps the protocol invariant |
| `SecretsProofs.FailureKeepsInv` | apps/shared/src/llm_secrets.rs:64-86 | an I/O error or a crash at any point keeps the protocol invariant and frees the lock |
| `SecretsProofs.NextKeepsInv` | apps/shared/src/llm_secrets.rs:60-138 | every event of every process keeps the protocol invariant and what it must not disturb |
| `SecretsProofs.RunKeepsInv` | apps/shared/src/llm_secrets.rs:60-325 | the invariant holds after every interleaving from every readable start |
| `SecretsProofs.StoreIsLinearizable` | apps/shared/src/llm_secrets.rs:60-138 | in every interleaving with crashes the store on disk decodes to the committed operations applied one at a time in lock order, each with its sequential result, and every operation that returned is among them |
| `SecretsProofs.LockFreeReadIsLinearizable` | apps/shared/src/llm_secrets.rs:456-494 | a lock-free read that finishes returns a store committed between its start and its end |
| `SecretsProofs.RunIsStable` | apps/vault/src/instance_key.rs:47-140 | over any continuation of a run a complete key and every published store stay as they are |
| `SecretsProofs.KeyAndStoresAreForever` | apps/vault/src/instance_key.rs:47-140 | a complete key file is never replaced, and every v2 store ever published stays readable for ever |
| `SecretsProofs.V2StoreHasItsKey` | apps/shared/src/llm_secrets.rs:391-445 | in every reachable state a v2 store on disk has a complete key file whose tag matches it |
| `SecretsProofs.NoCreateRaceUnderLock` | apps/vault/src/instance_key.rs:108-132 | under the store lock no process ever loses the race to create the key |
| `SecretsProofs.KeyIsLostWithoutLock` | apps/vault/src/instance_key.rs:79-140 | without the lock two creators can interleave so that one is handed a key that is not the one in the key file: the lock is needed |
| `SecretsProofs.SecretSurvives` | apps/shared/src/llm_secrets.rs:140-196 | along every run a secret on disk keeps its value until a save or deletion of its name commits (a token: a deletion), whatever is auto-saved, even under its name, migrated, fails or crashes |
| `SecretsMeaning.StoreByName` | apps/shared/src/llm_secrets.rs:103-196 | after every run, what the store on disk holds for a name is read off the commits: an API key has the value of the last save of its name, or of an auto-save that found nothing, unless deleted since, and without such a commit the one of the start; a token is the one of the start until a deletion; a name is in neither map exactly if it never was or its last deletion was not followed by a write |
| `SecretsMeaning.SavedIsFound` | apps/shared/src/llm_secrets.rs:103-116 | a save that committed, with no save or deletion of its name since, is what a load finds |
| `SecretsMeaning.DeletedIsGone` | apps/shared/src/llm_secrets.rs:118-138 | a deletion that committed, with no write of its name since, leaves nothing under the name |
| `SecretsMeaning.DeleteReportsPresence` | apps/shared/src/llm_secrets.rs:118-138 | in every run a deletion reports whether there was something to delete, and every other operation success |
| `SecretsMeaning.FileIsRemovedIff` | apps/shared/src/llm_secrets.rs:118-138 | the store file goes exactly if a deletion takes the only name there is |
| `SecretsMeaning.LegacyStoreReads` | apps/shared/src/llm_secrets.rs:258-298 | a v1 store opens with the built-in v1 key to what was sealed; a missing or empty file is a store without entries |
| `SecretsMeaning.WrongKeyIsRefused` | apps/shared/src/llm_secrets.rs:391-445 | a v2 store is refused without its key and with one whose tag it does not carry; so are other versions and files that are too short |
| `SecretsMeaning.MigrationIsForGood` | apps/shared/src/llm_secrets.rs:224-256 | once a migration has committed, the store on disk is never a v1 store again, however the run goes on |
| `SecretsProgress.LoneWriterFinishes` | apps/vault/src/instance_key.rs:47-140 | after every run, with whatever errors and crashes, a waiting writer that finds the lock free and is left alone finishes and its operation is committed, as long as the key file is missing, empty or complete and, for a migration, the store is still there |
| `Compaction.FirstNeededIsFirst` | crates/compact/src/compaction.rs:187-227 | the required start is the earliest message of the window that a kept message depends on |
| `Compaction.RetractIsGreatest` | crates/compact/src/compaction.rs:166-185 | retraction stops at a closed cut at or above the floor, and no greater cut at or below the proposed one is closed |
| `Compaction.AdjustedCutIsGreatestClosed` | crates/compact/src/compaction.rs:166-185 | the adjusted cut is the greatest cut at or below the proposed one such that nothing kept needs a message between floor and cut |
| `Compaction.KeptResultIds` | crates/compact/src/compaction.rs:229-238 | exactly the ids of the tool results in the kept messages |
| `Compaction.EarliestUse` | crates/compact/src/compaction.rs:187-212 | the earliest message of the window with a tool use among the given ids |
| `Compaction.EarliestSameAssistant` | crates/compact/src/compaction.rs:213-227 | the earliest message of the window that is part of the same assistant message as a kept one |
| `Compaction.FindRequiredKeepStart` | crates/compact/src/compaction.rs:187-227 | the scan finds the first message of the window that something kept needs |
| `Compaction.ComputeKeepStart` | crates/compact/src/compaction.rs:166-185 | the retraction loop ends, at the adjusted cut |
| `Compaction.FirstUser` | crates/compact/src/compaction.rs:60-93 | the position of the first user message |
| `Compaction.Unprotected` | crates/compact/src/compaction.rs:60-93 | the candidates of a window are in it and in order |
| `Compaction.UnprotectedMember` | crates/compact/src/compaction.rs:60-93 | a message is a candidate exactly if it lies in the window and is neither a system message nor the first user message |
| `Compaction.ApplyReplacement` | crates/compact/src/compaction.rs:95-117 | the loop puts the summary at the first candidate and drops the others |
| `Compaction.ReplacedShape` | crates/compact/src/compaction.rs:95-117 | the result is the protected front, the summary, the protected survivors of the window and the untouched rest, in order |
| `Compaction.DiscoveredIsLast` | crates/compact/src/compaction.rs:36-58 | the boundary is the last message in reach that has an id and something removable before it; none if there is none |
| `ContextManager.CutIsClosed` | crates/compact/src/compaction.rs:36-58 | the discovered boundary is found again, spares the tail, and yields a closed cut |
| `ContextManager.CompressShape` | crates/compact/src/manager.rs:110-180 | a successful compression changes nothing, or replaces every unprotected message before a closed cut by one summary at the first of them |
| `ContextManager.CompressSplits` | crates/compact/src/manager.rs:110-180 | what a compression leaves is a front without tools and a suffix kept whole from a closed cut on |
| `ContextManager.CompressKeepsPairing` | crates/compact/src/manager.rs:191-236 | compression keeps role discipline and results after their uses, and keeps every result that followed a retained use |
| `ContextManager.ClosedCutSplitsWell` | crates/compact/src/compaction.rs:187-227 | a closed cut never falls between a tool use and its results |
| `ContextManager.CompressKeepsWellPaired` | crates/compact/src/manager.rs:191-236 | compression keeps the provider protocol: uses followed at once by exactly their results, in order |
| `ContextManager.CompressKeepsProvisional` | crates/compact/src/manager.rs:191-236 | with one provisional message last, compression keeps it last and keeps the protocol of what stands before it |
| `HistoryRuns.CompactedParts` | crates/compact/src/compaction.rs:95-117 | one compaction keeps all system messages and the first user message and leaves one summary more than the kept suffix had |
| `HistoryRuns.SummaryAbsorbedOnce` | crates/compact/src/manager.rs:117-180 | after every run, a compaction that removes anything hands the recorded summary to the summariser exactly once: as its first candidate, never again from the record, and no other candidate is a summary unless one was appended looking like it |
| `HistoryRuns.AppendConserves` | crates/compact/src/manager.rs:191-236 | appending keeps the run invariant |
| `HistoryRuns.CompactConserves` | crates/compact/src/manager.rs:110-180 | compacting keeps the run invariant |
| `HistoryRuns.RunConserves` | crates/compact/src/manager.rs:110-236 | over every run of appends and compactions the system messages and the first user message survive, the last `preserve_tail` messages stay last, and the recorded summary is the first unprotected message and the only summary besides messages that were appended looking like one |
| `CompressMeaning.CutIs` | crates/compact/src/compaction.rs:166-227 | in terms of the messages alone: the cut goes at most to the first message with the id of the last possible pivot before the tail, and is the greatest such that no kept message holds the result of an earlier tool use or is part of the same assistant message as an earlier one |
| `CompressMeaning.CandidatesAre` | crates/compact/src/compaction.rs:60-93 | exactly the messages before the cut that are neither system messages nor the first user message, in order |
| `CompressMeaning.CompressMeans` | crates/compact/src/manager.rs:110-236 | below the threshold, or without candidates, nothing changes; otherwise one application of the summariser to the candidates, told the recorded summary only if none of them looks like one, decides: it fails exactly if that does, and else its text, in one message with their first id and last time at the first candidate's place, stands for them, the other messages stay in order, the text is recorded and the turn raised by one |
| `CompressMeaning.SummaryIsToldOnce` | crates/compact/src/manager.rs:117-180 | over every run the summariser that a compression calls is told nothing beside the messages, and the first of them is the recorded summary if there is one |
| `RateLimit.TokenBucket.Acquire` | crates/llm-client/src/rate_limit.rs:174-188 | refills for the time passed up to the capacity, then takes one token or says how long to wait |
| `RateLimit.WaitIsExact` | crates/llm-client/src/rate_limit.rs:174-188 | after the wait it asked for, and not before, an undisturbed bucket has its token |
| `RateLimit.PermitsAreConserved` | crates/llm-client/src/rate_limit.rs:218-270 | every step keeps free permits plus admitted tasks constant |
| `RateLimit.NextKeepsInv` | crates/llm-client/src/rate_limit.rs:218-270 | every acquire, token wait, cancel and release keeps the account of permits, tokens and sends |
| `RateLimit.ConcurrencyIsBounded` | crates/llm-client/src/rate_limit.rs:218-270 | in every interleaving in-flight requests never exceed `max_concurrent`, and no permit is lost |
| `RateLimit.CancelConsumesNothing` | crates/llm-client/src/rate_limit.rs:218-270 | over every run the tokens taken (the full bucket and all refills less what is left) are the requests sent, these are the ones in flight or ended in flight, and all permits are free or with an admitted task: waiters that gave up took nothing |
| `RateLimit.TokenStepMeans` | crates/llm-client/src/rate_limit.rs:174-188 | a permit holder that is awake is sent at once if a token is there, and otherwise sleeps exactly until one is |
| `RateLimit.LoneTaskIsSent` | crates/llm-client/src/rate_limit.rs:218-245 | after every run a queued task that finds a permit free and is left alone is sent, at once or after the one wait it is told |
| `RateLimit.SixtySecondBound` | crates/llm-client/src/rate_limit.rs:144-188 | in any window of sixty seconds at most `requests_per_minute + max_concurrent` requests are sent |
| `ToolExec.FirstMatch` | crates/core/src/tool_exec.rs:326-359 | a name is found exactly if some visible tool has the given squashed name, and it is one of them |
| `ToolExec.FirstMatchIsFirst` | crates/core/src/tool_exec.rs:339-347 | no visible tool before the one found has that squashed name |
| `ToolExec.SynthesizeMissingCallIds` | crates/core/src/tool_exec.rs:318-324 | blank ids become turn-scoped ones, others stay |
| `ToolExec.RepairToolNames` | crates/core/src/tool_exec.rs:326-359 | a visible name stays; another becomes the first visible name equal to it up to case and punctuation |
| `ToolExec.NormalizedIds` | crates/core/src/tool_exec.rs:68-79 | after normalisation a given id stays and a blank one is `call_<turn>_<index>`, inputs are untouched, and a name changes only to a visible one |
| `ToolExec.RepairIsIdempotent` | crates/core/src/tool_exec.rs:326-359 | repairing a name twice is repairing it once |
| `ToolExec.JoinsLastIsStableSort` | crates/core/src/tool_exec.rs:105-110 | the executed calls are a permutation of the valid ones with every `join_subagent` last, each kind in its original order |
| `ToolExec.StreakIsKept` | crates/core/src/tool_exec.rs:234-279 | the counters hold the length of the current run of identical results, modulo three |
| `ToolExec.NoteEveryThird` | crates/core/src/tool_exec.rs:234-279 | a note falls due exactly at every third identical result in a row |
| `ToolMeaning.SquashAlikeIff` | crates/core/src/tool_exec.rs:333-338 | two names squash alike exactly if they differ only in ASCII case and in characters other than letters and digits |
| `ToolMeaning.RepairedNameIs` | crates/core/src/tool_exec.rs:326-359 | a visible name stays; another becomes the first visible name that differs from it only so, and stays if there is none |
| `ToolMeaning.SynthesizedIdsDiffer` | crates/core/src/tool_exec.rs:313-324 | ids made for different turns or different calls of a turn differ |
| `ToolMeaning.RepeatsIsRun` | crates/core/src/tool_exec.rs:234-310 | the counted repetitions are the results at the end that agree in tool, input, failure and output, and no more |
| `ToolMeaning.NoteIsDueIff` | crates/core/src/tool_exec.rs:234-279 | after any results the next one calls for a note exactly if it completes a run whose length is a multiple of three |
| `LoopHistory.AssistantUses` | crates/core/src/agent_loop.rs:1962-1993 | the appended assistant message uses exactly the given calls, in order, and reports no result |
| `LoopHistory.ExchangeIsPaired` | crates/core/src/tool_exec.rs:182-232 | an assistant message followed by one result per call, in call order, is a complete exchange |
| `LoopHistory.CompressStepKeepsSound` | crates/core/src/agent_loop.rs:623-776 | compressing, pruning and refilling the caches keeps protocol, roles and cached counts sound |
| `LoopHistory.CompressStepKeepsProvisional` | crates/core/src/agent_loop.rs:697-763 | such a step leaves a provisional error message last, changed at most in its cached count |
| `TurnProofs.RetryPopsWhatItPushed` | crates/core/src/tool_exec.rs:88-104 | whether or not the retry compressed the history, the message popped after it is the one pushed before it, and what is left is sound |
| `TurnProofs.SettleKeepsSound` | crates/core/src/tool_exec.rs:81-104 | the history the settled answer is appended to is sound: with a retry it is the one recovery left, less exactly the error message pushed for it |
| `TurnProofs.PrepareKeepsSound` | crates/core/src/agent_loop.rs:542-621 | queued messages, compression, request and budget check keep a sound history sound |
| `TurnProofs.TurnAppendsItsExchange` | crates/core/src/tool_exec.rs:24-232 | with the tool path on, a turn with calls fails exactly if the model call or the retry does, and then appends nothing for it; otherwise it appends to a sound history exactly one assistant message holding the valid calls of the settled answer, joins last, then the results of executing them, one per call not suspended, in call order, and the run of identical results counts on through them; a note or reminder follows only if nothing is suspended; the turn ends on hold for exactly the suspended calls, and without any goes on unless cancelled, stopped by rule or at the turn limit |
| `TurnProofs.TurnAppendsItsAnswer` | crates/core/src/tool_exec.rs:24-66 | any other turn fails exactly if the model call does, and otherwise appends the model's answer as it is, or nothing if there was none; without calls the loop goes on only for the one plan reminder |
| `TurnProofs.TurnIsSoundIff` | crates/core/src/agent_loop.rs:169-279 | from a sound history a turn leaves a sound one if and only if the model was not reached, or asked for no tools, or the tool path is on and either the retry of an invalid call fails or no executed call is suspended |
| `TurnMeaning.AskIs` | crates/core/src/agent_loop.rs:406-621 | a turn up to its first answer is its steps one after the other: queued messages counted and appended, compression if needed, the request, compression again if over budget, the call, and after an overlong context compression and one more call; each failure ends it where it stands |
| `TurnMeaning.SettledIs` | crates/core/src/tool_exec.rs:81-104 | the answer whose calls count is the first one; if all it asks for is one call without a name, it is what the model said when asked again, or the first one with its names repaired if it said nothing |
| `TurnMeaning.SettleIs` | crates/core/src/tool_exec.rs:81-104 | only such an answer is retried: the model is told of the error, asked again if a request can be built, and the error is taken out of the history that leaves |
| `TurnMeaning.ExecutedAre` | crates/core/src/tool_exec.rs:105-116 | the executed calls are the named ones, each as often as asked for, with every `join_subagent` last |
| `TurnMeaning.TurnShowsExchange` | crates/core/src/tool_exec.rs:182-232 | message by message: the turn appends the answer that counts, with its text, reasoning and executed calls, then for each call not suspended, in order, one block with that call's id and name and the text of its outcome, marked as an error exactly if it failed, and nothing but notes to the model after that |
| `TurnMeaning.TurnShowsAnswer` | crates/core/src/agent_loop.rs:1962-1993 | without calls: the answer, or nothing if the model said nothing, then at most the reminder; the turn is cancelled, at the limit or complete, and goes on only for the reminder |
| `TurnMeaning.TurnWithoutTools` | crates/core/src/tool_exec.rs:24-66 | without tool execution, a runtime or an agent id: the answer with its calls as they are, no result, and at most the reminder |
| `TurnMeaning.TurnEndsAfterCalls` | crates/core/src/agent_loop.rs:1890-1960 | a turn whose executed calls all returned is cancelled if asked to, complete if a listed tool succeeded, at the limit from turn `max_turns` on, and otherwise goes on |
| `TurnMeaning.NotesMean` | crates/core/src/tool_exec.rs:219-279 | a batch is followed by a note if and only if no call is suspended and a reported result completes a run of three, six, nine identical ones, and so on, counted over all earlier results; it names the tool of the last that does |
| `TurnProofs.TurnIsCounted` | crates/core/src/agent_loop.rs:281-352 | a turn continues only below the turn limit, makes at most four model calls, reminds only if there was no reminder yet, and counts exactly if it ended neither suspended, cancelled nor in error |
| `TurnProofs.RunIsCounted` | crates/core/src/agent_loop.rs:169-352 | every run stays within `max_turns`, makes at most four model calls a turn, offers the visible tools in each and none in turn `max_turns`, reminds at most once per loop state, and counts exactly the turns that count |
| `TurnProofs.RunStaysSound` | crates/core/src/agent_loop.rs:169-404 | every run of turns that queue plain messages and leave no call unanswered for want of tools keeps the history sound, unless its last turn is suspended |
| `LoopLog.LogCounts` | crates/core/src/agent_loop.rs:169-352 | the same bounds for any turn function that keeps them turn by turn |
| `LoopLog.LogKeepsSound` | crates/core/src/agent_loop.rs:169-404 | soundness over a run follows from soundness turn by turn, for any turn function |
| `Resume.WaitingCallsComeLast` | crates/core/src/tool_exec.rs:105-110 | if only joins wait, the suspended calls are the last ones of the batch if and only if no finished join follows a waiting one |
| `Resume.ResumeCompletesExchange` | crates/core/src/tool_exec.rs:182-232 | with the suspended calls last, appending their results later completes the exchange |
| `Resume.ResumeCompletesIff` | crates/core/src/tool_exec.rs:182-232 | calls with distinct ids: resuming completes the exchange if and only if the suspended calls came last |
| `Resume.FinishedJoinAfterWaitingOne` | crates/core/src/tool_exec.rs:105-110 | two joins of which the first waits and the second is done: resuming leaves their results in the wrong order |
| `TurnProofs.CompressKeepsSound` | crates/core/src/agent_loop.rs:623-776 | a compression, needed or forced, successful or not, keeps a sound history sound |
| `AgentLoop.AgentLoop.LlmCallWithRecovery` | crates/core/src/agent_loop.rs:1636-1651 | one call, and, exactly if the context was too long, could be compressed and fits a request again, one more; history, answer and success are those of the call that counted |
| `AgentLoop.AgentLoop.NormalizedToolCalls` | crates/core/src/tool_exec.rs:68-79 | the turn's calls with ids and names repaired |
| `AgentLoop.AgentLoop.RetryInvalidCall` | crates/core/src/tool_exec.rs:84-104 | as many more model calls as the retry and its recovery take, none if no request could be built; afterwards the history is what recovery left without its last message, and the answer is the one after the retry |
| `AgentLoop.AgentLoop.SettleCalls` | crates/core/src/tool_exec.rs:81-104 | the answer whose calls count is the first one, or, if all it had was a single invalid call, the one after the retry |
| `AgentLoop.AgentLoop.ProcessLlmToolCalls` | crates/core/src/tool_exec.rs:81-127 | appends one assistant message holding exactly the valid calls of the settled answer, joins last, to the history settling left; on error nothing is appended |
| `AgentLoop.AgentLoop.ExecuteToolBatch` | crates/core/src/tool_exec.rs:163-180 | one result per call, in call order |
| `AgentLoop.AgentLoop.RecordToolResults` | crates/core/src/tool_exec.rs:182-232 | one pass over the results appends one message per call that is not suspended, in call order with nothing between, then at most one note and only if nothing is suspended; it hands back exactly the suspended calls, and a stop rule counts only if there are none |
| `AgentLoop.AgentLoop.RunToolCalls` | crates/core/src/tool_exec.rs:24-66 | the calls settled with at most one retry, appended, executed and recorded leave the history, answer, streak and stop flag of the specified exchange |
| `AgentLoop.AgentLoop.RunTools` | crates/core/src/tool_exec.rs:24-66 | without calls, or with the tool path off, only the answer is appended; otherwise the exchange of RunToolCalls |
| `AgentLoop.AgentLoop.Decide` | crates/core/src/agent_loop.rs:1890-1960 | the loop goes on exactly for tool calls it can execute or for the one plan reminder, never when cancelled, stopped or at the turn limit |
| `AgentLoop.AgentLoop.DrainPendingUserMessages` | crates/core/src/agent_loop.rs:406-426 | queued user messages are appended in order, counted |
| `AgentLoop.AgentLoop.CallModel` | crates/core/src/agent_loop.rs:170-242 | a turn up to its first answer: the history is prepared and, after an overlong context, compressed once more, in exactly the model calls this takes |
| `AgentLoop.AgentLoop.PlayTurn` | crates/core/src/agent_loop.rs:169-279 | a turn has exactly the effect of the turn function on history, compression record, turn count, reminder flag and streak, ends as it says, and makes exactly as many model calls as it says, all offering the tools of its turn number |
| `AgentLoop.AgentLoop.RunTurn` | crates/core/src/agent_loop.rs:169-370 | one recorded turn: the turn function on the state before it, logged with its number, its ending and exactly the model calls it made |
| `AgentLoop.AgentLoop.RunTurns` | crates/core/src/agent_loop.rs:169-279 | the loop plays the turns in order and stops at the first that does not continue; the model calls made are exactly those logged, turn by turn |
| `AgentLoop.AgentLoop.Run` | crates/core/src/agent_loop.rs:89-404 | every recorded turn is the turn function on the state the turns before it left, all but the last continued, the loop state is what they leave together, and the model calls made are exactly those recorded; with `max_turns = N > 0` the loop stops within N turns and offers no tools in turn N; it makes at most four model calls a turn, reminds at most once per loop state, counts exactly the turns that should count, and keeps the history sound as in RunStaysSound |
| `McpRegistry.AgentOperationRegistry.RegisterOperation` | apps/serverside/src/mcp_server.rs:259-311 | refused exactly if the session is busy; otherwise a queued record that is the session's active operation |
| `McpRegistry.AgentOperationRegistry.PollOperation` | apps/serverside/src/mcp_server.rs:313-335 | a finished operation is shown at once, a running one only when its next poll is due, which moves the due time |
| `McpRegistry.AgentOperationRegistry.MarkOperationRunning` | apps/serverside/src/mcp_server.rs:337-350 | only a running record is touched |
| `McpRegistry.AgentOperationRegistry.UpdateOperationLastText` | apps/serverside/src/mcp_server.rs:352-364 | only a running record is touched |
| `McpRegistry.AgentOperationRegistry.CompleteOperation` | apps/serverside/src/mcp_server.rs:422-461 | the record is done, no longer active, queued, and the oldest beyond sixteen are forgotten |
| `McpRegistry.AgentOperationRegistry.ReapExpiredCompleted` | apps/serverside/src/mcp_server.rs:366-393 | exactly the finished records past their retention go, from the map and from the queues |
| `McpRegistry.RegisterKeeps` | apps/serverside/src/mcp_server.rs:259-311 | registering a fresh id keeps the three maps in agreement |
| `McpRegistry.UpdateKeeps` | apps/serverside/src/mcp_server.rs:337-364 | progress updates and polls keep the three maps in agreement |
| `McpRegistry.CompleteKeeps` | apps/serverside/src/mcp_server.rs:422-461 | completing a running operation keeps the three maps in agreement |
| `McpRegistry.SecondCompletionBreaks` | apps/serverside/src/mcp_server.rs:422-461 | completing a finished operation again always breaks the agreement |
| `McpRegistry.CompleteKeepsIff` | apps/serverside/src/mcp_server.rs:422-461 | a completion keeps the agreement if and only if the operation was not already done |
| `McpRegistry.ReapKeeps` | apps/serverside/src/mcp_server.rs:366-393 | expiry keeps the three maps in agreement |
| `McpRuns.NextKeepsInv` | apps/serverside/src/mcp_server.rs:248-461 | every registry call keeps the run invariant |
| `McpRuns.RunsAreConsistent` | apps/serverside/src/mcp_server.rs:193-461 | in every reachable state: running iff active for its session, done iff queued exactly once, queues of one to sixteen, no running record dropped, and running snapshots of one operation at least 30 s apart |
| `McpRuns.DoneIsFinal` | apps/serverside/src/mcp_server.rs:422-461 | however a run goes on, a finished operation is there with the outcome it had, or forgotten, and once forgotten it never comes back |
| `McpMeaning.PollReturnsOutcome` | apps/serverside/src/mcp_server.rs:313-335 | polling a finished operation that is still in the registry returns the outcome its completion was given, at any later time; a forgotten one is unknown |
| `McpMeaning.PollIsDue` | apps/serverside/src/mcp_server.rs:313-335 | a running operation is shown exactly when 30 s have passed since it last was; before, a poll says how long to wait |
| `McpMeaning.RefusedIff` | apps/serverside/src/mcp_server.rs:249-311 | in every run a session is refused exactly while one of its operations is running |
| `McpMeaning.RecordsAreAsRegistered` | apps/serverside/src/mcp_server.rs:259-311 | every record has the session, workspace and origin it was registered with |
| `McpMeaning.RunningShowsProgress` | apps/serverside/src/mcp_server.rs:337-364 | after every run a running operation shows the last text and turn reported for it, and is active once a turn was |
| `McpMeaning.RunningShowsTime` | apps/serverside/src/mcp_server.rs:337-364 | and the time of the last report, or else of its registration |
| `McpMeaning.CompletionForgets` | apps/serverside/src/mcp_server.rs:422-461 | a completion frees the session and pushes out, with its record, exactly the oldest of sixteen finished operations of the session |
| `McpMeaning.ReapForgets` | apps/serverside/src/mcp_server.rs:366-393 | expiry drops exactly the finished records whose completion is the retention or longer ago |
| `Framing.DecimalRoundTrip` | crates/lsp/src/client.rs:165-196 | the decimal length written in a header parses back to itself |
| `Framing.HeaderBlock` | crates/lsp/src/client.rs:181-201 | any text lines up to a blank one are consumed exactly, in any order, and the last length header counts: one that cannot be read leaves no length |
| `Framing.LastLengthIs` | crates/lsp/src/client.rs:193-195 | the last length header counts, even if it cannot be read |
| `Framing.ParseUsizeIff` | crates/lsp/src/client.rs:193-195 | a length is an optional sign and digits only, below two to the sixty-fourth |
| `Framing.BlockIsRead` | crates/lsp/src/client.rs:181-228 | any block of headers: skipped without a length; with one the body follows, skipped if it is no message; a body that is not all there ends the stream |
| `Framing.FrameIs` | crates/lsp/src/client.rs:165-172 | a frame is `Content-Length: ` and the decimal length in ASCII, two line ends and the body |
| `Framing.ReaderLoop` | crates/lsp/src/client.rs:174-229 | the reader's two nested loops return exactly the messages the stream holds |
| `Framing.ReadFrame` | crates/lsp/src/client.rs:165-211 | a frame at the front is read as its message, leaving the rest |
| `Framing.FramesReadBack` | crates/lsp/src/client.rs:165-211 | every list of frames reads back as exactly its messages, in order |
| `Framing.CutFrameReadsNothing` | crates/lsp/src/client.rs:181-206 | no message is ever read from part of a frame |
| `Framing.PrefixOfFrames` | crates/lsp/src/client.rs:165-172 | the start of a stream of frames is some whole frames and a proper part of the next |
| `Framing.ArrivedReadsPrefix` | crates/lsp/src/client.rs:174-229 | whatever part of a stream has arrived reads as an initial part of its messages |
| `LspClient.StreamIsFrames` | crates/lsp/src/client.rs:120-141 | in every interleaving of writers the stream is whole frames in mutex order, then part of at most one more |
| `LspClient.ReaderSeesWhatWasSent` | crates/lsp/src/client.rs:138-229 | at every moment the reader decodes exactly the messages fully sent, in write order |
| `LspClient.TableKeepsInv` | crates/lsp/src/client.rs:88-118 | in every run ids are never reused and every request has received nothing while pending and one message after |
| `LspClient.RequestGetsItsFirstReply` | crates/lsp/src/client.rs:88-118 | a request is sent exactly the first message with its id read after it was entered |
| `LspClient.FirstReplyCarriesItsId` | crates/lsp/src/client.rs:213-219 | that is at most one message, and it carries the request's id |
| `LspClient.IdsInOrder` | crates/lsp/src/client.rs:88-90 | ids are handed out in order, from one on |
| `LspClient.Client.Allocate` | crates/lsp/src/client.rs:88-90 | a fresh id |
| `LspClient.Client.Enter` | crates/lsp/src/client.rs:97-99 | the request waits |
| `LspClient.Client.Dispatch` | crates/lsp/src/client.rs:213-219 | a message goes to the waiting request with its id, and to no other |
| `SummaryText.NormalIsFixed` | crates/compact/src/summary.rs:406-408 | a line without blanks at its ends and with single spaces within is its own normal form |
| `SummaryText.FixedIsNormal` | crates/compact/src/summary.rs:406-408 | normalising always gives such a line |
| `Chars.WhitespaceIs` | crates/compact/src/summary.rs:406-408 | the code points that count as blanks |
| `SummaryText.LinesOfJoined` | crates/compact/src/summary.rs:255-256 | joined lines split back into the same lines |
| `SummaryText.NormalizeAndDedupeLines` | crates/compact/src/summary.rs:315-335 | each non-empty line once, up to ASCII case, and the number of repetitions dropped |
| `SummaryText.DedupedKeepsEachOnce` | crates/compact/src/summary.rs:315-335 | no two lines left are equal up to case and none is missing up to case |
| `SummaryText.HeadingReads` | crates/compact/src/summary.rs:250-274 | every heading and notice prints as a line the reader skips |
| `SummaryText.DetailReads` | crates/compact/src/summary.rs:250-274 | a printed detail normalises to its bullet form |
| `SummaryText.PrintedSummaryReadsBack` | crates/compact/src/summary.rs:250-335 | reading back any printed selection returns exactly its details, in order, deduplicated, without those whose bullet reads as a heading |
| `SummaryText.SummaryRoundTrip` | crates/compact/src/summary.rs:250-335 | printing a whole summary and extracting it returns the previous and new lines, deduplicated, without reserved ones |
| `SummaryText.NothingLostIff` | crates/compact/src/summary.rs:250-335 | nothing but repetitions is lost if and only if every reserved line comes after a free line equal to it up to ASCII case |
| `SummarySelection.SelectSummaryLines` | crates/compact/src/summary.rs:353-382 | the passes over priorities and the sort compute the greedy selection |
| `SummarySelection.TokensMonotone` | crates/compact/src/estimator.rs:78-85 | longer text never takes fewer tokens |
| `SummarySelection.TokensAreFewest` | crates/compact/src/estimator.rs:78-85 | the fewest tokens whose characters cover the text |
| `SummarySelection.SizeOfPermutation` | crates/compact/src/summary.rs:384-395 | the order of lines does not change their total size |
| `SummarySelection.SelectionFits` | crates/compact/src/summary.rs:353-395 | the selected lines fit the budget in source order, though fitting was checked in order of priority |
| `SummarySelection.SelectionIsMaximal` | crates/compact/src/summary.rs:353-395 | no line left out could be added anywhere without exceeding the budget |
| `SummarySelection.PriorityDecides` | crates/compact/src/summary.rs:353-404 | a line is kept exactly if it fits behind the lines of higher priority, or earlier of its own, that were kept |
| `SummarySelection.OldNeverDisplacesNew` | crates/compact/src/summary.rs:353-404 | a new detail is left out only for want of room beside the heading and other new lines: old lines never displace it |
| `SummaryMeaning.BuiltIs` | crates/compact/src/summary.rs:276-313 | heading, scope, earlier lines under their heading if there are any, then the new ones, in order |
| `SummaryMeaning.KeptIff` | crates/compact/src/summary.rs:353-404 | a line is kept exactly if it still fits behind the kept lines before it: heading and scope, then new lines, then earlier ones, and earlier of its own kind |
| `SummaryMeaning.StoredIs` | crates/compact/src/summary.rs:137-157 | the stored lines are the kept ones in order, then, if any is missing and it still fits, how many are |
| `SummaryMeaning.BulletsAreStripped` | crates/compact/src/summary.rs:250-274 | a bullet of either kind is taken off, and nothing else |
| `SummarySelection.Summarize` | crates/compact/src/summary.rs:127-166 | the stored text is the selection with the notice if that fits; an error exactly if no new detail is left |
| `SummarySelection.StoredSummary` | crates/compact/src/summary.rs:127-176 | the stored text is within its budget, and extracting details from it returns exactly the selected ones, in order, deduplicated, without reserved ones |
| `SummaryRender.MostWordsIsGreatest` | crates/compact/src/summary.rs:513-540 | the accepted words are the most that fit |
| `SummaryRender.FitTextToTokenBudget` | crates/compact/src/summary.rs:513-552 | as many whole words as fit, or else as many characters as fit, and always within the budget |
| `SummaryRender.FittingTextIsKept` | crates/compact/src/summary.rs:513-540 | a text that fits once its blanks are normalised is kept whole |
| `SummaryRender.FittedIsUnique` | crates/compact/src/summary.rs:513-552 | budget and text leave no choice: there is only one such fitting |
| `SummaryRender.RenderBlock` | crates/compact/src/summary.rs:458-511 | a block's label and as much of its text as the rest of the budget allows |
| `SummaryRender.PrefixMeans` | crates/compact/src/summary.rs:458-511 | a block's label is its kind, then tool and call id, then whether it failed |
| `SummaryRender.RoleNamesDiffer` | crates/compact/src/summary.rs:416-425 | roles are told apart by their names |
| `SummaryRender.TokensOfConcat` | crates/compact/src/estimator.rs:78-85 | two texts joined never take more tokens than apart |
| `SummaryRender.RenderBlocks` | crates/compact/src/summary.rs:429-448 | the first blocks, in order, each within what the ones before it leave, stopping only when nothing is left or the line with the next block would not fit |
| `SummaryRender.RenderingIsUnique` | crates/compact/src/summary.rs:429-552 | budget and blocks leave no choice: there is only one such rendering |
| `SummaryRender.RenderMessageLine` | crates/compact/src/summary.rs:416-456 | a message's line is its role and as many of its first blocks as the role leaves room for, none if it leaves none, and fits whenever it leaves any |
| `JsonRepair.RepairUnclosedJson` | crates/llm-client/src/convert.rs:199-240 | the scan with its stack of closers computes the repair |
| `JsonRepair.RepairBalances` | crates/llm-client/src/convert.rs:199-240 | a repaired text is the input and closers only, is balanced outside any string, and is not repaired again |
| `JsonRepair.RepairIsComplete` | crates/llm-client/src/convert.rs:199-240 | closers balance a text exactly if they are the ones repair appends |
| `JsonMeaning.LiteralIsTransparent` | crates/llm-client/src/convert.rs:199-219 | a whole string literal leaves the scan as it was, whatever it holds |
| `JsonMeaning.EncodedIsTransparent` | crates/llm-client/src/convert.rs:199-219 | in particular any string written as a JSON string literal |
| `JsonMeaning.DocIsTransparent` | crates/llm-client/src/convert.rs:199-228 | so does any text of literals, closed groups in brackets and other characters |
| `JsonMeaning.RepairClosesWhatIsOpen` | crates/llm-client/src/convert.rs:199-240 | of a text cut off within brackets, repair appends exactly the closers of the open ones outside literals, innermost first; it leaves a text without open brackets alone |
| `JsonMeaning.CutLiteralIsNotRepaired` | crates/llm-client/src/convert.rs:230-232 | a text cut off within a string literal is not repaired |
| `JsonMeaning.WrongCloserIsNotRepaired` | crates/llm-client/src/convert.rs:222-228 | a closer that does not fit the innermost open bracket makes a text beyond repair |
| `JsonMeaning.EscapesMean` | crates/llm-client/src/convert.rs:181-197 | the two-character escapes and their code points |
| `JsonMeaning.UnicodeEscapeReads` | crates/llm-client/src/convert.rs:181-197 | every character written as one or two unicode escapes reads back as itself |
| `JsonMeaning.ArgumentsMean` | crates/llm-client/src/convert.rs:172-197 | blank arguments are nothing; readable ones are what they say, a string being parsed in turn; unreadable ones are what they say once the open brackets are closed, and nothing if that cannot be read either |
| `JsonRepair.ReadChars` | crates/llm-client/src/convert.rs:181-197 | a string literal is longer than the string it denotes and ends with a quote |
| `JsonRepair.ReadString` | crates/llm-client/src/convert.rs:181-197 | a decoded string is at least two characters shorter than its text, and no text ending in a closer is a string |
| `JsonRepair.ParseToolArguments` | crates/llm-client/src/convert.rs:172-197 | parsing ends on a strictly shrinking text and never returns a bare string |
| `JsonRepair.RepairedIsNoString` | crates/llm-client/src/convert.rs:181-190 | a repaired text never decodes to a string |
| `JsonRepair.EncodedReads` | crates/llm-client/src/convert.rs:181-190 | a string written as a JSON string literal reads back as itself |
| `JsonRepair.WrappingIsUndone` | crates/llm-client/src/convert.rs:172-197 | arguments encoded as a string any number of times parse as if they had not been |
| `JsonRepair.ClosersAreSupplied` | crates/llm-client/src/convert.rs:172-240 | arguments that cannot be read and lack only closers parse as they do with them |
| `JsonRepair.TruncationIsUndone` | crates/llm-client/src/convert.rs:172-240 | arguments cut off anywhere among their last closers, and not readable as they are, parse as the whole, given a reader to whom blanks before closers mean nothing |
| `RequestPolicy.ExponentialBounds` | crates/llm-client/src/request_policy.rs:104-108 | the exponential part lies between 200 ms and 5 s |
| `RequestPolicy.BackoffBounds` | crates/llm-client/src/request_policy.rs:80-116 | a rate-limit wait honours the hint up to the cap and stays below 1.2 times the cap; others stay below 6 s |
| `RequestPolicy.RunWithBudget` | crates/llm-client/src/request_policy.rs:166-247 | however late timers fire: every attempt but the last was retried as its error allows and after the wait it asks for; every attempt started before the deadline, within its own budget and what was left; the loop stopped for the stated reason; all time is accounted for, past the deadline at most by how late the last timer fired |
| `RequestPolicy.NoCallAfterDeadline` | crates/llm-client/src/request_policy.rs:179-186 | no call of a run starts at or after the overall deadline |
| `RequestPolicy.OutOfTimeMeansLate` | crates/llm-client/src/request_policy.rs:179-186 | with a positive budget the loop finds it exhausted before an attempt only if the wait before it overran, and then by less than the timer was late |
| `RequestPolicy.CallsAreCounted` | crates/llm-client/src/request_policy.rs:166-247 | at most six calls, and the reported attempts are the calls made, however late timers fire |
| `RequestPolicy.VerdictMeans` | crates/llm-client/src/request_policy.rs:68-78 | answered exactly if the last call succeeded; rejected exactly if it failed with an error that is neither transport, rate limit nor an API error naming the network; exhausted in all other cases |
| `RequestPolicy.RetriedIff` | crates/llm-client/src/request_policy.rs:207-247 | a transient error below its retry limit whose wait would end before the deadline is followed by another call, unless the wait overran the deadline; an attempt followed by another had such an error and was followed by that wait |
| `RequestPolicy.ExponentialIs` | crates/llm-client/src/request_policy.rs:104-108 | 200 ms doubled with every attempt, and five seconds from the sixth on |
| `RequestPolicy.BackoffIs` | crates/llm-client/src/request_policy.rs:104-116 | a rate-limit wait is the hint or the exponential part, whichever is longer, at most two minutes, and up to a fifth more; any other is the exponential part, up to a fifth less or more |
| `RequestPolicy.AttemptMeans` | crates/llm-client/src/request_policy.rs:190-206 | an attempt is the call's own outcome if it ends within its budget and the time left, and a timeout if it does not end within the smaller and its timer's delay |
| `RequestPolicy.WaitsAreBounded` | crates/llm-client/src/request_policy.rs:80-116 | every wait of a run lies within its bounds, but for how late its timer fires |
| `RequestPolicy.LateStreamRetriesAreRateLimits` | crates/llm-client/src/request_policy.rs:213-229 | on a stream an attempt retried with index three or more was rate-limited |
| `RequestPolicy.Run` | crates/llm-client/src/request_policy.rs:120-132 | a foreground call: within 360 s but for the last timer, one to six calls, all counted |
| `RequestPolicy.RunBackground` | crates/llm-client/src/request_policy.rs:137-149 | a background call: within 240 s but for the last timer, one to six calls, all counted |
| `RequestPolicy.RunStream` | crates/llm-client/src/request_policy.rs:158-164 | a streaming call: one to six calls, all counted, late retries only after rate limits |
| `TokenCache.PruneMessage` | crates/core/src/agent_loop.rs:786-800 | the blocks of one message, pruned in order |
| `TokenCache.PruneStaleToolOutput` | crates/core/src/agent_loop.rs:778-803 | the in-place pass, newest message first, computes the pruned history |
| `TokenCache.PruneIsIdempotent` | crates/core/src/agent_loop.rs:778-803 | pruning a pruned history changes nothing |
| `TokenCache.PruneKeeps` | crates/core/src/agent_loop.rs:778-803 | message by message everything but outputs stays, every call id stays, and no count rises |
| `TokenCache.PruneKeepsRecentOnly` | crates/core/src/agent_loop.rs:778-803 | nothing changes while the output from a message on is below the window; once the output after it fills the window only short outputs and markers are left in it |
| `TokenCache.BytesPerChar` | crates/core/src/token_estimator.rs:99-108 | a text has at least as many bytes as characters, at most four times as many, and exactly as many if it is ASCII |
| `TokenCache.TextTokensAre` | crates/core/src/token_estimator.rs:99-108 | a quarter of the characters, or half of them if any is beyond ASCII, and ten more |
| `TokenCache.BlockTokensAre` | crates/core/src/token_estimator.rs:68-80 | what each kind of block costs beside its text |
| `Chars.CharBytesAre` | crates/core/src/agent_loop.rs:786-800 | UTF-8 takes a further byte from 128, 2048 and 65536 on |
| `TokenCache.PruneBlockShrinks` | crates/core/src/agent_loop.rs:790-799 | the marker never counts for more than the output it replaces |
| `TokenCache.CompressKeepsCovers` | crates/core/src/agent_loop.rs:712-763 | compression keeps cached counts at or above recounted ones |
| `TokenCache.CachesCoverContent` | crates/core/src/agent_loop.rs:712-803 | over every run in which messages arrive uncached, every cached count is at least the count of the message's current content |
| `TokenCache.EveryMessageStaysCached` | crates/core/src/token_estimator.rs:110-114 | once every message is cached, every message stays cached over every run |
| `TokenCache.BudgetCheckIsSafe` | crates/core/src/agent_loop.rs:542-569 | a history that passes the budget check on cached counts would pass it counted afresh |
| `TokenCache.PassingHistoryIsSmall` | crates/core/src/agent_loop.rs:542-569 | a history that passes the budget check has at most four characters for each token available |
| `TokenCache.CompressStepPrunes` | crates/core/src/agent_loop.rs:697-763 | a compression step keeps every message of the compression, with its count cached and a cached one kept; tool output goes from a message once the output after it amounts to 40000 bytes, unless no longer than 1000, and not before |
| `Streaming.DisplayIsFilteredPrefix` | crates/core/src/agent_loop.rs:1704-1838 | at every moment of every stream the display shows the filtered form of a prefix of the text since the last reset, less than 32 bytes behind; with deltas all of it |
| `Streaming.FlushedDisplayIsAnswer` | crates/core/src/agent_loop.rs:1497-1525 | after the final flush both paths show the filtered full text |
| `Streaming.NothingIsHeldBackLong` | crates/core/src/agent_loop.rs:1656-1697 | at every moment of every stream a channel holds back only its latest pieces, under 32 bytes together and each less than 80 ms younger than the last one shown; text held back is 80 ms older than the latest piece if and only if everything since the last reset is under 32 bytes and took that long |
| `Streaming.FirstWordsWait` | crates/core/src/agent_loop.rs:1680-1697 | two short chunks, however far apart, show nothing: there is no limit on latency before the first snapshot |
| `Streaming.SnapshotIff` | crates/core/src/agent_loop.rs:1680-1697 | one more piece is shown, with all before it, exactly if 32 bytes are held back or 80 ms have passed since a snapshot |
| `Streaming.FilterInOrder` | crates/core/src/agent_loop.rs:1497-1525 | secrets are taken out one after the other, each by one replacement |
| `Streaming.AssistantStream.Push` | crates/core/src/agent_loop.rs:1747-1828 | one delta: appended, and shown as it is, as a snapshot, or not yet |
| `Streaming.AssistantStream.StreamChunk` | crates/core/src/agent_loop.rs:1704-1838 | one chunk: a reset blanks both channels, anything else feeds reasoning, then text |
| `Streaming.AssistantStream.StreamAnswer` | crates/core/src/agent_loop.rs:1497-1525 | streaming a whole answer and flushing it leaves the filtered answer on display |

## Where the code and its comments differ

- `crates/core/src/agent_loop.rs:754-756` calls the compressed messages fresh and without token caches. Retained messages keep their cached count, so a count can be older than the pruned content; the proof that cached counts never fall below recounted ones follows the code.
- `crates/core/src/agent_loop.rs:1658` names its threshold in characters. The code compares byte lengths, and so does the model.
- `crates/core/src/agent_loop.rs:1657` says slow streams still progress. Latency counts from the last snapshot, so before the first one a stream under 32 bytes shows nothing until it ends (`FirstWordsWait`); `NothingIsHeldBackLong` gives the exact condition.

## Left out

- The SDF mode of the secrets store, and the key derivation of v1 stores: encryption and tags are functions with round-trip properties.
- Power loss: a crash is a crash of a process, and what a process wrote stays written. The calls to `fsync` are not modelled.
- A store that cannot be read at the start: every run begins with a readable store or none, since the program reports an unreadable one as an error.
- SecretsProofs.KeyStepLocal: the key file is read in one step, not one per read call. A complete key never changes (`KeyAndStoresAreForever`), only the lock holder creates one, and a part of one does not verify (`KeyFileVerifiesExactlyWhenComplete`).
- SecretsProofs.StoreIsLinearizable: the check of the store's first byte before a migration takes the lock is one step, not one per read call; files that were ever published never change.
- Sharing of limiters between providers and changes of global limits while a gate is in use.
- RateLimit.SixtySecondBound: a request counts as sent when it takes its token; the time from there to the wire is not modelled.
- RequestPolicy.RunWithBudget: computation takes no time of its own, so all delay is in calls and timers; the rounding of `f64` durations is not modelled.
- Caller-supplied compaction boundaries after a pivot, which `compress` never passes and which do not keep pairing in both directions.
- TurnProofs.RunStaysSound: with the tool path off the code appends tool uses without results; `TurnIsSoundIff` shows that such a turn always leaves the protocol broken, so runs are stated without them.
- AgentLoop.AgentLoop.Run: the loop is driven by a finite list of turns and says whether it would go on after them, since without a turn limit it need not end.
- ToolExec.NoteEveryThird: results are compared by tool, input and output themselves, not by a 64-bit hash of them.
- Global uniqueness of synthesized call ids: `turn_count` does not advance on suspension or cancellation, so pairing is stated by position and by the ids given.
- AgentLoop.AgentLoop.ExecuteToolBatch: whether calls run one after the other or side by side makes no difference to the order of results; side effects of tools on each other are not modelled.
- Commands denied by a hook before a run, hooks that turn a user message into something other than one, and skill prefixes.
- The full wording of notes, reminders and error messages beyond the part that depends on data, and the truncation of tool output (`truncate_tool_output`).
- JsonRepair.ParseToolArguments: JSON values other than strings are read by an arbitrary function.
- Framing.ReaderLoop: which header lines are valid UTF-8 is an arbitrary predicate that holds of ASCII lines, and only ASCII blanks are trimmed.
- LspClient.RequestGetsItsFirstReply: the 64-bit wrap-around of the id counter, timeouts (which leave the entry in the table) and writers cancelled in the middle of a frame.
- Streaming.FlushedDisplayIsAnswer: stated for an answer equal to the accumulated text; secret filtering is an arbitrary function applied secret by secret.
- McpRuns.RunsAreConsistent: assumes fresh operation ids and one completion per operation; `CompleteKeepsIff` shows that the second assumption is needed.
- HTTP, server-sent events, TLS, tracing, configuration, the command line and the web interface.
