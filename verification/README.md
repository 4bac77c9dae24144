# Verification models for media2text

Dafny models of the parts of media2text whose correctness depends on state, on loops or on text
grammars, with proofs of what those parts promise. `dafny verify dfyconfig.toml` checks everything.

**The agent turn engine.** `HermesState` is the session store: the `messages` table as a set of rows
with sequence numbers, proved to be a picture of one list per session. `TurnEngine` says what a turn
means for rows and in-memory messages, for an arbitrary model and arbitrary tools whose results
arrive in any order; `AiAgent` carries the turn out step by step on the store and is proved to do
just that. `ToolPairing` says when tool calls and results belong together, `ContextCompressor` forks
sessions, `AgentTurnHooks` and `ThreadRuns` count towards memory reviews over whole runs, and
`ReviewLifecycle` interleaves turns with their background reviews, with every write of the state as a
step of its own; `ReviewTurns` ties its turns to those of the engine. `ReviewStarts` says from where a
review can still be started, `ReviewRuns` in which configurations and by which runs the flag goes wrong,
and `ReviewCounters` carries the count over to interleaved runs.

**Texts that are written and read back.** `EnvFile` (`.env` quoting and update), `MemoryStore` (the
file of `§` entries), `MemoryTrim` (merging old bullets), `Playlist` (rewriting HLS playlists; the map
tag is defined in section 4.3.2.5 of RFC 8216). They share the string operations of `Text`.

**Protocols.** `SelfHeal` (cooldown and sliding window), `Approval` (the handshake between a gated
call and the thread that answers it), `RuntimeHealth` (snapshots, diffs and their replicas).

**Accounting.** `Corpus` (character budgets), `Indexer` (the transcript index), `Curator` (the life of
a skill), `CommitAudit` (the static check of database writes).

The methods follow the code's branches and loops and are proved against specification functions; the
lemmas then say what the code promises about those functions, for all inputs and all runs.

## What the proofs found

- Two reviews of one thread can run at once, but only after a fork has failed during a review: the
  child is committed before the parent's state is copied to it, so a turn that dies in between leaves
  an active session without the flag. In all other interleavings there is at most one review, and the
  invariant behind that is proved to be the weakest that guarantees it, for every configuration in which
  some turn can call for a review; in any other no review ever starts. A new thread has a run with two
  reviews exactly if the configuration allows reviews and compression.
- A review flag can stay set for ever: when a turn begins during a review and writes its state back
  after the review has ended, when the session is forked during a review, when the review ends without
  its clearing step, or when its thread cannot be started. `ReviewLifecycle` gives the exact condition;
  no later turn can then start a review, unless a fork fails. A new thread has a run into this exactly if
  the configuration allows reviews.
- The end of a review saves the whole state that it loaded, so turns written in between are lost from
  the count towards the next memory review, exactly if their number is no multiple of the interval. A turn
  that dies before the first state of its session is saved loses count exactly if the user rows left are
  not, modulo the interval, as many as have counted.
- `.env` values survive exactly if `EnvFile.Survives` holds of them: some values with backslashes do,
  others do not. A key that begins with a number sign is never read back, and each update of it adds
  a line.
- `MemoryStore.add` appends one entry exactly if the content is not blank and has no `§`; the general
  law (`AddedEntries`) covers all other content.
- A compression cut keeps tool calls and results together exactly if it does not fall in front of a
  tool result. The summary row of a forked session is not carried into the next fork.
- The notices of exhaustion and of an error are persisted but not added to the in-memory messages.
- `trim_memory` keeps every limit of at least 20; below that a text that it has to cut off stays too
  long, unless the limit is at least 14 and what would have to go is only whitespace.
- Rewriting a playlist twice differs from rewriting it once only if it ends in two empty lines, and
  rewriting a line again is harmless exactly for session ids that contain neither URI pattern, among
  those without backslashes and line breaks.
- An approval can succeed although its call has timed out and is refused. A request whose emitter
  raises stays in the registry for ever.
- The desktop's merge function keeps entries of queues and observability that are missing from a later
  snapshot. Its replica is exact if and only if no entry ever went missing; this server always sends the
  same entries, so with it the desktop is always in sync.
- A heal whose recovery of stale work raises is not recorded, so neither the cooldown nor the hourly
  limit counts that restart; the bounds are for recorded heals, and hold for restarts exactly if no
  recovery raised after one.
- An index run that fails inside a file leaves the rows before the failing segment in the table. An
  incremental run ends where a rebuild ends exactly if no old row belongs to a file it does not
  replace.
- With a negative limit `merge_corpus_for_distill` always reports truncation, even of nothing.
- A skill restored from the archive is archived again by the next curator run. A run reports a skill
  as archived again and again if its directory is missing.

## Model

| member | source | states |
|---|---|---|
| HermesState.ReadIsLog | src/media2text/agent/hermes_state.py:381-422 | reading a session ordered by sequence number gives its list, whenever the numbers are 1..n |
| HermesState.RunRefinesList | src/media2text/agent/hermes_state.py:305-366 | under any mix of appends and truncations on any sessions, each session's numbers stay 1..n and its sorted read is the list one gets by appending and truncating that session alone |
| HermesState.TruncateUndoesAppends | src/media2text/agent/hermes_state.py:355-366 | truncating after an earlier row restores the list as it was, whatever was appended since |
| HermesState.YoungestIsActive | src/media2text/agent/hermes_state.py:424-436 | a session younger than all others is the one active session of its thread |
| HermesState.SessionDB.CreateSession | src/media2text/agent/hermes_state.py:85-127 | a new, empty session is younger than every other; nothing else changes |
| HermesState.SessionDB.AppendMessage | src/media2text/agent/hermes_state.py:305-347 | the session's list grows by the message with the next number; all other lists stay |
| HermesState.SessionDB.DeleteMessagesAfter | src/media2text/agent/hermes_state.py:355-366 | the session's list is cut after the given number; all other lists stay |
| HermesState.SessionDB.GetMessageById | src/media2text/agent/hermes_state.py:349-353 | finds the message with the id, or none has it |
| HermesState.SessionDB.GetMessagesAsConversation | src/media2text/agent/hermes_state.py:381-422 | the conversation is the replay of the session's list, in append order, message by message and field by field: the row's role (assistant for a summary), its content or the empty text (a summary with its prefix), its call id exactly for a tool row, its calls exactly for an assistant batch |
| HermesState.ReplayIs | src/media2text/agent/hermes_state.py:385-421 | the same field by field for the replay of any row |
| HermesState.SessionDB.GetActiveSessionForThread | src/media2text/agent/hermes_state.py:424-436 | returns a youngest session of the thread, and fails exactly if the thread has none |
| HermesState.SessionDB.ForkSession | src/media2text/agent/hermes_state.py:438-468 | fails exactly for an unknown parent; otherwise the child is new, empty, of the same thread and younger than all |
| HermesState.SessionDB.CountUserMessages | src/media2text/agent/hermes_state.py:598-606 | counts the normal user rows of the session's list |
| HermesState.SessionDB.CopyAgentState | src/media2text/agent/hermes_state.py:608-626 | the child gets the parent's state if the parent has one; nothing else changes |
| HermesState.SessionDB.UpdateAgentState | src/media2text/agent/hermes_state.py:584-596 | writes the state column of one session only |
| HermesState.SessionDB.UpdateTokenEstimate | src/media2text/agent/hermes_state.py:470-482 | writes the token estimate of one session only |
| ToolPairing.TruncateAfter | src/media2text/agent/ai_agent.py:274-284 | cutting right behind a row that is neither a batch nor a result never splits a batch from its results |
| ToolPairing.SuffixPairedIff | src/media2text/agent/context_compressor.py:58-101 | the rest of a paired conversation is paired exactly if it does not begin with a tool result |
| TurnEngine.TruncateFits | src/media2text/agent/ai_agent.py:80-84 | the truncated tool output fits the limit exactly if it was short enough or the limit is at least 20 |
| TurnEngine.LoopStaysInSync | src/media2text/agent/ai_agent.py:325-449 | at every call of the model and at every exit, the in-memory messages are the start list plus the replay of the rows persisted since, but for the notice of exhaustion or error; the model is asked at most as often as the budget allows |
| TurnEngine.EveryCallInSync | src/media2text/agent/ai_agent.py:295-416 | the same for whole turns, normal and retried, with the preflighted start list |
| TurnEngine.LoopKeepsPairing | src/media2text/agent/ai_agent.py:326-435 | however the loop goes and in whatever order results arrive, every batch is followed at once by exactly one result per call |
| TurnEngine.TurnKeepsPairing | src/media2text/agent/ai_agent.py:245-501 | so does a whole turn, retried, cancelled, failed, exhausted or compressed; the fork has a stray result exactly if the cut was in front of one |
| TurnEngine.RetryRestoresPrefix | src/media2text/agent/ai_agent.py:274-284 | a retry starts from the rows up to the retried user message and keeps them |
| TurnExits.StopExists | src/media2text/agent/ai_agent.py:322-449 | for any model there is exactly one reply at which a loop stops: the first within the budget that is no batch, or the end of the budget |
| TurnExits.RoundIs | src/media2text/agent/ai_agent.py:348-399 | the rows and messages of one batch, by the reply alone: the calls, then one result per completion under its call id, cut to the limit with the mark |
| TurnExits.LoopEndsAs | src/media2text/agent/ai_agent.py:322-449 | for every loop and its stopping reply k: answered, failed, cancelled or exhausted exactly by what reply k is; the text is the stripped content of the answer or the notice; the rows and messages are those of the k batches and then the answer with its thinking, a notice in the rows only, or nothing; the iterations count from the last use of `skill_manage`; and the model was asked once for each batch and once more unless a flag or the budget stopped it |
| TurnExits.TurnIs | src/media2text/agent/ai_agent.py:267-449 | the same for whole turns, from the rows a new or retried message starts from and the preflighted replay of those rows |
| AiAgent.IterationBudget.Consume | src/media2text/agent/iteration_budget.py:6-22 | each consumption lowers what remains by one until the budget is exhausted |
| AiAgent.RunLoop | src/media2text/agent/ai_agent.py:322-449 | the loop over the store ends as the specified loop does, hence by the replies as in `LoopEndsAs`, and the session's rows are its rows |
| AiAgent.RunTurn | src/media2text/agent/ai_agent.py:267-501 | a turn in a session changes the store as the specified turn does (the session, its fork, the counters, and nothing else) and ends by the replies as in `TurnIs` |
| AiAgent.RunConversation | src/media2text/agent/ai_agent.py:245-501 | unless the thread or the retried message does not exist (then nothing changes), the result is the stripped content of the first answer, the failure's message, the notice of exhaustion or the cancellation, decided by the replies alone; the rows, the model calls, the stored sessions, the active session and the decision to review are those of the specified turn |
| ContextCompressor.EstimateTokens | src/media2text/agent/context_compressor.py:21-31 | the estimate is a quarter, rounded down and at least one, of the length of all contents one after the other and of the JSON of every non-empty batch |
| ContextCompressor.PlainEstimate | src/media2text/agent/context_compressor.py:21-31 | for messages without calls it is a quarter of the length of all contents one after the other, at least one |
| ContextCompressor.MaybePreflight | src/media2text/agent/context_compressor.py:143-154 | exactly when compression is on and that length is over the preflight limit, every tool text over the trim limit is cut to it and marked; nothing else changes |
| ContextCompressor.PreflightOnlyShortensToolText | src/media2text/agent/context_compressor.py:38-55 | preflight changes only over-long tool texts and makes them shorter |
| ContextCompressor.PlanExistsIff | src/media2text/agent/context_compressor.py:58-101 | when there is something to compress, for every `protect_last_n`, zero and negative included |
| ContextCompressor.PlanPartitions | src/media2text/agent/context_compressor.py:58-101 | summarized and protected rows are the parent's normal rows cut in two, the protected ones as many as configured |
| ContextCompressor.PlanLineIs | src/media2text/agent/context_compressor.py:72-98 | what the summarizer is given of a row: its role, its tool and the start of its text |
| ContextCompressor.BuildCompressionPlan | src/media2text/agent/context_compressor.py:58-101 | the plan built from the store is the specified plan of the session's rows: the summary of the lines of the early normal rows, and the late ones as they are |
| ContextCompressor.ApplyForkCompression | src/media2text/agent/context_compressor.py:103-140 | the child holds the summary row and then exactly the protected rows, field by field, has the parent's thread and state and is younger than all; every existing session keeps its rows |
| ContextCompressor.ForkMakesProgress | src/media2text/agent/context_compressor.py:58-140 | normal rows strictly drop, and a child can be compressed again exactly after two more rows |
| ContextCompressor.ForkPairedIff | src/media2text/agent/context_compressor.py:58-140 | the child keeps every batch answered, and has a stray result exactly if the cut falls in front of one |
| ContextCompressor.MaybePostTurnCompress | src/media2text/agent/context_compressor.py:157-188 | the token estimate is written, and the session is forked exactly if the length of the conversation is over the limit and there are rows to summarize |
| ContextCompressor.PostTurnPlanIs | src/media2text/agent/context_compressor.py:157-188 | the decision by data: compression on, the length of all contents and batches over the limit, `protect_last_n` not zero, and normal rows there, at least two more than it protects |
| ContextCompressor.CanForkIff | src/media2text/agent/context_compressor.py:58-101 | a configuration allows compression exactly if some session has a plan under it |
| ThreadRuns.RunKeepsPairing | src/media2text/agent/ai_agent.py:245-501 | over any run of turns, retries and forks, batches stay answered, and no result stands alone unless a cut was unclean |
| ThreadRuns.RunCounter | src/media2text/agent/agent_turn_hooks.py:20-54 | after any run of turns, retries and forks with no review ending in between, the counter is (m0 + k) mod n, where k turns counted, and one memory review was flagged for every full interval |
| ThreadRuns.PersistedCounter | src/media2text/agent/agent_state.py:56-69 | in such runs a thread without stored state continues the count of its p earlier user messages: the stored counter is (p + k) mod n |
| AgentTurnHooks.FlagsAre | src/media2text/agent/agent_turn_hooks.py:20-47 | a review is due exactly if its counter has reached its positive interval, it is switched on and its tool is there |
| AgentTurnHooks.ResetsAre | src/media2text/agent/agent_turn_hooks.py:50-54 | exactly the counters of due reviews start again |
| ReviewCounters.RunLaw | src/media2text/agent/agent_turn_hooks.py:20-93 | the same for every interleaving of turns, forks, failures and reviews without a losing step: the counter on the books and in every state still to be written is (m + k) mod n, one review flagged for every full interval |
| ReviewCounters.LosslessIff | src/media2text/agent/background_review.py:140-148 | the law holds throughout a run exactly if the run has no losing step: a review saving a counter other than the one on the books into the session in use, or a turn dying in a session without state whose user rows modulo n are not the counter on the books |
| ReviewCounters.InterleavedCounter | src/media2text/agent/agent_state.py:56-69 | in interleaved runs without a losing step a thread without stored state continues the count of its p earlier user messages |
| ReviewCounters.LoadReadsBooks | src/media2text/agent/background_review.py:143 | a review of the session in use loads the counter on the books |
| ReviewCounters.ReviewEndIff | src/media2text/agent/background_review.py:143-145 | the end of a review loses count exactly if the number of turns counted between its load and its save is no multiple of the interval |
| ReviewCounters.DeathLosesIff | src/media2text/agent/agent_state.py:56-69 | a turn, or a fork, that dies loses count exactly if the active session has no state and its user rows are not, modulo n, as many as have counted |
| ReviewCounters.FirstTurnDiesIff | src/media2text/agent/ai_agent.py:267-289 | a counting turn of a session without state that dies before its write-back loses count exactly if n is at least 2 |
| ReviewCounters.FailedForkLosesIff | src/media2text/agent/context_compressor.py:112-139 | a fork that fails before the copy loses count exactly if the user rows its child has so far are not, modulo n, as many as have counted |
| ReviewCounters.LostCount | src/media2text/agent/background_review.py:143-145 | for every configuration with reviews on and n at least 2, a run of a new thread: whole turns that start a review, then one turn writing back between the review's load and save, after which k + 1 turns have counted and the stored counter is that of k |
| ReviewTurns.TurnIsSteps | src/media2text/agent/ai_agent.py:267-499 | an undisturbed turn of the engine is a run of these steps: the same states in the session and its fork, the same review |
| ReviewTurns.AnsweredTurnExists | src/media2text/agent/ai_agent.py:326-416 | every number of iterations within the budget is that of an answered turn of any session, whose steps are those used below unless it compresses the session |
| ReviewStarts.FromIdle | src/media2text/agent/agent_turn_hooks.py:20-108 | between turns, with the flag not set, whole turns lead to a review whenever the configuration allows one: a turn with enough iterations, or as many turns as the counter needs |
| ReviewLifecycle.CanReviewIff | src/media2text/agent/agent_turn_hooks.py:20-47 | a configuration allows reviews exactly if some turn within the budget calls for one |
| ReviewLifecycle.AtMostOneReview | src/media2text/agent/agent_turn_hooks.py:74-108 | in every interleaving in which no fork fails during a review, at most one review of a thread runs, and while it does the active session's flag is set, or a turn is between fork and copy and the parent's (or copied) flag is |
| ReviewStarts.ExclusionIff | src/media2text/agent/agent_turn_hooks.py:74-108 | from any world, such runs never have two reviews exactly if the invariant holds there; if the configuration rules reviews out, exactly if no two are running already |
| ReviewStarts.FailedForkIff | src/media2text/agent/context_compressor.py:112-139 | after a fork that failed before the copy, the exclusion is still sure exactly if no review was running or the configuration rules further ones out |
| ReviewRuns.FailedForkDoubles | src/media2text/agent/context_compressor.py:112-139 | for every configuration with reviews and compression, a run of a new thread in which such a failure leads to two reviews at once |
| ReviewRuns.CanDoubleIff | src/media2text/agent/agent_turn_hooks.py:74-81 | a new thread has a run with two reviews at once exactly if the configuration allows reviews and compression |
| ReviewRuns.ForkHidesFlag | src/media2text/agent/hermes_state.py:438-468 | for every such configuration, a run of a new thread in which a review runs and the active session, a child not yet copied to, has no flag |
| ReviewLifecycle.StuckStepIff | src/media2text/agent/agent_turn_hooks.py:80-93 | with the flag set and no review, every step leaves it so, except exactly a fork that fails before the copy |
| ReviewLifecycle.StuckForever | src/media2text/agent/agent_turn_hooks.py:80-93 | so the flag stays set through every further run without a failed fork |
| ReviewStarts.StuckIff | src/media2text/agent/agent_turn_hooks.py:74-108 | with no review running, no run without a failed fork starts one exactly if the thread is in that state or the configuration rules reviews out |
| ReviewLifecycle.ClearFreesIff | src/media2text/agent/background_review.py:140-148 | the end of a review frees the thread exactly if its session is the one in use and no turn is between a load of its state and the write of what it loaded |
| ReviewLifecycle.CrashSticks | src/media2text/agent/background_review.py:138-148 | a review that ends without clearing loses all later ones, in this sense |
| ReviewLifecycle.FailedSpawnSticks | src/media2text/agent/agent_turn_hooks.py:92-108 | so does a turn that saves the flag and then fails to start the thread |
| ReviewRuns.StaleWriteBackSticks | src/media2text/agent/ai_agent.py:450-458 | for every configuration with reviews, a run of a new thread in which a turn writes a stale flag back |
| ReviewRuns.CanStickIff | src/media2text/agent/agent_turn_hooks.py:74-93 | a new thread has a run that leaves it stuck exactly if the configuration allows reviews |
| ReviewRuns.ForkSticks | src/media2text/agent/context_compressor.py:103-140 | for every configuration with reviews and compression, a run of a new thread in which a fork copies the flag |
| EnvFile.ValueRoundTripIff | src/media2text/core/env_file.py:12-43 | quoting and parsing a value without line breaks gives it back exactly if it survives: no backslash-n, and no double backslash outside quotes |
| EnvFile.QuoteIs | src/media2text/core/env_file.py:12-18 | only values with whitespace, a number sign or a quote are put in quotes, and the empty one |
| EnvFile.ParsePadded | src/media2text/core/env_file.py:37-43 | whitespace around a value does not matter, and a blank one is empty |
| EnvFile.ParseQuoted | src/media2text/core/env_file.py:37-43 | quotes of either kind are taken off; without backslashes the rest is the value |
| EnvFile.ReadAfterUpsertIff | src/media2text/core/env_file.py:25-74 | reading a key after an update gives the value exactly if the value survives and the key is no comment |
| EnvFile.OtherKeysUnchanged | src/media2text/core/env_file.py:46-74 | every other key reads as before the update |
| EnvFile.LastWriteWinsIff | src/media2text/core/env_file.py:46-74 | two updates leave the text of the last one alone, exactly for keys that are no comments |
| EnvFile.EnvironmentFile.Read | src/media2text/core/env_file.py:25-43 | returns the parsed value of the first line that assigns the key, the empty text if there is none |
| EnvFile.EnvironmentFile.Upsert | src/media2text/core/env_file.py:46-74 | line by line: exactly the lines that assign the key are replaced by the new assignment, all others stay, and without one it is appended, after a blank line; the process environment gets the value |
| MemoryStore.WrittenEntries | src/media2text/agent/memory_store.py:224-245 | what any written list of texts reads back as: the pieces of the texts, in order |
| MemoryStore.JoinRoundTrip | src/media2text/agent/memory_store.py:224-236 | splitting after joining is the identity on stripped, non-empty entries without section signs |
| MemoryStore.JoinedFormat | src/media2text/agent/memory_store.py:224-236 | what a written file looks like: each entry under a section sign of its own, a blank line in between |
| MemoryStore.EntriesAreGood | src/media2text/agent/memory_store.py:224-245 | whatever a file holds, its entries are such entries; a legacy text is one entry |
| MemoryStore.AddAppendsOneIff | src/media2text/agent/memory_store.py:272-277 | an addition appends exactly the stripped content if and only if that is not blank and has no section sign |
| MemoryStore.MemoryFile.Write | src/media2text/agent/memory_store.py:144-173 | succeeds exactly for unblocked content within the limit; a failure changes nothing |
| MemoryStore.MemoryFile.Append | src/media2text/agent/memory_store.py:144-173 | in append mode only the new text is scanned, but the whole file stays within the limit; a line break is put in between exactly where one is missing |
| MemoryStore.MemoryFile.Add | src/media2text/agent/memory_store.py:272-277 | a success appends the pieces of the content, whatever the file held, within the limit; a failure changes nothing |
| MemoryStore.MemoryFile.Replace | src/media2text/agent/memory_store.py:279-294 | fails exactly if not one entry matches or the result may not be stored, and then nothing changes; otherwise the one matching entry, `a` + old text + `b` with no match before, becomes `a` + content + `b`, and the file reads as the entries before it, the pieces of that text and the entries after it |
| MemoryStore.MemoryFile.Remove | src/media2text/agent/memory_store.py:296-304 | the same conditions; a success leaves exactly the other entries, in order, and the file is written from them |
| MemoryTrim.TrimMemory | src/media2text/agent/creator_distill/evolve_patch.py:119-144 | the loop computes the specified trimmed text |
| MemoryTrim.TrimFits | src/media2text/agent/creator_distill/evolve_patch.py:119-144 | for every limit: the result fits exactly if the limit is at least 20, or nothing had to be cut off, or the limit is at least 14 and only whitespace stands where the mark needs room |
| MemoryTrim.TrimShape | src/media2text/agent/creator_distill/evolve_patch.py:119-144 | unless it fitted or was cut off, the result is the untouched header, one merge of the oldest bullets and the newest bullets verbatim, with no merge more than needed |
| MemoryTrim.MergeIs | src/media2text/agent/creator_distill/evolve_patch.py:133-138 | a merged bullet is the two bullets' texts, in order, cut to a quarter of the limit |
| MemoryTrim.BulletTextIs | src/media2text/agent/creator_distill/evolve_patch.py:133-138 | the text of a bullet: the line without its leading dashes and blanks, stripped |
| MemoryTrim.HardTruncateIs | src/media2text/agent/creator_distill/evolve_patch.py:139-144 | a text that is cut off keeps its start but for trailing whitespace, and ends with the mark |
| MemoryTrim.ApplyMemoryPatch | src/media2text/agent/creator_distill/evolve_patch.py:90-116 | a patched file is within the limit too, and if its lines and those of the facts fit, it is these lines, stripped, with a line break at the end |
| MemoryTrim.BaseIs | src/media2text/agent/creator_distill/evolve_patch.py:90-116 | a patch starts from all old lines; only a heading in the first gives way to the standard one |
| MemoryTrim.FactsGrow | src/media2text/agent/creator_distill/evolve_patch.py:104-116 | every fact that is not blank adds a line of its own with its source, at the end |
| MemoryTrim.PatchKeepsFacts | src/media2text/agent/creator_distill/evolve_patch.py:90-116 | a patch that fits ends with the line of its last fact |
| Playlist.RewriteM3u8 | src/media2text/api/routes/playback.py:123-146 | the loop computes the specified rewritten text, which is the rewritten lines, one by one, with a line break at the end |
| Playlist.LineIs | src/media2text/api/routes/playback.py:54-142 | what each line becomes: a map tag with its URI replaced, the init path, the path of its part, or itself |
| Playlist.PartIndexIs | src/media2text/api/routes/playback.py:54-58 | the number of a line is that of the leftmost match in it, and there is none exactly without a match |
| Playlist.SegIff | src/media2text/api/routes/playback.py:32 | what a match is, letter by letter: `seg-`, at least one digit and `.m4s`, in any case |
| Playlist.InitNameIff | src/media2text/api/routes/playback.py:33-69 | what names the init segment: `init.mp4` in any case, and nothing around it |
| Playlist.RewriteKeepsLines | src/media2text/api/routes/playback.py:123-146 | the non-blank lines of the result are those of the input, rewritten one by one, in the same number and order |
| Playlist.RewriteTwiceLines | src/media2text/api/routes/playback.py:123-146 | a second rewrite changes no non-blank line |
| Playlist.RewriteTwiceIff | src/media2text/api/routes/playback.py:143-146 | it returns the same text exactly if the playlist does not end in two empty lines |
| Playlist.HarmlessIff | src/media2text/api/routes/playback.py:54-71 | for session ids without backslashes and line breaks, rewriting any line again is harmless exactly if the id contains neither URI pattern |
| Playlist.LineTwice | src/media2text/api/routes/playback.py:54-71 | for such ids every rewritten line, map tags included, is left as it is by another rewrite |
| Playlist.ReplaceSingle | src/media2text/api/routes/playback.py:63-68 | in a map tag everything around the URI stays |
| Playlist.PartsKept | src/media2text/api/routes/playback.py:54-58 | the parts the rewritten playlist asks for are, one to one and in order, those the original listed |
| Playlist.PartIndicesFromPlaylist | src/media2text/api/routes/playback.py:86-92 | strictly increasing, and exactly the indices some line matches |
| Playlist.PartLinesMentioned | src/media2text/api/routes/playback.py:86-142 | every part that a rewritten line asks for is among these indices |
| SelfHeal.SelfHealer.MaybeSelfHeal | src/media2text/api/services/monitor_self_heal.py:38-156 | every outcome happens exactly under its condition in what the probe read (disabled, running, cooling down, limited, and the eight of an admitted call), and a heal on any of the three paths whose recovery did not raise, and nothing else, records its time |
| SelfHeal.AttemptIs | src/media2text/api/services/monitor_self_heal.py:65-156 | for each of the eight outcomes of an admitted call the exact condition on lock, processes, threads, tick, start and takeovers |
| SelfHeal.TickingIsLeftAlone | src/media2text/api/services/monitor_self_heal.py:85-98 | no stale embedded monitor is restarted while its last tick is younger than the limit, forced or not |
| SelfHeal.ExternalIsLeftAlone | src/media2text/api/services/monitor_self_heal.py:65-84 | no monitor whose stale lock a live external watcher holds is taken over |
| SelfHeal.SelfHealer.HourlyLimitReached | src/media2text/api/services/monitor_self_heal.py:32-35 | keeps exactly the times less than 3600 seconds old and compares their number with the limit |
| SelfHeal.AdmittedIff | src/media2text/api/services/monitor_self_heal.py:58-63 | although old times are pruned, the limit is decided by the whole history of heals |
| SelfHeal.HourlyBound | src/media2text/api/services/monitor_self_heal.py:32-35 | over any run in clock order every half-open hour holds at most the maximal number of recorded heals |
| SelfHeal.CooldownKept | src/media2text/api/services/monitor_self_heal.py:58-60 | every unforced recorded heal is at least its cooldown after the recorded heal before it, by whichever path |
| SelfHeal.RestartsRecordedIff | src/media2text/api/services/monitor_self_heal.py:101-153 | the restarts and repairs of the monitor are the recorded heals exactly if no recovery of stale work raised after one |
| SelfHeal.RestartBound | src/media2text/api/services/monitor_self_heal.py:32-35 | then the hourly bound holds for the restarts themselves |
| SelfHeal.UnrecordedRestarts | src/media2text/api/services/monitor_self_heal.py:101-105 | otherwise nothing bounds them: any number at one time, none recorded |
| Approval.ApprovalRegistry.Create | src/media2text/agent/approval.py:62-66 | one unanswered request is added |
| Approval.ApprovalRegistry.Resolve | src/media2text/agent/approval.py:68-75 | succeeds exactly for a pending request without an answer, and only that request gets the answer |
| Approval.ApprovalRegistry.Pop | src/media2text/agent/approval.py:77-79 | one request is removed and returned, the others stay |
| Approval.FirstAnswerCounts | src/media2text/agent/approval.py:68-75 | of several answers to one request the first is the one that counts |
| Approval.FirstAnswerIs | src/media2text/agent/approval.py:68-75 | the first answer is that with the least position among those to the request; there is none exactly if no answer is for it |
| Approval.Ensure | src/media2text/agent/approval.py:101-134 | grants exactly if the gate is bypassed or the first answer in time approves; the request is gone afterwards and all other requests are as the answers left them |
| Approval.ResolvedAtMostOnce | src/media2text/agent/approval.py:68-75 | in every interleaving at most one resolve succeeds for a request |
| Approval.GrantedIff | src/media2text/agent/approval.py:108-134 | in every interleaving a call is granted exactly if it needs no approval, or woke up and its own request was approved |
| Approval.RegistryIs | src/media2text/agent/approval.py:62-79 | the registry holds exactly the requests in progress and those whose announcement raised |
| Approval.RaisedStays | src/media2text/agent/approval.py:116-128 | such a request stays for ever |
| Approval.RaisedReached | src/media2text/agent/approval.py:116-128 | a run that leaves such a request |
| Approval.AnswerHonouredIff | src/media2text/agent/approval.py:129-134 | a successful answer differs from the call's result exactly if it approves a call that timed out |
| Approval.LateApproval | src/media2text/agent/approval.py:129-134 | a run in which that happens |
| Approval.StepsAreTheRegistrys | src/media2text/agent/approval.py:55-79 | the steps of the interleavings change the pending requests as the registry's methods do |
| RuntimeHealth.RuntimeWsDiff | src/media2text/api/services/runtime_health_loop.py:47-75 | the diff carries exactly the changed keys, and of `daemon` the changed fields |
| RuntimeHealth.NoDiffIff | src/media2text/api/services/runtime_health_loop.py:47-75 | there is no diff exactly if no tracked field changed |
| RuntimeHealth.DrainOnce | src/media2text/api/services/runtime_health_loop.py:86-113 | one iteration publishes the diff, or the whole snapshot when the heartbeat is due without one, then a changed queue |
| RuntimeHealth.PayloadIs | src/media2text/api/services/runtime_health_loop.py:25-44 | which key of the status each field of the snapshot comes from, and what stands in for a missing one |
| RuntimeHealth.PublishedAre | src/media2text/api/services/runtime_health_loop.py:86-113 | how many events an iteration publishes, and which |
| RuntimeHealth.HeartbeatRestarts | src/media2text/api/services/runtime_health_loop.py:86-113 | the clock of the heartbeat starts again exactly with a diff or a heartbeat |
| RuntimeHealth.RunRuntimeHealthLoop | src/media2text/api/services/runtime_health_loop.py:116-151 | the loop's state and events over any iterations, some of which raise |
| RuntimeHealth.ReplicaInSync | src/media2text/api/services/runtime_health_loop.py:86-113 | whoever overlays every event from the start agrees after each iteration with what the server last read, on every tracked field |
| RuntimeHealth.DesktopInSyncIff | apps/m2t-desktop/src/features/runtime/runtimeMerge.ts:3-31 | the desktop's merge agrees exactly if no queue and no observability entry the server ever had is missing from the latest snapshot |
| RuntimeHealth.DesktopInSyncSameKeys | apps/m2t-desktop/src/features/runtime/runtimeMerge.ts:3-31 | if every snapshot has the same entries, the desktop always agrees |
| RuntimeHealth.ServerKeepsDesktopInSync | src/media2text/core/runtime/status.py:51-64 | with the entries that this server's status always has, the desktop agrees after every run, failed reads included |
| RuntimeHealth.DroppedEntryStays | apps/m2t-desktop/src/features/runtime/runtimeMerge.ts:21-29 | a run, not of this server, in which an entry is dropped and the merge keeps it |
| Indexer.Archive.IndexTranscriptFile | src/media2text/core/archive/indexer.py:152-213 | only the rows of a file that resolves and loads are replaced, by its non-blank segments up to one that raises; the outcome says which case it was |
| Indexer.Archive.IndexAll | src/media2text/core/archive/indexer.py:271-297 | the run over all paths and its statistics, rebuilding or not |
| Indexer.TableIs | src/media2text/core/archive/indexer.py:271-297 | apart from timestamps the table then holds what the files say and the old rows of files not replaced, whatever the errors |
| Indexer.RebuildIs | src/media2text/core/archive/indexer.py:271-297 | after a rebuild it holds exactly what the files say |
| Indexer.ExpectedIff | src/media2text/core/archive/indexer.py:175-209 | row by row: one for each non-blank segment under its index in the file |
| Indexer.RowExpectedIff | src/media2text/core/archive/indexer.py:175-209 | a row is expected exactly if its file resolves and loads, no segment up to it raises, and it has that segment's stripped text, its times where given, and the file's session |
| Indexer.IncrementalIsRebuildIff | src/media2text/core/archive/indexer.py:271-297 | an incremental run ends where a rebuild ends exactly if every old row belongs to a replaced file |
| Indexer.RepeatChangesNothing | src/media2text/core/archive/indexer.py:271-297 | a second run changes nothing but timestamps |
| Indexer.OthersStay | src/media2text/core/archive/indexer.py:175-176 | the rows of files not replaced stay, timestamps and all |
| Indexer.KeysStayUnique | src/media2text/core/archive/schema.py:7-24 | no two rows ever share path and index |
| Indexer.EveryPathCounted | src/media2text/core/archive/indexer.py:283-293 | indexed, skipped and failed files add up to all paths |
| Indexer.StatsGrow | src/media2text/core/archive/indexer.py:283-293 | one more path adds to exactly one of errors, skipped files, or indexed files with their segments |
| Indexer.SegmentsCounted | src/media2text/core/archive/indexer.py:283-293 | without errors the segments counted by a rebuild are the rows of the table |
| Corpus.CollectItems | src/media2text/agent/creator_distill/collect.py:97-114 | the nested loops collect what one pass over all paths would; what is left and what was taken add up to the budget |
| Corpus.CollectedComplete | src/media2text/agent/creator_distill/collect.py:97-114 | a budget not used up left out no readable file and cut none |
| Corpus.ScanLocalFiles | src/media2text/agent/creator_distill/collect_local.py:30-78 | the nested loops find what one pass over all matches would |
| Corpus.ScanWithin | src/media2text/agent/creator_distill/collect_local.py:45-77 | the hits stay within the budget and within the number of files |
| Corpus.ScanDistinct | src/media2text/agent/creator_distill/collect_local.py:52-55 | no file is a hit twice, however many globs match it |
| Corpus.ScanComplete | src/media2text/agent/creator_distill/collect_local.py:45-77 | if neither limit is reached, every file that qualifies is a hit, uncut |
| Corpus.CollectCorpus | src/media2text/agent/creator_distill/collect.py:60-141 | the corpus is the header, the manifest's files and the new hits, and the total is the sum of the slices |
| Corpus.CorpusAre | src/media2text/agent/creator_distill/collect.py:60-141 | every slice is the start of the header, of a readable file that the manifest names, or of a qualifying match, with its own path, kind and length |
| Corpus.HeaderFirst | src/media2text/agent/creator_distill/collect.py:72-84 | within a positive limit the header comes first, as much of it as fits; with any other limit there is nothing |
| Corpus.CorpusWithin | src/media2text/agent/creator_distill/collect.py:72-141 | all slices together stay within the limit |
| Corpus.LocalDistinct | src/media2text/agent/creator_distill/collect.py:97-134 | no path is collected twice, from the manifest, from globs or from both |
| Corpus.ManifestComplete | src/media2text/agent/creator_distill/collect.py:72-141 | if the corpus is below the limit, every readable file of the manifest is in it, uncut |
| Corpus.OnlyMeta | src/media2text/agent/creator_distill/merge_corpus.py:51-52 | taking away what equals a meta slice takes away exactly the meta slices |
| Corpus.PartsGrow | src/media2text/agent/creator_distill/merge_corpus.py:51-70 | one more slice adds its text, behind the separator, to exactly one part: the meta part if kind or path is meta, the local part otherwise |
| Corpus.WebGrows | src/media2text/agent/creator_distill/merge_corpus.py:76-88 | one more readable channel adds its heading and content to the web part |
| Corpus.RenderIs | src/media2text/agent/creator_distill/merge_corpus.py:61-94 | the parts that are not empty under their headings, in order, with separators in between |
| Corpus.MergeCorpusForDistill | src/media2text/agent/creator_distill/merge_corpus.py:38-102 | of each part as much of its start is taken as its budget and the rest of the limit allow, and the text is their rendering, cut to the limit; it counts as truncated exactly if it is not the unlimited text (or the limit is negative), which is exactly if a part is over its budget or the whole over the limit |
| Curator.SkillCurator.Phase1AutoTransitions | src/media2text/agent/curator.py:138-166 | a dry run reports what a real run reports and changes nothing; a real run changes exactly the entries and directories its decisions say |
| Curator.FateIs | src/media2text/agent/curator.py:138-166 | each skill's fate by its state and the latest of its last use, view and patch: archived from 90 days, stale from 30, skipped without any of them |
| Curator.AfterIs | src/media2text/agent/curator.py:138-166 | what a run leaves of each skill: directory, archive, entry and state |
| Curator.SkillCurator.SetSkillState | src/media2text/agent/skill_usage.py:157-163 | changes the state of one entry, and nothing for a bundled skill |
| Curator.SkillCurator.RestoreArchivedSkill | src/media2text/agent/curator.py:126-135 | fails for a missing archive or an existing skill without changing anything, otherwise moves the directory back and writes the state of its entry only |
| Curator.SecondRunChangesNothing | src/media2text/agent/curator.py:138-166 | a second run at the same time changes nothing |
| Curator.SecondReportIff | src/media2text/agent/curator.py:153-161 | it reports nothing new exactly if every skill reported as archived had a directory |
| Curator.RestoredIsArchivedAgain | src/media2text/agent/curator.py:126-161 | a restored skill is archived again by any later run |
| Curator.TrimBackups | src/media2text/agent/curator.py:101-104 | the newest backups are kept, at least one, and all others removed |
| CommitAudit.MutateNestedNames | scripts/audit_db_writes.py:36-54 | the breadth-first walk finds exactly the functions that some call wraps |
| CommitAudit.Auditor.Visit | scripts/audit_db_writes.py:61-71 | the recursion appends exactly the lines specified for the tree |
| CommitAudit.Auditor.DirectCommits | scripts/audit_db_writes.py:57-75 | nothing is reported exactly if every visited commit lies inside a wrapped function, and a line is reported exactly if an outermost bare commit is on it |
| CommitAudit.ReportedIff | scripts/audit_db_writes.py:61-71 | a line is in the report exactly if a way down the tree reaches a commit on it without entering a wrapped function or another commit |
| CommitAudit.NothingReportedIff | scripts/audit_db_writes.py:57-75 | an empty report means that every way down to a commit enters a wrapped function, and conversely |
| CommitAudit.AuditFile | scripts/audit_db_writes.py:78-114 | a file passes exactly if no method of a checked class has a bare commit, and it reports exactly the lines of such commits with their class and method |
| CommitAudit.CommitIff | scripts/audit_db_writes.py:22-33 | what counts as a commit: `self._conn.commit` called with anything |
| CommitAudit.WrappedIff | scripts/audit_db_writes.py:36-54 | what wraps a function: `self._mutate` called with it as second argument |
| CommitAudit.WriteAwareIff | scripts/audit_db_writes.py:78-92 | a class is checked if a base, by its name or the last part of it, is `WriteAwareRepo` |

## Left out

- The model, the tools, the summarizer, the safety scan and the file system are arbitrary functions or
  parameters; reading a file and matching a glob give arbitrary answers.
- Tools are total: an exception inside a tool call, which would leave a batch without its results, is
  not modelled, nor is `delegate_task`, which re-enters the session in the middle of a batch.
- Of the thread pool only the order of completion is kept.
- Messages carry no durations, and sessions no titles, bindings, prompt caches or provider settings;
  JSON, YAML and SQL encodings are taken to be injective, and full-text search is not modelled.
- Background reviews and turns share only the agent state.
- Whether a written-back session is long enough to be compressed is left open in the interleavings: with
  compression on, every turn may fork or keep its session, and a fork may leave any of its user rows.
- ThreadRuns.RunCounter: covers runs in which no review ends; ReviewCounters covers the others.
- Creation times are strictly increasing and identifiers fresh.
- EnvFile.ReadAfterUpsertIff: covers keys without whitespace and equals signs and values without line
  breaks, since the file is read line by line; so do OtherKeysUnchanged and LastWriteWinsIff. Newline
  translation by the file layer is not modelled.
- Playlist.RewriteKeepsLines: is about session ids without line breaks; what the replacement template
  makes of a backslash in a session id is not modelled. Digits are the ASCII digits.
- ToolPairing.SuffixPairedIff: pairs by call id, which the model is taken to choose distinct in a batch.
- The `type` key of published events is not modelled, since no replica looks at it.
- Python's equality of `True` and `1` inside JSON values, and arrays as queues or observability in the
  desktop's merge, are not modelled.
- Concurrent calls of the self-heal limiter are not modelled, nor are exceptions other than those of the
  recovery of stale work.
- How transcript paths are collected and how sessions are resolved from the database are parameters
  of the index; its transactions are not modelled, so after an error the table is the one the
  connection sees.
- File kinds in the local scan are given with the match, not derived from the name.
- The second phase of the curator, its reports and the contents of backups are not modelled, and a
  profile's skill directory is taken to hold a skill of its own name.
- Command-line entry points, routes and user interface code.
