# A model of the memory plugin's protocols, caches and algorithms

This project models, in Dafny, the parts of a Postgres-backed memory plugin that hold state over
time or compute something subtle, and proves what they keep over every run and every input:

- the group moderator: debounce buffers, the per-scope promise queue, and the load / check / save
  cycles behind it, as a step relation over any number of scopes (`ModeratorState`,
  `ModeratorProtocol`, `ModeratorRuns`, `ModeratorService`), with what a run makes of each cycle,
  timer and status (`ModeratorOutcomes`) and what a cycle does to the lists of its state
  (`ModeratorTransitions`);
- tiered recall with its two caches and their invalidation by edits (`RecallTiers`, `RecallRuns`), how
  far they keep agents and viewers apart (`RecallIsolation`), what a recall answers and when it fails
  (`RecallContents`, `RecallRequests`), what working sets hold (`WorkingSets`) and what an edit leaves
  (`ChunkEdits`), and the ranking recall uses: the two-stage weighted merge (`Ranking`,
  `RouteScores`, `CandidateOrder`), the greedy reranker (`Mmr`, `Diversity`) and the recursive two-hop
  query (`GraphWalk`, `GraphTime`);
- preference reconciliation with its supersede chains and the marks it leaves on chunks
  (`Reconcile`), told by what the chunks assert (`ReconcileSources`);
- the byte-offset cursor of the transcript watcher, under overlapping ticks, crashes and failed
  offset writes (`TranscriptTail`, `TailLines`);
- the git log parser against the format it asks git for (`GitLog`, over `Strings`);
- three Map-based caches (`Lru`, `CacheContents`), the rate limiter (`RateLimiter`), the compactor of
  stale chunks (`Compactor`, `CompactionOutcomes`), and the merge of extractor candidates
  (`CandidateMerge`, `CandidatePrecedence`).

`SeqTools` and `Chunks` hold shared vocabulary.

Reading conventions. Code that changes state is a class or a method with loops, whose contract ties
the new state to a specification function; the lemmas then speak about that function. Modules such as
`ModeratorOutcomes`, `RecallContents` and `TailLines` say what those functions mean without using
their definitions. Concurrent code is a step relation: one step is a stretch of the source between two
awaits, or a longer one that "Left out" names, and a run is any sequence of enabled steps.
Floating-point scores are real numbers. A table is a map or a sequence of rows; a database transaction
is one step. A JavaScript `Map` iterates in insertion order and is a sequence of entries where that
order matters. Embeddings, LLM replies, SQL rankings, how a text is cut into tokens, what a query
hashes to, and which rows the database selects are parameters, limited only to what the SQL text
guarantees.

## What the proofs found

Where the code and its own comments or obvious intent part ways, the model follows the code:

- `key.split("::")` gives back scope and user only when neither holds `::` *and* the scope does not
  end in `:` (`ModeratorProtocol.SplitKeyInverts` has the exact condition).
- The mutex map never loses an entry: the `finally` callback compares the stored promise with one
  that is never stored (`ModeratorRuns.MutexNeverShrinks`). Mutual exclusion does not depend on it.
- No cycle undoes a pause, but a cycle in flight can turn an archived scope into a paused one
  (`ModeratorRuns.ArchiveSticksIff`, `ArchivedCanTurnPaused`). A saved row can hold 51 active
  students, one over the cap: that list is cut on loading only. A cycle saves such a row exactly when
  it decides, loaded a full list, and its sender is not on it (`ModeratorState.RowExceedsStudentCapIff`;
  `RowCanExceedStudentCap` is a history that does).
- `flushNow` is documented as safe beside a scheduled tick. Overlapping ticks can hand a line on twice
  and move the offset back. However many overlap, delivery stays exactly once up to the first tick
  that stores an offset although a line is wanted between where it started and what is stored by then,
  or hands on a line and stores nothing (`TranscriptTail.RunDeliversOnceIff`; `OverlapInOrderIff` and
  `OverlapReversedIff` for two). Delivery at least once survives every interleaving
  (`NoLineIsSkipped`). A line longer than one read stops the cursor for good (`TicksDrainIff`).
- Two agents whose ids differ only by a `::` suffix can share a working set. Agents are kept apart exactly
  when no two of their recalls can share a key (`RecallIsolation.IsolatedIff`), which
  `RecallRuns.SharedKeysIff` decides.
- The privacy lookup runs for fresh results only. Those kept in `cache.recall` go back to the same
  viewer in the same chat (`RecallIsolation.ResultsBelowT0AreVisible`). A working set is shared by a
  user's chats, and by a viewer without a user and callers that are not filtered at all; profiles are
  primed without any lookup (`ProfilesAreNotFiltered`). So T0 shows a viewer only what it may see
  exactly when it may see whatever the callers with its key may be shown, everything if one of them is
  not filtered, and every profile primed (`T0PrivateIff`, `ChatOnlyViewerPrivateIff`).
- If the statement that invalidates `cache.recall` fails, its error is swallowed and rows can stay
  stale until the next edit whose statement succeeds; working sets never do
  (`RecallRuns.LapseIsHarmlessIff`, `CachesAgreeWithTable`).
- Provenance rows are written for deduplicated preferences too, although the comment says for new
  insertions only; `Reconcile.SupersededExactly` rests on that.
- A relation between two seeds is followed from its subject to its object only, and confidences are
  not checked to be at most 1. The hop query returns the best path product exactly when every walk
  against such a relation is matched by another (`GraphWalk.ConfidenceIsBestPathIff`), and can miss it
  otherwise (`DetourOverSeedsCanBeatTheQuery`).
- The merge comment says the sidecar wins on confidence ties. Confidences play no part: the primary
  always wins (`CandidateMerge.PrimaryWins`). With nothing merged, nothing of any kind is deduplicated
  (`CandidateMerge.ChosenRepeatsNoneIff`).
- The rate limiter admits up to twice its limit within two milliseconds
  (`RateLimiter.TwiceIsReached`). If the clock can run backwards, that bound holds exactly for limits
  of at most one request a minute; from two on, any number of calls can be admitted at one clock time
  (`AnyClockIsBoundedIff`, `BackwardClockIsUnbounded`).
- The keys that candidates are compared by join their parts with bars. They tell the parts apart if only
  the last part holds a bar (`CandidatePrecedence.CandidatesTakePrecedence`); nothing keeps bars out of
  the scope of a preference that a sidecar gives, and two scopes can share a key exactly when one, a
  bar added, begins the other (`ScopesCollideIff`).
- If demoting a cluster throws after its gist is stored, that gist lists chunks that stay standard
  (`Compactor.DemotedAreListed`).

## Model

| member | source | states |
|---|---|---|
| ModeratorState.ApplyDecisionToState | src/moderator/runner.ts:121-194 | the copied arrays, pushed, shifted and overwritten step by step, end as the specification of one decision says |
| ModeratorState.CycleSummary | src/moderator/runner.ts:132-184 | one cycle appends exactly one trigger and its note under their caps and moves the counters by one |
| ModeratorState.ReplaySummarises | src/moderator/state.ts:40-88 | any number of load-cycle-save rounds leave the last 50 triggers, the last 20 notes and exact counts, whatever was trimmed on the way |
| ModeratorState.CycleKeepsBounds | src/moderator/runner.ts:138-166 | task and user ids stay distinct, lists stay within their caps on load and save, and a decided cycle's sender is an active student |
| ModeratorState.ReplayBounded | src/moderator/state.ts:149-169 | every row a serial history can produce is within those bounds |
| ModeratorTransitions.SenderIsSeen | src/moderator/runner.ts:138-148 | a message touches only its sender's first entry, and only when that was last seen; a new sender comes last, under its label |
| ModeratorTransitions.TasksSpawnWorkers | src/moderator/runner.ts:151-164 | present workers keep their places, and each task id without a worker gets one running worker, from the first task of that id |
| ModeratorTransitions.ResultFinishesWorker | src/moderator/runner.ts:168-179 | a result completes or fails the first worker of its task and no other |
| ModeratorTransitions.ReportsSettleWorkers | src/moderator/service.ts:293-319 | a worker ends completed or failed as the last report on its task says, with at most 200 characters of the answer; one without a report stays as it was |
| ModeratorTransitions.CycleLeavesWorkers | src/moderator/service.ts:268-339 | each worker a cycle saves keeps its task, with its placeholder and its last report; at most ten if any was spawned |
| ModeratorTransitions.SavedStatesLoad | src/moderator/state.ts:40-88 | a loaded state is within all caps, and one within the caps comes back as it was saved, with the counters added up |
| ModeratorTransitions.LastAreKept | src/moderator/state.ts:158-163 | a cut list keeps its end, and as much of it as the cap allows |
| ModeratorTransitions.OtherTriggersLeaveMessages | src/moderator/runner.ts:132-193 | a trigger that is no message leaves messages, students and the counter alone; a note is kept whatever the trigger |
| ModeratorProtocol.SplitKeyInverts | src/moderator/service.ts:120-137 | splitting a buffer key returns both parts if and only if neither holds the separator and the scope does not end in a colon |
| ModeratorProtocol.StepKeepsDebounce | src/moderator/service.ts:124-139 | every step keeps: one live timer per buffered key, no message lost or doubled, each trigger made of its batch after a full silence |
| ModeratorRuns.StepKeepsSerial | src/moderator/service.ts:141-153 | every step keeps the promise chain, the exclusion of cycles of a scope, fresh snapshots, and rows equal to a serial replay |
| ModeratorRuns.CyclesOfAScopeNeverOverlap | src/moderator/service.ts:141-153 | over all interleavings of all scopes, a cycle starts only after all earlier cycles of its scope have settled |
| ModeratorRuns.RowsAreSerial | src/moderator/service.ts:165-369 | no update is lost: a scope's row always equals the serial replay, in queue order, of the cycles that saved |
| ModeratorRuns.RowsSummariseSavedCycles | src/moderator/state.ts:40-88 | hence a scope's recentMessages are the last 50 of those it started with and the triggers of the saving cycles, message_count has grown by their number, and the caps hold if they did at the start |
| ModeratorRuns.MessagesAreConserved | src/moderator/service.ts:412-430 | the messages accepted under a key are, in order, those of its triggers followed by those still buffered; at most one timer per key; a trigger is cut after debounceMs of silence |
| ModeratorOutcomes.CycleSavesUnlessHeldOrFailed | src/moderator/service.ts:165-369 | over any run, a cycle that is over has saved, once and with its outcome, exactly unless a call of it failed or its status check found a row of its scope paused or archived |
| ModeratorOutcomes.FiresAfterSilence | src/moderator/service.ts:412-430 | over any run, when a timer fires, every message so far under its key came at least debounceMs ago |
| ModeratorOutcomes.SilentBufferMayFire | src/moderator/service.ts:412-430 | and a buffer whose key has been silent that long has a timer that may fire |
| ModeratorOutcomes.TriggerHoldsEveryText | src/moderator/service.ts:130-136 | a trigger is the last message of its batch but for the text, which splits at line breaks into all texts of the batch, in order, if none holds one |
| ModeratorOutcomes.PausedIff | src/moderator/state.ts:56-74 | over any run a scope is paused exactly from a save that asks for it, or an operator's pause, until an operator sets another status |
| ModeratorOutcomes.SavesLeaveStatus | src/moderator/state.ts:64-67 | a save that asks for no pause makes a new scope live and leaves the status of any other |
| ModeratorRuns.PausedRunKeepsBudget | src/moderator/service.ts:176-181 | over any run without an operator acting on it, a paused scope stays paused and gains no save beyond a cycle already past its status check |
| ModeratorRuns.AtMostOneSaveAfterPause | src/moderator/service.ts:342-349 | hence after a pause at most one more cycle of the scope saves |
| ModeratorRuns.ArchiveSticksIff | src/moderator/state.ts:64-67 | an archived scope stays archived exactly unless the step is a save that asks to pause |
| ModeratorRuns.ArchivedCanTurnPaused | src/moderator/service.ts:342-349 | a run, from any live row and any decision to pause, in which an archived scope becomes paused |
| ModeratorState.RowExceedsStudentCapIff | src/moderator/runner.ts:138-148 | for any row and cycle, the saved row holds more active students than the cap exactly when the cycle decided, loaded a full list and its sender is not on it, and then one more |
| ModeratorState.RowCanExceedStudentCap | src/moderator/state.ts:48-54 | a history after which the saved row holds 51 active students |
| ModeratorRuns.MutexNeverShrinks | src/moderator/service.ts:148-152 | no step removes a scope's entry from the mutex map |
| ModeratorRuns.QueueNeverStalls | src/moderator/service.ts:148-152 | while a cycle is unsettled, it or an earlier one of its scope can take a step, and each such step uses up a finite amount of work |
| ModeratorService.Moderator.OnMessageReceived | src/moderator/service.ts:412-430 | the buffer and timer updates of an accepted message are the arrival step |
| ModeratorService.Moderator.TimerFires | src/moderator/service.ts:418-421 | a timer that fires processes its key's buffer |
| ModeratorService.Moderator.ProcessBufferFor | src/moderator/service.ts:124-139 | emptying a buffer enqueues one cycle with its batch, and nothing for an absent key |
| ModeratorService.Moderator.EnqueueScopeCycle | src/moderator/service.ts:141-153 | a new cycle waits for what the mutex stored, and its own `finally` promise is stored |
| ModeratorService.Moderator.LoadCycleState | src/moderator/service.ts:174-174 | the load step of a cycle |
| ModeratorService.Moderator.CheckScopeStatus | src/moderator/service.ts:177-181 | the status check is the step that ends a cycle only for a paused or archived scope, a scope without a row going on (ModeratorOutcomes.CycleSavesUnlessHeldOrFailed) |
| ModeratorService.Moderator.FinishCycle | src/moderator/service.ts:210-349 | the save of a cycle, on a cache hit or after a decision, is the save step |
| ModeratorService.Moderator.SettleFinally | src/moderator/service.ts:150-152 | the `finally` callback is the settling step |
| ModeratorService.JoinBatch | src/moderator/service.ts:131-136 | a trigger is the last message with all texts joined by line breaks |
| ModeratorService.RunToSave | src/moderator/service.ts:239-340 | what is saved is the decision applied to the snapshot, placeholders spliced in and worker results reported |
| RecallTiers.Memory.Recall | src/recall/router.ts:279-555 | a recall primes and searches T0, else reads a live row, else merges, penalises, reranks and filters, and updates both caches exactly as specified, with the state each failing call leaves behind |
| RecallTiers.Memory.UpdateChunk | src/edit/operations.ts:51-118 | every branch of an update: missing chunk, wrong agent, failed embedding, no changes, or the edited row and the invalidation |
| RecallTiers.Memory.ForgetChunk | src/edit/operations.ts:135-181 | every branch of forgetting, soft or hard, also when a reference blocks the delete |
| RecallTiers.Memory.InvalidateChunk | src/edit/invalidate.ts:23-36 | the chunk leaves every working set and every row of cache.recall is marked, unless that statement fails |
| RecallTiers.Memory.EvictFromAllWorkingSets | src/recall/working-set.ts:166-170 | exactly the chunk's entry goes from every registered set |
| RecallRuns.CachesAgreeWithTable | src/edit/invalidate.ts:23-36 | in every reachable state every T0 entry, and every result in a row not invalidated unless the invalidation of a rewritten or deleted chunk failed and no later one succeeded, names an existing chunk and carries its current text |
| RecallRuns.RecallIsCurrentAndOwn | src/recall/router.ts:279-368 | every result of every recall, from T0, cache.recall or fresh routes, is a chunk of the calling agent with its current text, when no other recalling agent can share a key with it and, for cache.recall, no rewritten or deleted chunk slipped since the last successful invalidation |
| RecallRuns.LapseIsHarmlessIff | src/edit/invalidate.ts:30-33 | a swallowed failure leaves cache.recall correct if and only if no row in force holds the chunk |
| RecallRuns.StepKeeps | src/edit/operations.ts:113-118 | every recall, edit, ingest, reclassification and restart keeps both caches coherent and owned, a failed invalidation apart, and an edit with a successful one makes cache.recall so from any state |
| RecallRuns.SharedKeysIff | src/recall/working-set.ts:141-154 | two agents can share a working-set key, or a cache.recall scope key, exactly when one's tag begins the other's |
| RecallRuns.PlainAgentsAreApart | src/recall/router.ts:187-205 | distinct agent ids without colons and bars share no key of either cache |
| RecallRuns.AgentsWithColonsShare | src/recall/working-set.ts:147-147 | a concrete pair of agents that share a working set |
| RecallIsolation.IsolatedIff | src/recall/router.ts:187-205 | over all runs of two agents' recalls with any edits, one is shown only its own chunks exactly when they can share no key of either cache |
| RecallIsolation.ScopeKeyDeterminesViewer | src/recall/router.ts:193-197 | equal scope keys of bar-free callers with colon-free users belong to one agent, user and chat |
| RecallIsolation.ResultsBelowT0AreVisible | src/recall/router.ts:525-535 | what cache.recall or the routes show a filtered viewer, the privacy lookup let that viewer see in that chat |
| RecallIsolation.T0PrivateIff | src/recall/working-set.ts:141-154 | T0 shows a filtered viewer only what it may see, over all runs of any set of callers with any edits, exactly when it may see all that callers with its working-set key may be shown, filtered or not, and every chunk that a priming may answer with |
| RecallIsolation.TwoCallersPrivateIff | src/recall/router.ts:525-535 | so for two callers with one working set, when the first may see what the second may be shown, and the primed profiles |
| RecallIsolation.ChatOnlyViewerPrivateIff | src/tools.ts:279-299 | a viewer with a chat and no user, beside callers without a viewer in the same session, is private only if it may see every chunk |
| RecallIsolation.ProfilesAreNotFiltered | src/recall/working-set.ts:182-218 | for any chunk a filtered viewer may not see, a run in which priming shows it to that viewer |
| RecallRuns.SearchFindsTheBest | src/recall/working-set.ts:68-88 | a T0 search returns at most k matches, most relevant first, and leaves out a match only for k at least as relevant |
| RecallRuns.RecallRespectsRequest | src/recall/router.ts:522-535 | at most k results; below T0 all reach minScore; fresh ones are all visible to the viewer |
| RecallContents.CandidatesCombineRoutes | src/recall/router.ts:438-520 | what is reranked are exactly the chunks found by the routes combined, each once, with text, routes and weighted score: by all routes without a precise anchor or with fewer structured rows than half of k, else by the structured ones; the score is cut to a fifth exactly for superseded chunks |
| RecallContents.FreshSieves | src/recall/router.ts:522-535 | fresh results are, in the order of the reranked candidates, exactly those that reach the minimum score and, for a filtered viewer, are visible |
| RecallContents.T0AnswersIff | src/recall/router.ts:304-306 | T0 answers exactly if, primed, it holds matches for at least half of the results asked for |
| RecallContents.RelevanceIs | src/recall/working-set.ts:68-80 | a text that contains the query has relevance 1, else the shared over all words when over a fifth, else none |
| RecallContents.RejectedIff | src/recall/router.ts:337-555 | below T0 a recall fails exactly if reading the cache does, or, with no row in force, the routes, the promotion, the store, or the embedding if the semantic routes run |
| RecallContents.RowAnswers | src/recall/router.ts:337-368 | below T0 the row in force is the answer, as far as it passes the limits of this request; a row not in force never is |
| RecallContents.FreshAnswerLeavesRow | src/recall/router.ts:545-555 | a fresh answer leaves itself in cache.recall for the time to live, and nothing else changes any row |
| RecallContents.FreshAnswerIsServedAgain | src/recall/router.ts:337-368 | so the same question asked again is answered below T0 with the same results until the row expires or changes |
| RecallRequests.RequestIsKept | src/recall/router.ts:281-282 | at most 12 results if no number is given, else at most that number or 1; below T0 each reaches the score asked for, or 0 |
| RecallRequests.ViewersAreFiltered | src/recall/router.ts:525-535 | fresh results pass the privacy filter exactly when the viewer has a user or a chat |
| RecallRequests.ResultsAreTraded | src/recall/router.ts:522-522 | with more candidates than results, each later result beats every candidate not yet picked: seven tenths of the score less three tenths of the word overlap with the nearest earlier result |
| RecallRequests.RerankedArePicks | src/recall/router.ts:522-522 | reranking leaves no more candidates than asked for as they are, else the picked ones in the order of their turns |
| RecallRequests.SameRowIffAskAlike | src/recall/router.ts:187-205 | for bar-free parts, two recalls share a scope key exactly when agent, viewer, every anchor and the time bucket are the same, absent ones standing for their defaults |
| RecallRequests.SameSetIff | src/recall/working-set.ts:141-154 | for colon-free agents and users, two recalls share a working set exactly when agent, session and user are the same, whatever the session's name |
| WorkingSets.RecallUsesSet | src/recall/router.ts:285-312 | after a recall its working set is the least recently used cache of what was used before, the profiles if this primed it, and what was shown or given |
| WorkingSets.WorkingSetsAreLru | src/recall/working-set.ts:38-61 | in every reachable state every working set is the least recently used cache of some uses and evictions, without repeated ids and within its limit |
| WorkingSets.T0ShowsRaisedEntries | src/recall/working-set.ts:68-88 | in every run each result of T0 is an entry of the primed set, its score raised by a fifth of its relevance, up to 1 |
| WorkingSets.ProfilesEnterHigh | src/recall/working-set.ts:204-216 | a profile enters with a score of one more than its importance |
| ChunkEdits.EditLeaves | src/edit/operations.ts:51-118 | which text, importance and class an edit leaves its chunk, all else of the table staying and the caches invalidated whatever changed, and which edits leave all alone |
| ChunkEdits.ForgettingLeaves | src/edit/operations.ts:135-181 | forgetting trashes the chunk or, hard and not blocked, removes it; nothing else of the table changes, and the caches are invalidated |
| ChunkEdits.InvalidationTakesOnlyItsChunk | src/edit/invalidate.ts:23-36 | an edit takes its chunk, and nothing else, out of every working set, and marks every row of cache.recall without touching anything else in it |
| Ranking.MergeRoutes | src/recall/routes.ts:473-496 | the nested loops over the Map compute the specified merge |
| Ranking.MergeSummarises | src/recall/routes.ts:473-496 | a merge holds each found chunk once, with the sum of weight times normScore, exactly the routes that found it, its first text, in descending score |
| Ranking.FoldSemantic | src/recall/router.ts:491-504 | the second-stage loop computes the specified fold |
| Ranking.TwoStagesAreOneMerge | src/recall/router.ts:467-504 | merging structured and semantic routes apart and folding gives the same candidates as one merge over all routes |
| Ranking.SummariesArePermutations | src/recall/router.ts:491-504 | being such a summary determines the candidates up to order |
| Ranking.ScoreWithinWeights | src/recall/routes.ts:484-490 | with one row per chunk and route a score lies between 0 and the weights of the routes run |
| Ranking.DefaultScoresAtMostSeven | src/recall/routes.ts:448-467 | with the default weights every score is in [0, 7.0] |
| RouteScores.ScoreIsWeightedSum | src/recall/routes.ts:448-490 | a score is the sum of the rows' scores weighted by the given weight of their route, else by the default, which a literal table gives |
| RouteScores.MergeReadsRows | src/recall/routes.ts:473-496 | a merge, read against the rows themselves: exactly the chunks some route found, each once, its first text, its weighted sum, and exactly the routes that found it |
| CandidateOrder.MergeKeepsTies | src/recall/routes.ts:495-495 | a merge puts the greatest score first and, among equals, the chunk found first |
| CandidateOrder.CandidatesStandInOrder | src/recall/router.ts:491-520 | what is reranked stands in the order of the structured merge, followed by the other semantic candidates, if those routes run, in the order of theirs |
| Mmr.MmrRerank | src/recall/routes.ts:506-534 | returns its input when it has at most k items, else k items at greedily chosen positions |
| Mmr.JaccardLoop | src/recall/routes.ts:541-552 | the counting loop computes intersection over union |
| Mmr.JaccardIsSimilarity | src/recall/routes.ts:541-552 | it is symmetric, in [0, 1], and 1 exactly for equal non-empty token sets |
| Mmr.PicksAreDistinct | src/recall/routes.ts:514-532 | picked positions are distinct positions of the input |
| Mmr.GreedyIsPrefixClosed | src/recall/routes.ts:514-532 | the picks are determined, and those for k begin those for any larger number |
| Mmr.FirstPickIsTop | src/recall/routes.ts:516-530 | the first pick has the greatest score, the earliest among equals |
| Diversity.PicksTradeRelevance | src/recall/routes.ts:517-530 | after the first pick, what is picked is worth at least as much as any other candidate, and more than an earlier one: lambda times the score less (1 - lambda) times the likeness to the nearest earlier pick |
| Diversity.PicksBeatDuplicates | src/recall/routes.ts:519-525 | so, for lambda at most 1, any other candidate is worth no more against some earlier pick than what is picked is against any of them, and less if it stands before it |
| Diversity.JaccardIsRatio | src/recall/routes.ts:541-552 | likeness times the number of all tokens is the number of shared ones |
| GraphWalk.QueryIsBreadthFirst | src/recall/routes.ts:373-404 | the query returns an entity, depth and confidence exactly when that is its undirected distance, 1 or 2, from the seeds, and the best product over the walks of at most two relations that are no detours, whatever the confidences |
| GraphWalk.DepthIsDistance | src/recall/routes.ts:396-404 | min(depth) is the breadth-first distance, whatever the confidences |
| GraphWalk.RowsAreDirectProducts | src/recall/routes.ts:375-395 | the confidences of an entity's rows are exactly the products of the walks that do not run against a relation between two seeds |
| GraphWalk.ConfidenceIsBestPathIff | src/recall/routes.ts:396-404 | the returned confidence is the best product over all walks of at most two relations exactly when every detour is matched by a walk that is none |
| GraphWalk.TameQueryFindsBestPath | src/recall/routes.ts:373-404 | so it is breadth-first search with the best path product when no relation between seeds exceeds 1 and no confidence is negative |
| GraphWalk.EveryNearbyEntityIsReturned | src/recall/routes.ts:373-404 | every non-seed at distance 1 or 2 is returned, once |
| GraphWalk.DetourOverSeedsCanBeatTheQuery | src/recall/routes.ts:375-383 | a concrete graph in which the returned confidence is not the best |
| GraphTime.EndingsCountAfterGrace | src/recall/routes.ts:382-394 | the query returns what it would if relations ended 180 days ago or earlier had never been and all others had not ended |
| GraphTime.ConfidenceIsProduct | src/recall/routes.ts:386-399 | a returned confidence is that of one relation or the product of two on a walk from a seed |
| GraphTime.NoWalkIsBetter | src/recall/routes.ts:396-404 | and no such walk that is no detour has a greater one |
| Reconcile.PreferenceStore.UpsertPreference | src/structured/reconcile.ts:257-312 | the insert, count or supersede branch, as specified, and whether a row was added |
| Reconcile.PreferenceStore.Reconcile | src/structured/reconcile.ts:50-135 | a committed transaction applies every upsert and one provenance row each; one whose upsert, provenance insert or commit throws changes nothing; dedupCount counts the candidates that added no row |
| Reconcile.PreferenceStore.WriteProvenance | src/structured/reconcile.ts:376-411 | one row per id, in order, up to an insert that throws |
| Reconcile.RleEncodes | src/structured/reconcile.ts:268-303 | the run-length encoding used as specification loses nothing and has no equal neighbours |
| Reconcile.HistoryIsChained | src/structured/reconcile.ts:257-312 | after any history of committed and rolled-back transactions, the rows of every key are the run-length encoding of the values asserted for it, linked by supersedes into one chain |
| Reconcile.LastWriteWins | src/structured/reconcile.ts:262-303 | at most one active row per key, holding the last asserted value; evidence counts sum to the assertions; neighbours in the chain differ |
| Reconcile.MarksAreWriteOnce | src/structured/reconcile.ts:287-294 | a superseded_by, once set, never changes |
| Reconcile.SupersededExactly | src/structured/reconcile.ts:284-294 | a chunk is marked exactly when a preference it is a source of was replaced from another chunk, and marks point to later chunks only, so they form no cycle |
| ReconcileSources.ProvenanceIsSources | src/structured/reconcile.ts:382-411 | after any history a chunk is a source of a row exactly if it committed and one of its candidates named it: the row its key had last once that candidate was asserted |
| ReconcileSources.NamedRowCarries | src/structured/reconcile.ts:257-312 | the row a candidate names carries its key and its value |
| ReconcileSources.MadeInTurn | src/structured/reconcile.ts:296-312 | each row of a key was made by the chunk in whose turn its run of equal values began |
| ReconcileSources.MarkedByFirstContradiction | src/structured/reconcile.ts:284-294 | a chunk is superseded by exactly the first later committed chunk that asserts, for some key, another value than the one it asserted last |
| TranscriptTail.Watcher.ProcessFile | src/workers/transcript-watcher.ts:165-311 | a call chooses its start, stored or by the first-run rule, reads at most its cap, hands on exactly the wanted complete lines of the read, and stores the offset after the last of them if the write succeeds |
| TranscriptTail.TickIsProcessFile | src/workers/transcript-watcher.ts:165-311 | a tick whose three steps, reading the offset, reading the size, and finishing, run undisturbed is that method |
| TailLines.HandedAreWantedLines | src/workers/transcript-watcher.ts:248-270 | a line is handed on exactly if it is wanted, not empty, lies wholly in the range, ends at a break, holds none, and starts at the range's start or after a break |
| TailLines.EveryWantedLineIsHandedOn | src/workers/transcript-watcher.ts:172-311 | in every interleaving each wanted whole line between the first offset and the stored one has been handed on, and nothing but wanted whole lines of the file ever is |
| TailLines.FirstRunStartsAtLine | src/workers/transcript-watcher.ts:195-213 | a first run starts at the end of the file, at its beginning, or right after the first break among the last bytes to go back to, if the probe finds it |
| TranscriptTail.NoLineIsSkipped | src/workers/transcript-watcher.ts:172-249 | with appends, overlapping ticks that read the offset and the size at different times, crashes and failed writes in any order, the offset stays on a line boundary, every wanted line below it was handed on, and only complete lines ever are |
| TranscriptTail.SerialTicksDeliverOnceIff | src/workers/transcript-watcher.ts:305-310 | without overlap the offset never falls, and what was handed on is exactly the wanted lines below it, each once and in order, if and only if no tick that handed on a line failed to store its offset |
| TranscriptTail.HandedIncreases | src/workers/transcript-watcher.ts:251-253 | handed-on lines start at increasing positions |
| TranscriptTail.TickAdvancesIff | src/workers/transcript-watcher.ts:227-249 | a tick moves on, and the distance to the last line break falls, exactly when the next pending line fits in one read |
| TranscriptTail.TicksDrainIff | src/workers/transcript-watcher.ts:227-249 | ticks over a quiet file reach its last line break exactly when no pending line is longer than one read |
| TranscriptTail.StepDeliversOnceIff | src/workers/transcript-watcher.ts:172-311 | from any reachable state in which the wanted lines below the offset were handed on once and in order, and with any number of ticks in flight, a step keeps it so exactly unless a tick stores an offset with a line wanted between its start and the stored offset, or hands on a line and stores none |
| TranscriptTail.RunDeliversOnceIff | src/workers/transcript-watcher.ts:347-353 | hence delivery is exactly once throughout a run if and only if every step of it is harmless in that sense |
| TranscriptTail.OverlapInOrderIff | src/workers/transcript-watcher.ts:347-353 | two overlapping ticks that finish in order never move the offset back, and deliver exactly once if and only if the first hands on nothing |
| TranscriptTail.OverlapReversedIff | src/workers/transcript-watcher.ts:347-353 | in the other order the offset moves back exactly when both read a line break and the second a later one, and delivery is exactly once if and only if the first read no break or the second hands on nothing |
| TranscriptTail.OverlapRedelivers | src/workers/transcript-watcher.ts:347-353 | a run in which two overlapping ticks hand the same line on twice, the second reading the size of the file after the first has stored its offset |
| TranscriptTail.OverlapMovesBack | src/workers/transcript-watcher.ts:347-353 | a run in which an overlapping tick lowers the stored offset |
| Strings.SplitJoin | src/workers/git-watcher.ts:97-102 | splitting undoes joining when no piece holds the delimiter and the delimiter does not overlap a shift of itself |
| GitLog.ParseCommits | src/workers/git-watcher.ts:96-117 | the loop computes the specified parse, skipped blocks included |
| GitLog.DelimitersNeverOverlap | src/workers/git-watcher.ts:59-61 | no delimiter overlaps a proper shift of itself or any part of another |
| GitLog.BlockRoundTrip | src/workers/git-watcher.ts:98-114 | the block of a clean commit, with any white space git adds, parses back to it |
| GitLog.RoundTripIffClean | src/workers/git-watcher.ts:193-209 | parsing a rendered log returns the rendered commits if and only if all are clean: trimmed, free of delimiters, with a hash and non-empty one-line file names |
| GitLog.ParseYieldsCleanCommits | src/workers/git-watcher.ts:96-117 | whatever the text, parsed commits are clean |
| GitLog.ReparseIsLossless | src/workers/git-watcher.ts:96-117 | hence rendering and parsing again changes nothing |
| Lru.MemoryEmbeddingCache.Get | src/cache/embeddings.ts:84-92 | returns the entry and moves it to the recent end; a miss changes nothing |
| Lru.MemoryEmbeddingCache.Set | src/cache/embeddings.ts:94-102 | replaces or adds at the recent end and drops the oldest over the cap |
| Lru.EmbeddingCacheIsLru | src/cache/embeddings.ts:71-103 | after any log the cache holds exactly the keys set or hit with fewer than maxSize distinct others since, each with its last set value |
| Lru.UseTracks | src/recall/working-set.ts:38-61 | inserting or hitting with eviction of the oldest keeps the cache the least-recently-used cache of the log |
| Lru.EvictTracks | src/recall/working-set.ts:91-93 | so does an explicit removal |
| Lru.WorkingSet.Add | src/recall/working-set.ts:38-51 | adds or refreshes an entry, keeping its hit count, and stays the least-recently-used cache of its log |
| Lru.WorkingSet.Touch | src/recall/working-set.ts:54-61 | counts a hit and moves the entry; a miss changes nothing |
| Lru.WorkingSet.Evict | src/recall/working-set.ts:91-93 | removes exactly that entry |
| Lru.WorkingSetKeepsRecent | src/recall/working-set.ts:38-61 | a key not evicted and followed by fewer than maxSize distinct others is still held, whatever else was evicted |
| Lru.AnswerCache.Get | src/moderator/cache-precheck.ts:67-78 | an expired entry is deleted, a live one moved without renewing its time |
| Lru.AnswerCache.Set | src/moderator/cache-precheck.ts:80-87 | evicts the oldest when full, then stores |
| Lru.L0KeyDeterminesScope | src/moderator/cache-precheck.ts:34-36 | equal keys of bar-free scopes have the same scope, and with bar-free users the same user and question |
| Lru.L0HitsAreFreshStores | src/moderator/cache-precheck.ts:129-214 | over any interleaving of prechecks the cache is strictly least-recently-used and at most 200, a store finds its key absent, and a hit was stored for the same scope, user and question at most five minutes before |
| CacheContents.L0AnswersIff | src/moderator/cache-precheck.ts:67-87 | in every run the cache answers a question exactly when the least recently used cache of 200 keys holds its key and the latest answer stored for it is at most five minutes old, and with that answer |
| CacheContents.RecentAnswerIsFound | src/moderator/cache-precheck.ts:67-87 | so a question asked again within five minutes of its answer, with fewer than 200 other keys used since, is always answered |
| CacheContents.TouchCounts | src/recall/working-set.ts:54-61 | touching adds one hit to its entry, keeps its candidate and changes no other |
| CacheContents.AddReplaces | src/recall/working-set.ts:38-51 | adding replaces the candidate of a held entry and keeps its hits; a new one starts with none and, in a full set, the oldest goes |
| RateLimiter.Guard.WithinRpm | src/ingest/residual.ts:65-73 | the window update and decision |
| RateLimiter.WindowsAreCapped | src/ingest/residual.ts:65-73 | for any clock, at most maxRpm calls per window, and a refusal exactly when its window is full |
| RateLimiter.AtMostTwicePerMinute | src/ingest/residual.ts:62-73 | with a clock that never falls, at most 2 maxRpm calls in any half-open minute |
| RateLimiter.TwiceIsReached | src/ingest/residual.ts:62-73 | for every maxRpm some calls reach that bound |
| RateLimiter.AnyClockIsBoundedIff | src/ingest/residual.ts:65-73 | for clocks that may fall, 2 maxRpm calls in any half-open minute is a bound exactly when maxRpm is at most 1 |
| RateLimiter.BackwardClockIsUnbounded | src/ingest/residual.ts:66-69 | for every maxRpm from 2 on, any number of calls can be admitted at one clock time |
| Compactor.Store.CompactCold | src/workers/compactor.ts:77-135 | a pass writes one gist per processed cluster, demotes exactly their standard chunks, counts each once, and keeps its work, a gist without its demotion included, when an exception ends it |
| Compactor.DemotedAreListed | src/workers/compactor.ts:104-127 | in any pass a chunk changes class exactly when it was standard and the gist of a processed cluster lists it; a gist can list a chunk left standard only if its own update threw |
| Compactor.DemotedIsSizeOfUnion | src/workers/compactor.ts:53-75 | for clusters as selected, chunksDemoted is the size of the union of the processed ones |
| Compactor.CompactionConserves | src/workers/compactor.ts:121-128 | over any passes, standard chunks left plus chunks demoted equal the standard chunks at the start |
| CompactionOutcomes.DemotedIff | src/workers/compactor.ts:79-129 | a chunk changes class exactly when it was standard and is in an existing cluster with a vector and a successful update, no earlier existing one having thrown; it becomes ephemeral |
| CompactionOutcomes.GistsAreInserted | src/workers/compactor.ts:98-119 | a pass inserts, in order, a gist with the topic and all chunks of each existing cluster it reaches whose vector is not empty, also of the one whose update throws |
| CompactionOutcomes.ThrowsIff | src/workers/compactor.ts:79-129 | a pass throws exactly when some existing cluster does |
| CandidateMerge.DedupBy | src/ingest/sidecar.ts:262-272 | the loop with its seen-set computes first-occurrence deduplication |
| CandidateMerge.DedupIsFirstWins | src/ingest/sidecar.ts:262-272 | no key repeats, none is lost or added, and each keeps its first item |
| CandidateMerge.DedupAbsorbs | src/ingest/sidecar.ts:262-272 | deduplicating either part beforehand makes no difference |
| CandidateMerge.MergeExtractorResults | src/ingest/sidecar.ts:232-260 | a merge deduplicates the joined lists of each kind but relations |
| CandidateMerge.MergeIsAssociative | src/ingest/pipeline.ts:305-332 | residual with (sidecar with deterministic) is (residual with sidecar) with deterministic, and one deduplication of all three |
| CandidateMerge.PrimaryWins | src/ingest/sidecar.ts:227-260 | for each key the primary's candidate is kept, else the secondary's |
| CandidateMerge.Extract | src/ingest/pipeline.ts:301-334 | what ingest goes on with is that single deduplication of the sources present, and the path label says which |
| CandidateMerge.ChosenRepeatsNoneIff | src/ingest/pipeline.ts:304-331 | the entities, events, preferences, metrics and commitments stored each repeat no key exactly when something was merged or the deterministic result repeats none |
| CandidatePrecedence.CandidatesTakePrecedence | src/ingest/sidecar.ts:232-260 | once there is anything to merge, each entity (kind, name), event (minute, kind), preference (scope, key) and commitment (kind, directive) occurs at most once, as the residual has it, else the sidecar, else the deterministic result; bars only in the last part |
| CandidatePrecedence.MetricsTakePrecedence | src/ingest/sidecar.ts:232-260 | so does each metric (time, name, dimensions); relations are all kept in that order, and the version is the most preferred one |
| CandidatePrecedence.ScopesCollideIff | src/ingest/sidecar.ts:246-249 | two scopes can give two preferences one key exactly when one scope, a bar added, begins the other |
| CandidatePrecedence.BarsCanMerge | src/ingest/sidecar.ts:246-249 | two different preferences with one key, of which a merge keeps the first |

## Left out

- The moderator's `stop()`, after which buffered messages are dropped and queued cycles may overlap new ones; all moderator results are about a service not stopped.
- The front door of `onMessageReceived`: channel and group filters, prefix stripping, timestamp coercion, chat and thread ids. The model starts where a message enters its buffer.
- Telegram, LLM, embedding and HTTP clients, worker dispatch, audit rows, metrics, the dashboard and configuration: their results are parameters of the steps.
- Other writers of `moderator.state` than the service's cycles and an operator changing the status.
- First runs of the transcript watcher in the run results: the choice of a start is modelled, with what the probe reports as a parameter, but the runs begin from a positive offset stored at a line boundary, which with multi-byte text a first run need not find.
- UTF-8 decoding and JSON parsing of transcript lines: lines are byte strings and a predicate says which are handed on. 0x0A occurs in valid UTF-8 only as itself (section 3 of RFC 3629), so cutting bytes and cutting text agree; files with invalid UTF-8 are not modelled.
- The order in which overlapping ticks hand on their lines one by one: the lines of a tick enter the log together, when it stores its offset or stops. Nothing reads the log, and no line depends on another tick's.
- Truncation or replacement of a transcript file; it only grows.
- Recalls and edits that interleave inside one another, and concurrent reconcile transactions: each is one atomic step.
- `cache.hot_chunks`, spreading activation, warmth and index weights, which no recall result depends on in the model, and `cache.qa`, whose answers are parameters.
- Working sets as objects in the registry: the registry holds their contents, changed by the functions that the methods of `Lru.WorkingSet` are proved to follow.
- Aliasing of candidate objects between a working set and the results it returned: candidates are values, and the score a search raises is raised in the entry.
- Expiry by wall clock inside a recall.
- Hash collisions of queries: a query stands for its SHA-256 digest.
- Viewer scope rules: which chunks a viewer may see is a parameter, and does not change during a run.
- Scoring of chunks after the hop query, the SQL ranking of each route, and regular-expression tokenisers, categorisers and temporal phrases.
- Weights given explicitly as undefined, for which the merge falls back to 0.5; a weight is present or absent.
- Rounding of floating-point scores; ties and sums are those of real numbers.
- Entities, relations, events, metrics and commitments in reconcile, which add upserts of the same shape; preferences are the only kind with chains and marks.
- A COMMIT that the database applies although its client sees it fail.
- Comparison of JSON objects by key order in reconcile: values are compared with equality.
- The summary, embedding, time span and importance of a gist.
- RateLimiter.AtMostTwicePerMinute: is stated for clock readings that do not fall and are not negative; AnyClockIsBoundedIff is about all others.
- Lru.L0HitsAreFreshStores: assumes scope keys and user ids without a bar, which Telegram ids are; so does CacheContents.L0AnswersIff.
- Questions of fewer than four characters, which the precheck turns away before it looks anything up.
- `src/workers/shadow-comparator.ts`, a second tail of the same kind whose cursor counts one byte too many.
