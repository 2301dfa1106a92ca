# Verified models of the WorldBase backend

A Dafny project beside the WorldBase backend. It models the backend's self-contained algorithms and small
protocols and proves what they keep over whole runs. `dafny verify dfyconfig.toml` checks everything.

## What is modelled

Code that changes state in place is a class whose methods are proved equal to a step function, or a method
with loops; the main results are lemmas about every run of those steps. Time is an integer and never runs
backwards, scores are exact reals, tables are sequences of rows.

| file | component | main results |
|---|---|---|
| `Bitemporal.dfy` | version store (`backend/bitemporal.py`) | versions tile system time, time travel replays the log, past answers never change, what database faults do |
| `SingleFlight.dfy` | cache stampede protection (`backend/cache_coalesce.py`) | one fetcher per key in every interleaving, every result justified, nobody left waiting |
| `DigestSelect.dfy` | digest and watch selection (`backend/briefing_digest.py`) | reserved quotas met, output as full as possible, the best kept, and what a limit of 0 leaves |
| `ToolCalls.dfy`, `ToolLoop.dfy` | tool-call streaming and tool loop (`backend/chat_tools.py`) | fragments reassemble, transcripts are well formed, exactly when streaming agrees with not streaming |
| `ZScore.dfy` | z-score detector (`backend/anomaly_detector.py`) | Samuelson and Chebyshev bounds on what training data can be flagged |
| `TokenBudget.dfy` | context budget (`backend/context_budget.py`) | longest fitting prefix, bounded overshoot of every part and of the total, rounding bound |
| `AgentBus.dfy` | agent bus (`backend/agent_bus.py`) | gap-free delivery, dropped exactly on falling 65 messages behind |
| `AisBuffer.dfy`, `AisRecency.dfy` | AIS vessel buffer (`backend/ais_bridge.py`) | what the reports leave in the buffer: latest per vessel, newest vessels kept; it is a recency list, equal times included |
| `TrailTable.dfy` | aircraft trails (`backend/aircraft_trails.py`) | the table is the longest admissible suffix of the log, pruning is invisible to queries |
| `CircuitBreaker.dfy` | circuit breaker (`backend/agent_orchestrator.py`) | failures per sliding window, with the bound reached |
| `ApiNames.dfy` | generated client names (`backend/api_contracts.py`) | pairwise distinct names, and exactly which of them can name a function |
| `DigestCorroboration.dfy` | digest corroboration (`backend/briefing_quality.py`) | only the set of peers counts, only a conflict lowers a score |
| `CorroborationTags.dfy`, `Retagging.dfy` | corroboration tags (`backend/chat_agentic.py`) | one decision per line, never exactly one corroborated, when tagging twice changes a block |
| `Options.dfy`, `Sets.dfy`, `Indices.dfy`, `StableSort.dfy`, `Reals.dfy`, `Decimals.dfy`, `Texts.dfy` | shared | options, finite sets, lists of positions, Python's stable sort, real products, numerals, strings |

## Where the code does not do what its text says

Each of these is modelled as the code does it and proved.

- `record_version` commits its close and its insert separately. A record shows at its own instant exactly when its
  insert succeeds and, for a known entity, its read does (`RecordIsVisibleIff`); a lost insert hides the entity. The
  two-axis query is the system-time answer filtered by validity in every run in which no close fails
  (`AsOfBothFiltersAsOfSystem`). In any run at all it is that exactly when the youngest row known then is valid or no
  older row that is known then is (`TwoAxesAgreeIff`). Right after a failed close this means that the new record is
  valid or the two-axis query had no answer before (`FailedCloseAgreesIff`); `FailedCloseBreaksAsOfBoth` gives two calls
  for which it fails, and `CorrectionBreaksAsOfBoth` a failed close that does harm only once a correction follows.
- The z-score detector flags none of its own training values in histories of up to 9, except below the variance floor
  of 1e-9: there it can flag all of them (`TinySpreadFlagsEverything`), and `OwnValuesFlaggedIff` says exactly which.
- The auxiliary text, cut by characters to a room of b tokens, can still hold floor(8b/3) (`CharacterCutOvershoots`);
  it fits exactly when it did uncut or few enough words are left (`CutFitsIff`). The system prompt is cut the same way
  but goes over by its added note at most (`PromptOvershootsByItsNote`). Context blocks with "system" in their name are
  detected as a category of their own and never reach a result (`SystemBlocksAreNeverAllocated`).
- The retrieval phase checks the circuit once and tries twice, so it can fail threshold + 1 times in one window
  (`RetrievalExceedsThreshold`). The phases "route_retrieval" and "revise" record without checking, so nothing bounds
  them (`RecordsAloneAreUnbounded`), and "critique" checks without recording, so it is never skipped
  (`ChecksAloneNeverOpen`).
- Tagging a block twice is the same as tagging it once exactly when the first pass corroborates nothing
  (`IdempotentIff`), provided that every line closes its brackets and holds no tag inside another bracket;
  `TwoLinesChange` is a block that a second pass changes. Without the proviso a second pass can change a block in which
  the first corroborated nothing: one with open brackets (`OpenBracketsChange`) or with a tag inside another bracket
  (`SwallowedTagChanges`).
- The two tool loops differ for a call that comes without an id or without arguments: only the streaming loop puts
  "call_0" or "{}" in their place. Their transcripts agree exactly when no reply of the run has such a call
  (`StreamingAgreesIff`); `MissingIdDiffers` is a reply of one chunk for which they do not.
- `cached_fetch_json` documents that a ttl of 0 always fetches. With coalescing on, such a call fetches exactly when
  nobody is fetching its key (`CallFetchesIff`); `ZeroTtlJoins` is a run in which it joins.
- `_sort_bucket` with a limit of 0 or less still returns one line exactly when the first feed with a reservation has a
  leading item with a text (`SortBucket`, `NoRoom`).
- A client function can be called "delete", which is a reserved word. That happens exactly for the DELETE of a path
  without pieces (`NamedDeleteIff`), such as the root path (`RootDeleteIsReserved`).

## Model

| member | source | states |
|---|---|---|
| Bitemporal.VersionStore.RecordVersion | backend/bitemporal.py:101-184 | one call reads the highest version, closes the open rows and inserts the next one; any of the three may fail and leaves the rest as the code does |
| Bitemporal.VersionStore.CorrectValidTime | backend/bitemporal.py:306-328 | replaces the validity of the one version named and reports whether it exists; a database exception changes nothing and reports that it does not |
| Bitemporal.StepOfEntity | backend/bitemporal.py:126-140 | the table is a product of one table per entity: a call on one entity commutes with selecting another |
| Bitemporal.HistoryNumbered | backend/bitemporal.py:122-132 | in every run, faults included, an entity's versions are numbered 1 to n in order of insertion |
| Bitemporal.HistoryIsWhatLanded | backend/bitemporal.py:120-175 | in every run, faults included, an entity's history is exactly the records that were not lost |
| Bitemporal.VersionsTileSystemTime | backend/bitemporal.py:101-175 | fault-free runs leave versions 1..n carrying the logged facts, each closing when the next opens, only the last open |
| Bitemporal.RecordAddsARow | backend/bitemporal.py:120-175 | after any run a record without a fault adds one open row with what it was given and closes the open ones at its own time; other entities stay as they are |
| Bitemporal.AsOfSystemReplaysTheLog | backend/bitemporal.py:220-241 | system-time travel returns exactly the last record no later than t, ties to the later call, none before the first |
| Bitemporal.AsOfSystemIsNeverStale | backend/bitemporal.py:220-241 | with any faults the answer is the newest row known by t or nothing |
| Bitemporal.AsOfBothFiltersAsOfSystem | backend/bitemporal.py:273-303 | in every run in which no close fails, the two-axis query is the system-time answer if valid, and nothing otherwise |
| Bitemporal.BothAnswersInTime | backend/bitemporal.py:273-303 | in every run, an answer on both axes was recorded by then and not closed, began to be valid by then and has not ended; a row with an end but no beginning never answers |
| Bitemporal.InTimeAnswersBoth | backend/bitemporal.py:273-303 | conversely, in every run, a system-time answer without bounds, or within them, is the answer on both axes |
| Bitemporal.AsOfBothReplaysTheLog | backend/bitemporal.py:273-303 | fault-free runs answer on both axes with the last logged record by the system time if the validity the log gives it holds the valid time, and with nothing otherwise |
| Bitemporal.TwoAxesAgreeIff | backend/bitemporal.py:220-303 | in every run, with any faults, corrections and clock, the two-axis query is the system-time answer filtered by validity exactly when no older row, known and valid then, stands behind a youngest known row that is not valid |
| Bitemporal.PastAnswersAreImmutable | backend/bitemporal.py:134-139 | no later calls on any entities change which version a past query chooses, faults included |
| Bitemporal.ValidityFollowsTheLog | backend/bitemporal.py:306-328 | in every run, a version's validity is its latest correction, else what was recorded with it |
| Bitemporal.CorrectionReplacesBounds | backend/bitemporal.py:306-328 | after any run a correction replaces both bounds of the version it names and nothing else |
| Bitemporal.HistoryIsNewestFirst | backend/bitemporal.py:187-198 | the history is the versions newest first, cut to a limit that is not negative |
| Bitemporal.OrderedByVersion | backend/bitemporal.py:187-198 | ordering any rows gives all of them, newest version first |
| Bitemporal.RecordIsVisibleIff | backend/bitemporal.py:124-175 | exactly when a record becomes visible after any run, and that a lost insert hides the entity |
| Bitemporal.FailedCloseAnswers | backend/bitemporal.py:134-142 | after a failed close the new row shows on both axes if valid; if not, the two-axis query answers as before the call |
| Bitemporal.FailedCloseAgreesIff | backend/bitemporal.py:134-142 | right after a failed close, whatever came before, the queries agree exactly when the new record is valid or the two-axis query had no answer before |
| Bitemporal.FailedCloseBreaksAsOfBoth | backend/bitemporal.py:134-142 | two calls after which the two-axis query answers with a superseded row |
| Bitemporal.CorrectionBreaksAsOfBoth | backend/bitemporal.py:306-328 | a failed close after which both queries agree, until the older row's validity is corrected |
| SingleFlight.HitIsRecentFetch | backend/runtime_cache.py:20-31 | a call is served from the cache exactly when the key's last fetch that did not raise ended less than the ttl ago, with that fetch's payload |
| SingleFlight.Coalescer.CachedFetchJson | backend/cache_coalesce.py:47-107 | one call up to its first suspension: cache hit, join of an unresolved future, or a new leader |
| SingleFlight.Coalescer.FetchReturned | backend/cache_coalesce.py:104-139 | a returned payload is cached, the leader resolves its future and leaves the map |
| SingleFlight.Coalescer.Resume | backend/cache_coalesce.py:118-120 | a waiter ends with its future's result or exception |
| SingleFlight.AtMostOneFetcherPerKey | backend/cache_coalesce.py:79-120 | in every interleaving at most one coroutine per key fetches, and a key is registered exactly then, with that coroutine's own unresolved future |
| SingleFlight.LeaderRemovesOnlyItsOwn | backend/cache_coalesce.py:104-117 | a finishing leader resolves and removes its own entry and changes no other |
| SingleFlight.NoWaiterIsLost | backend/cache_coalesce.py:104-120 | once no fetcher runs, every call is done or can resume |
| SingleFlight.CallFetchesIff | backend/cache_coalesce.py:69-107 | a call starts a fetch of its own exactly when the cache does not serve it and, with coalescing on, nobody fetches its key; a ttl of 0 only rules out the cache |
| SingleFlight.CallBecomes | backend/cache_coalesce.py:69-107 | in every run a new call is served with the payload of the key's last delivery if that is recent, else it waits on the very future of whoever fetches the key, else it fetches; nobody else is touched |
| SingleFlight.ZeroTtlJoins | backend/cache_coalesce.py:62 | two calls with a ttl of 0 of which the second joins the first one's fetch |
| SingleFlight.EveryResultIsJustified | backend/cache_coalesce.py:69-139 | every returned outcome is a cache entry fresh when read or that of a fetch of the key in progress during the call |
| SingleFlight.StaysOnFuture | backend/cache_coalesce.py:91-120 | a coroutine on a future stays on it until it is done with exactly its outcome |
| SingleFlight.JoinersAgree | backend/cache_coalesce.py:91-120 | the leader and all that ever joined one future get the identical result or exception |
| SingleFlight.WaiterGetsTheFetch | backend/cache_coalesce.py:91-120 | who once waited on the future of a fetch is done only after that fetch, with exactly its outcome |
| SingleFlight.CacheHoldsLatestFetch | backend/cache_coalesce.py:123-139 | a cache entry is the payload and time of the key's last fetch that did not raise |
| DigestSelect.Picker.AppendItem | backend/briefing_digest.py:1154-1162 | takes an item exactly when it has text and an unseen key |
| DigestSelect.Picker.ReserveFrom | backend/briefing_digest.py:1164-1186 | takes from one feed, best severity first, until its cap or the limit is reached or it has no new key left |
| DigestSelect.Picker.Fill | backend/briefing_digest.py:1188-1193 | fills the room left with the best of the rest |
| DigestSelect.SortBucket | backend/briefing_digest.py:1139-1193 | lines with pairwise distinct keys; for a positive limit exactly min(limit, distinct keys) of them, the GDELT quota met exactly, the NewsData quota met or full or exhausted, nothing left out, by severity name and text, that beats a non-reserved pick or a reserved one of its feed; for a limit of 0 or less, one line exactly when the first feed with a reservation is led by an item with a text |
| DigestSelect.FirstLineLeads | backend/briefing_digest.py:1167-1176 | with no room a reservation yields a line exactly when some item with a text leads the feed, and then that one |
| DigestSelect.TextlessLeaderBlocks | backend/briefing_digest.py:1154-1176 | an item without text that ranks first blocks that line, whatever other keys there are |
| DigestSelect.DistinctMeans | backend/briefing_digest.py:1154-1162 | no two picked lines have the same key |
| DigestSelect.GdeltKept | backend/briefing_digest.py:1178-1181 | the first phase takes min(reserve, limit, GDELT keys) items, the best of them |
| DigestSelect.NewsKept | backend/briefing_digest.py:1183-1186 | after the second phase the output is full, or the reserve is met, or every NewsData key is represented |
| DigestSelect.Filled | backend/briefing_digest.py:1188-1193 | after the last phase every line is represented or found the output full and is no better than any non-reserved pick |
| DigestSelect.SelectedLeavesOut | backend/briefing_digest.py:1164-1193 | a text that no pick shows found the list full of non-reserved picks at least as severe; a reservation takes the best of its feed and ends only at its cap, at the limit or when the feed is all shown |
| DigestSelect.SeverityIsPreorder | backend/briefing_digest.py:1135-1136 | the sort key is a total preorder on items |
| DigestSelect.NoWorseIff | backend/briefing_digest.py:1135-1136 | high before medium before low before anything else, and among equals the texts in order |
| DigestSelect.SameKeyIff | backend/briefing_digest.py:1154-1157 | two texts have the same key exactly when their first 80 characters agree up to case |
| DigestSelect.RankWatchItems | backend/briefing_digest.py:1100-1110 | the ranked items are sorted by confidence, one per id, min(cap, ids) of them, and anything left out is a repeat of a better item or found the list full of no worse ones; for a cap of 0 or less exactly the first of the most confident candidates, if there is one |
| ToolCalls.Accumulator.Accumulate | backend/chat_tools.py:678-689 | merges a batch of deltas into the slots, one by one |
| ToolCalls.Accumulator.OrderedToolCalls | backend/chat_tools.py:692-703 | lists the slots by ascending index with the stand-ins for missing ids and arguments |
| ToolCalls.SlotsAreIndependent | backend/chat_tools.py:678-689 | however indices interleave, a slot depends on its own deltas only |
| ToolCalls.BatchingIsIrrelevant | backend/chat_tools.py:678-689 | batches accumulate like their concatenation |
| ToolCalls.FoldConcat | backend/chat_tools.py:681-689 | a slot holds the last id and the last name given and all argument fragments in order |
| ToolCalls.FoldOfStream | backend/chat_tools.py:681-689 | the fragments of one call, in order, give back its id, name and arguments |
| ToolCalls.RoundTrip | backend/chat_tools.py:678-703 | any fragmentation, interleaving and batching that keeps each call's order gives back the calls in index order, "call_" and the index standing in for a missing id and "{}" for missing arguments |
| ToolCalls.IdsDistinctIff | backend/chat_tools.py:694-701 | ids are distinct exactly when the given ones are and none is the stand-in of another call |
| ToolCalls.StandInsIff | backend/chat_tools.py:692-703 | the ordered calls are the calls as sent exactly when none lacks an id or arguments |
| ToolLoop.ReadReply | backend/chat_tools.py:735-752 | reads the stream's lines up to the end mark, skipping what is no data or does not parse |
| ToolLoop.ChunksAre | backend/chat_tools.py:735-752 | the chunks of a stream are exactly its data lines before the end mark, in order |
| ToolLoop.ReplyConcat | backend/chat_tools.py:735-752 | a stream cut in two gives the text of both parts and the slots of both deltas |
| ToolLoop.ExecuteCalls | backend/chat_tools.py:770-784 | runs the calls in order: announcements, client actions, one tool message each |
| ToolLoop.CallEventsTell | backend/chat_tools.py:770-784 | each call of a round is announced by name and followed by its client action if its tool asks for one |
| ToolLoop.ActionsAre | backend/chat_tools.py:770-784 | the client actions of a round are exactly those its tools ask for, in the order of the calls |
| ToolLoop.StreamWithTools | backend/chat_tools.py:706-791 | the streaming loop yields the events and builds the transcript of the round-by-round specification |
| ToolLoop.RunWithTools | backend/chat_tools.py:794-847 | the same for the loop without streaming |
| ToolLoop.TranscriptIsWellFormed | backend/chat_tools.py:720-785 | the input is a prefix; each assistant message with calls is followed by exactly one tool message per call, same order and ids; at most max_rounds rounds |
| ToolLoop.RunTranscriptIsWellFormed | backend/chat_tools.py:805-842 | the same for the loop without streaming |
| ToolLoop.PlainRunReplays | backend/chat_tools.py:794-847 | every run replays against provider and tools: each request is made with exactly the messages so far, and each reply and each tool result stands in the transcript, each client action in the list |
| ToolLoop.StreamReplays | backend/chat_tools.py:706-791 | the same for the streaming loop, with the client actions on its event stream |
| ToolLoop.StreamEndsOnce | backend/chat_tools.py:723-791 | exactly one done, in last place, and at most max_rounds requests |
| ToolLoop.OneRequestPerRound | backend/chat_tools.py:720-791 | one request for every round of calls, and one more for the reply that asks for none, if there is one |
| ToolLoop.AllTextIsShown | backend/chat_tools.py:735-791 | the client sees the text of every assistant message in order, and then the final text |
| ToolLoop.EveryCallIsAnnounced | backend/chat_tools.py:770-772 | the tool announcements are exactly the transcript's calls, in order |
| ToolLoop.StreamingAgreesIff | backend/chat_tools.py:706-847 | for one provider whose whole replies list the raw calls of its streamed ones, both loops build the same transcript exactly when no reply of the run has a call without id or arguments; then the client actions are the same too, in the same order |
| ToolLoop.MissingIdDiffers | backend/chat_tools.py:698-834 | a reply of one chunk without an id, whose call and result are "call_0" in the streamed transcript only |
| ToolLoop.AnswersAgree | backend/chat_tools.py:735-847 | for one provider and a run in which no call lacks an id or arguments, both loops give the same final text, except that the streamed notice of the limit starts on a new line |
| ZScore.TrainZscore | backend/anomaly_detector.py:376-385 | every feed with at least three values, and no other, gets its mean and floored standard deviation |
| ZScore.DetectZscore | backend/anomaly_detector.py:510-540 | reports exactly the metrics of known feeds that lie three or more deviations off, all of them and in order, each with its feed, its value, the score of its distance and the label of the score |
| ZScore.ReportedIffFlagged | backend/anomaly_detector.py:517-539 | a metric is on the list of a detection exactly when its feed is known and flags it; whatever is reported is high or critical |
| ZScore.Samuelson | backend/anomaly_detector.py:382-383 | no value lies further from the mean than the square root of n - 1 standard deviations |
| ZScore.FlagsIff | backend/anomaly_detector.py:523-525 | the threshold without division: the squared distance is at least nine variances |
| ZScore.OwnValuesFlaggedIff | backend/anomaly_detector.py:379-385 | a history of 3 to 9 values flags one of its own exactly when its variance is at most the floor and the value is 3e-9 or more off the mean |
| ZScore.TinySpreadFlagsEverything | backend/anomaly_detector.py:384 | a concrete history below the floor that flags all its own values |
| ZScore.AtMostANinthFlagged | backend/anomaly_detector.py:517-525 | with variance 0 or above the floor at most one training value in nine is flagged, with variance 0 none |
| ZScore.TenValuesCanFlag | backend/anomaly_detector.py:523-525 | nine is sharp: ten values with one flagged at exactly z = 3 |
| ZScore.UnitsDoNotMatter | backend/anomaly_detector.py:382-384 | above the floor, changing a feed's unit or origin changes no verdict |
| TokenBudget.TruncateSection | backend/context_budget.py:179-204 | keeps the text if it fits, else the longest sentence prefix that fits, or the first sentence alone |
| TokenBudget.FillCategory | backend/context_budget.py:329-350 | the sections are the first blocks of the ranked list, each cut to what is left, stopping only when the budget is used up |
| TokenBudget.Reestimate | backend/context_budget.py:112-114 | k kept sentences estimate again to between what was recorded and floor(2k/3) more |
| TokenBudget.OvershootIsOneSentence | backend/context_budget.py:199-202 | a category exceeds its budget at most once, with its last section, by less than one sentence's tokens |
| TokenBudget.NothingBetterIsSkipped | backend/context_budget.py:322-332 | no block is skipped while one with lower provenance in its category is kept |
| TokenBudget.RankedInOrder | backend/context_budget.py:318-332 | a category is filled from each of its non-empty blocks, at the place by provenance and, of equal ones, by position |
| TokenBudget.NothingIsLostWhenAllFits | backend/context_budget.py:314-364 | a request whose parts fit keeps every block outside "system" whole, evidence first, then rag, then aux, and charges the sum of all estimates |
| TokenBudget.SectionsStayInCategory | backend/context_budget.py:117-122 | every section comes from a block of the category it is charged to |
| TokenBudget.CategoryIff | backend/context_budget.py:117-122 | which keywords put a name into each category when it holds several |
| TokenBudget.SystemBlocksAreNeverAllocated | backend/context_budget.py:334-352 | no result holds a section of a block whose name makes it a "system" block |
| TokenBudget.ApplyBudget | backend/context_budget.py:244-404 | refuses an overlong system prompt, else fills evidence, rag and aux in that order, adds up all charges and refuses low quality |
| TokenBudget.QualityIsBetween | backend/context_budget.py:361-373 | the quality lies between the worst and best provenance of what was kept |
| TokenBudget.QualityIsMean | backend/context_budget.py:366-379 | wherever the sections are cut in two, quality times tokens of the whole is that of both parts together |
| TokenBudget.QualityOfOne | backend/context_budget.py:366-379 | the quality of one section is its provenance |
| TokenBudget.RefusedIffMeanIsLow | backend/context_budget.py:379-395 | after the system prompt has passed, a request is refused exactly when the token-weighted mean of its sections is below the threshold |
| TokenBudget.CharacterCutOvershoots | backend/context_budget.py:356-364 | an auxiliary text cut to four characters per token holds at most floor(8b/3) tokens, and for every b some text that many |
| TokenBudget.CutFitsIff | backend/context_budget.py:356-364 | a text fits its room exactly when it did uncut or the characters kept hold few enough words |
| TokenBudget.PromptOvershootsByItsNote | backend/context_budget.py:281-312 | a prompt that is not refused goes over its budget by no more than the tokens of the added note, plus one |
| TokenBudget.TotalIsBounded | backend/context_budget.py:316-364 | the total exceeds the budgets by no more than the note, one longest sentence of the given blocks for each category, and the auxiliary text's cut |
| AgentBus.Bus.Connect | backend/agent_bus.py:271-273 | a stream connects with an empty queue |
| AgentBus.Bus.Broadcast | backend/agent_bus.py:177-189 | every subscriber with room gets the message, the full ones are dropped, and the count is that of the subscribers left |
| AgentBus.Bus.Next | backend/agent_bus.py:276-283 | a stream yields the head of its queue, or a keepalive |
| AgentBus.Bus.Disconnect | backend/agent_bus.py:284-285 | an ending stream leaves the subscribers |
| AgentBus.StreamsAreIndependent | backend/agent_bus.py:177-189 | a stream's queue, output and fate depend only on the publications since it connected and its own steps |
| AgentBus.NoGaps | backend/agent_bus.py:177-189 | what a stream has yielded and its queue are one contiguous slice of the log from its connection on, to its end while subscribed; queues hold at most 64 |
| AgentBus.ReadsDeliver | backend/agent_bus.py:276-283 | after any run, n turns of a stream, subscribed or not, yield the next n messages of its queue and change nothing else |
| AgentBus.CaughtUp | backend/agent_bus.py:177-283 | in every run a subscribed stream that empties its queue has yielded exactly what was published since it connected |
| AgentBus.SubscribedExactlyWhileKeepingUp | backend/agent_bus.py:181-188 | a stream is subscribed exactly as long as it has not ended and was never more than 64 messages behind |
| AgentBus.DroppedForGood | backend/agent_bus.py:187-188 | a dropped stream is never subscribed again and gets nothing more |
| AisBuffer.PointInRegions | backend/ais_bridge.py:269-276 | true exactly for points in some region, borders included |
| AisBuffer.Stream.Ingest | backend/ais_bridge.py:360-398 | stores a report inside the regions and shrinks the buffer; other frames leave it alone; only a service error answers false |
| AisBuffer.Stream.PruneStale | backend/ais_bridge.py:401-411 | removes exactly the vessels older than the limit |
| AisBuffer.Stream.EvictOldest | backend/ais_bridge.py:390-397 | removes as many of the vessels longest unseen as exceed the capacity |
| AisBuffer.BufferFollowsTheLog | backend/ais_bridge.py:360-411 | after every run the buffer is within capacity, holds each kept vessel's latest report, and lost no vessel seen later than one it kept |
| AisBuffer.LogIs | backend/ais_bridge.py:360-385 | the log is the reports inside the regions, in order, each with its own coordinates and the time it came |
| AisBuffer.BufferHoldsLastReports | backend/ais_bridge.py:360-411 | after every run, by arrivals: one vessel per identity, each as its last report inside the regions gave it, and whatever is missing was last reported no later than any vessel held |
| AisBuffer.NewestIsKept | backend/ais_bridge.py:371-397 | the vessel just stored is dropped exactly when the buffer overflows and has no capacity at all, or the report went stale before pruning |
| AisBuffer.OverflowDropsStaleFirst | backend/ais_bridge.py:387-411 | on overflow every stale vessel goes, and a fresh one only if the buffer is left full |
| AisBuffer.NothingLostBelowCapacity | backend/ais_bridge.py:386-388 | nothing is lost, however stale, while no more vessels than the capacity have reported |
| AisBuffer.FullWhileNothingIsStale | backend/ais_bridge.py:386-397 | while nothing can be stale the buffer holds exactly min(reported vessels, capacity) |
| AisRecency.BufferIsRecent | backend/ais_bridge.py:360-411 | after every run, equal times included, the buffer sorted by time is a list in which every report moved its vessel to the end, or to before others seen at that instant, and which lost stale, then excess vessels from its front |
| AisRecency.BufferIsRecencyList | backend/ais_bridge.py:360-411 | when no two stored reports carry the same time, the sorted buffer is a function of the reports: exactly the list that moves each reporting vessel to its end |
| AisRecency.EvictedIff | backend/ais_bridge.py:390-397 | a vessel is evicted exactly when fewer vessels than the excess were seen before it, or at the same instant and stand earlier in the dict |
| TrailTable.Recorder.SnapshotNow | backend/aircraft_trails.py:102-176 | one snapshot: rate limit, failed fetch, empty feed, or insert, prune by age and cap |
| TrailTable.DecodeAll | backend/aircraft_trails.py:126-143 | one row for every decodable state vector and no other, in order, with its position and the time of the snapshot |
| TrailTable.LogIsWhatCameIn | backend/aircraft_trails.py:126-155 | in every run each storing call adds one row to the log for every decodable vector of its feed, in order, and any other call none |
| TrailTable.SnapshotAnswers | backend/aircraft_trails.py:117-176 | a call that is not turned away answers with the number of decodable vectors and of all, or with the fetch error |
| TrailTable.TableIsLongestSuffix | backend/aircraft_trails.py:143-168 | the table is always the longest suffix of the insertion log within the age limit and the row cap |
| TrailTable.SnapshotsAreSpaced | backend/aircraft_trails.py:109-114 | an unforced call that is not turned away comes at least the interval after every call that went through |
| TrailTable.TurnedAwayIff | backend/aircraft_trails.py:109-114 | in every run a call is turned away exactly when it is not forced and comes within the interval after a call that went through, or after time 0 |
| TrailTable.PruningIsInvisible | backend/aircraft_trails.py:180-201 | a query within the age limit and the cap finds in the table what it would find in the complete log |
| TrailTable.MatchingIs | backend/aircraft_trails.py:191-200 | a query finds exactly the rows of its aircraft that are not older than the cutoff, in order |
| CircuitBreaker.Breakers.CircuitOpen | backend/agent_orchestrator.py:106-115 | open exactly with threshold failures and the last within the window; an expired window is forgotten |
| CircuitBreaker.Breakers.RecordFailure | backend/agent_orchestrator.py:118-121 | counts the failure and its time |
| CircuitBreaker.Breakers.RecordSuccess | backend/agent_orchestrator.py:124-127 | forgets the failures |
| CircuitBreaker.Breakers.RunWithTimeout | backend/agent_orchestrator.py:224-244 | records success, or failure for a timeout or an exception |
| CircuitBreaker.Breakers.SinglePhase | backend/agent_orchestrator.py:404-452 | one check, then one attempt |
| CircuitBreaker.Breakers.RetrievalPhase | backend/agent_orchestrator.py:329-403 | one check, then one or two attempts |
| CircuitBreaker.CircuitsAreIndependent | backend/agent_orchestrator.py:90-103 | a phase's circuit depends on its own visits only |
| CircuitBreaker.FailuresPerWindow | backend/agent_orchestrator.py:106-127 | any half-open interval of one window has at most (successes in it + 1) times (threshold + attempts per visit - 1) failures |
| CircuitBreaker.RetrievalExceedsThreshold | backend/agent_orchestrator.py:339-403 | for every configuration, a run of retrieval with threshold + 1 failures and no success in one window |
| CircuitBreaker.OpenIsJustified | backend/agent_orchestrator.py:106-115 | a phase is skipped only when its latest attempts, as many as the threshold, all failed, the last within the window |
| CircuitBreaker.ExpiryForgets | backend/agent_orchestrator.py:106-121 | once a phase at its threshold is admitted after the window, only the attempts of that visit count |
| CircuitBreaker.ChecksAloneNeverOpen | backend/agent_orchestrator.py:593-598 | a phase that checks and never records is never skipped |
| CircuitBreaker.RecordsAloneAreUnbounded | backend/agent_orchestrator.py:848-851 | a phase that records and never checks can fail any number of times in one window |
| ApiNames.PathToMethodName | backend/api_contracts.py:132-149 | computes the camel-cased base name |
| ApiNames.PieceAt | backend/api_contracts.py:143-148 | the verb comes first, then every piece in its place with its first letter raised |
| ApiNames.BaseOfApiPath | backend/api_contracts.py:132-149 | a path of plain pieces below "/api" is named by the verb and those pieces |
| ApiNames.GenerateNames | backend/api_contracts.py:178-194 | names every operation by its base and the number of earlier operations with that base |
| ApiNames.NameOf | backend/api_contracts.py:178-194 | an operation's name is its base, followed by an underscore and the number of earlier operations with that base, if there are any |
| ApiNames.SplitIsInverse | backend/api_contracts.py:139-140 | splitting a path gives back the separator-free pieces it was made of |
| ApiNames.BaseHasNoUnderscore | backend/api_contracts.py:138-149 | no base name contains an underscore |
| ApiNames.NamedReadsBack | backend/api_contracts.py:190-192 | a name determines its base and its number |
| ApiNames.NamesAreDistinct | backend/api_contracts.py:178-194 | the names of all operations are pairwise distinct |
| ApiNames.IdentifierExactlyForHarmlessPaths | backend/api_contracts.py:132-149 | a base name has only identifier characters exactly when its path has only those, slashes, hyphens and braces |
| ApiNames.BaseStartsWithLetter | backend/api_contracts.py:141-147 | a base name starts with its verb, so with a letter |
| ApiNames.NamedDeleteIff | backend/api_contracts.py:141-149 | a base name is "delete" exactly for the DELETE of a path without pieces |
| ApiNames.ValidNameIff | backend/api_contracts.py:132-149 | a base name can name a function exactly when its path is harmless and it is not the lone "delete" |
| ApiNames.RootDeleteIsReserved | backend/api_contracts.py:301-303 | the DELETE of the root path gets a reserved word as its name |
| DigestCorroboration.Gather | backend/briefing_quality.py:304-317 | the loop collects the sources, families and severities of the row and its peers |
| DigestCorroboration.Corroborate | backend/briefing_quality.py:300-346 | score, conflict and label in terms of who the peers are: a conflict exactly when both a high and a low row speak, corroborated exactly for two or more families without a conflict |
| DigestCorroboration.MatchIsSymmetric | backend/briefing_quality.py:278-293 | matching is symmetric |
| DigestCorroboration.MatchIff | backend/briefing_quality.py:278-293 | two rows match exactly when they are different rows of one bucket that lie in one square or share at least 35% of all their words |
| DigestCorroboration.SameFamilyIff | backend/briefing_quality.py:205-214 | two feeds are one family exactly when they are the same feed or both GDELT |
| DigestCorroboration.SameCellIff | backend/briefing_quality.py:263-275 | two points share a cell exactly when one 2-degree square with even corners holds both |
| DigestCorroboration.OnlyWhatPeersSayCounts | backend/briefing_quality.py:312-317 | pools whose peers say the same give the same report |
| DigestCorroboration.SourcesAre | backend/briefing_quality.py:304-317 | a report's sources are exactly those of the row and of the rows that match it |
| DigestCorroboration.ScoreIs | backend/briefing_quality.py:319-332 | every score by the numbers of families and sources, the row's severity and whether there is a conflict |
| DigestCorroboration.PermutedOrRepeated | backend/briefing_quality.py:312-317 | order and repetition of the pool do not matter |
| DigestCorroboration.LargerPool | backend/briefing_quality.py:319-332 | sources, families, support and conflict grow with the pool; only a new conflict lowers a score |
| DigestCorroboration.ScoreInRange | backend/briefing_quality.py:319-336 | the score lies in [0.15, 1], at 0.95 or more if corroborated and 0.65 or less if single-source |
| DigestCorroboration.ConflictIsMutual | backend/briefing_quality.py:330-336 | a high and a low row that match make each other contradictory |
| CorroborationTags.Collect | backend/chat_agentic.py:199-208 | collects the lines with sources, in order, and all sources |
| CorroborationTags.RealSourceIff | backend/chat_agentic.py:164-172 | a bracket is a source exactly when it is at most 30 characters long, no number, and none of the four notes |
| CorroborationTags.IsShared | backend/chat_agentic.py:214-222 | true exactly when some other line has no common source and enough common words |
| CorroborationTags.ApplyTags | backend/chat_agentic.py:183-240 | every line is kept; those with sources are marked by a decision on the original block, the others unchanged; corroborated and uncorroborated add up to the tagged lines |
| CorroborationTags.AllSourcesHold | backend/chat_agentic.py:199-208 | the sources of a block are exactly those of its lines |
| CorroborationTags.SupportIsSymmetric | backend/chat_agentic.py:175-180 | support between lines is symmetric |
| CorroborationTags.WordIff | backend/chat_agentic.py:175-180 | the words of a line are its whole runs of at least four word characters |
| CorroborationTags.OverlapIff | backend/chat_agentic.py:175-180 | lines overlap exactly when both have words and share at least 15% of all of them |
| CorroborationTags.NeverExactlyOne | backend/chat_agentic.py:213-226 | the corroborated count is never exactly one |
| CorroborationTags.MoreLinesKeepSupport | backend/chat_agentic.py:214-222 | further lines never take a corroboration away |
| CorroborationTags.TagsOnlyAppend | backend/chat_agentic.py:224-231 | a line keeps all of its text up to trailing blanks |
| CorroborationTags.TaggedIs | backend/chat_agentic.py:224-231 | a line with sources gets its note at the end unless it holds the note already |
| Retagging.TaggedLine | backend/chat_agentic.py:224-231 | a tag adds exactly itself to the words of any line, and to the sources of a line with closed brackets and no tag inside another bracket |
| Retagging.ReadFromLeft | backend/chat_agentic.py:161 | brackets are read from the left, each up to the next closing one |
| Retagging.SecondPassCorroboratesNothing | backend/chat_agentic.py:183-240 | on plain lines, tagging a tagged block corroborates nothing |
| Retagging.IdempotentIff | backend/chat_agentic.py:210-233 | on lines with closed brackets and no tag inside another bracket, a second pass changes nothing exactly when the first corroborated nothing |
| Retagging.StaysReadable | backend/chat_agentic.py:224-231 | tagged lines keep closed brackets and no tag inside another bracket, so the same holds for every further pass |
| Retagging.TwoLinesChange | backend/chat_agentic.py:210-233 | a block of two plain lines, both corroborated, that a second pass therefore changes |
| Retagging.OpenBracketsChange | backend/chat_agentic.py:199-233 | a block with open brackets of which the first pass corroborates nothing and that the second pass changes |
| Retagging.SwallowedTagChanges | backend/chat_agentic.py:199-233 | a block with closed brackets and a tag inside another bracket that does the same |
| StableSort.SortIsSorted | backend/briefing_digest.py:1167-1188 | Python's sort gives a sorted permutation |
| StableSort.SortedAtRank | backend/briefing_digest.py:1103 | it is stable: every element stands behind exactly the earlier ones that are no greater and the later ones that are smaller |
| StableSort.SortKeepsLastMaximum | backend/ais_bridge.py:390-393 | a last element no smaller than all others stays last in the stable sort |

## Left out

- HTTP clients, FastAPI routes, authentication, SSE framing, LLM providers and scraping: no decidable property in them.
- SQLite: tables are sequences of rows in the order of insertion. Concurrent writers and ids are not part of this model.
- `as_of_valid_time` (backend/bitemporal.py:244-270): the two-axis query without its system-time half. ISO-8601 text comparison: timestamps are integers.
- Task cancellation, `clear_inflight`, the optional disk write and a fetcher that asks for its own key in `cache_coalesce`: the single-flight results assume none.
- Exceptions from providers and tools in the tool loop, the Ollama variants of both loops, and the parsing of tool arguments; a tool is any function of the round, the call and its place.
- Rounding, `tiktoken`, scikit-learn and floating point: exact reals and the word-count estimator. The square root is any exact one.
- Feed classification, sentence splitting, provenance scoring, source inference and text fingerprints are inputs. A NewsData item whose text starts with "news:" also counts as GDELT in the original; here the two flags of an item are independent.
- Case folding and character classes beyond ASCII.
- `context_budget`: the disabled mode, environment parsing, escalation (which changes budgets, threshold and the notes given) and the rendering of results. The auxiliary text is charged but, as in the original, becomes no section.
- `ais_bridge`: building a vessel from a message (a report that cannot be decoded is one kind of frame), the edge receiver's buffer and snapshots. Coordinates are not rounded before the region test.
- `aircraft_trails`: ordering and limiting of query results; they are applied to the rows `PruningIsInvisible` compares.
- `agent_orchestrator`: what the phases retrieve, tag and write; only their attempts are modelled.
- A message lost between a queue and a stream that is cancelled while waiting in `agent_bus`.
- Connector catalog, content security policy, prompts, country tables, alerting, pipeline board: lookups or easy members beside the ones above.
