# Verified model of openstock components

Dafny models of the stateful and parsing components of the repository, one module per source file or
component, each proved against a specification. `dafny verify dfyconfig.toml` checks the whole project.

The outside world is a parameter everywhere: clock readings, file bytes and what `stat` and `open` do, provider
outcomes, transaction outcomes, model replies, `json.loads`, the sanitizer and the markup escape.  Every theorem
holds for all of them.

| module | component |
|---|---|
| `LogTail` | the incremental log reader and its backward block scan |
| `JsonExtract` | extraction of a JSON object from model text; a JSON printer (RFC 8259, sections 4 and 7) to undo |
| `CacheHistory`, `MemoryCache`, `SqliteCache` | the two cache backends against the map of latest sets they stand for |
| `Router`, `Dispatch`, `DispatchCache` | round-robin routing with cooldowns; the dispatch loop over router and memory cache; what later dispatches find in that cache |
| `TurnLifecycle`, `ManagedTools` | a prepared assistant turn, whose every transaction may fail on its own, and its tool loop |
| `Gateway` | retries, schema downgrade and route fallback of the model gateway |
| `ResearchTemplates`, `Groundedness`, `DegradedAnswer` | deterministic answers, the validator, and the answers that pass it |
| `ActionDisclosure` | when a deterministic answer mentions a reported corporate action, and so passes |
| `DisclosureGaps` | tool outputs whose deterministic answers fail the validator |
| `Synthesizer`, `FailClosed` | validation, repair and fallback; and the theorem about all of these put together |
| `Triage` | deduplication of log findings |
| `PublicErrors` | length-bounded public error messages |

A transaction ends in one of four ways (`vnalpha/src/vnalpha/warehouse/write_coordinator.py`, lines 85-106): it
commits, its body raises, its commit is lost, or it commits and releasing the connection or the lock raises.

## What the proofs brought out

- The memory cache is documented as LRU (`cache.py`, line 182). Reads do not reorder it; the oldest *set* goes
  first (`EvictionIgnoresReads`).
- The dispatch loop tries every provider of a pool only for a connector (`ExhaustionContactsPoolIff`).
  `_execute_dispatch` (`vnstock/vnstock/ui/_base.py`, lines 298-422) knows three kinds of target. An API class whose
  constructor names `source` is given it, popped from the shared keyword dict (line 330): the retry handler (line 205)
  then meets a missing key, nobody is marked and nothing is retried (`RetriesIffSourceKept`, `TakenSourceIsMissed`).
  Every other API or explorer target never gets it (lines 342, 372, 409): the same target runs n times, and all n
  providers are put on cooldown for it (`ExhaustionPicksEveryProvider`, `OneSourceUnlessForwarded`). Only a connector
  is given the source and leaves it there. Every pool key that resolves in `vnstock/vnstock/ui/_registry.py` leads to
  `Quote` or `Trading`, which pop it (`vnstock/vnstock/api/quote.py`, line 47; `vnstock/vnstock/api/trading.py`,
  line 30), so exhaustion is about the loop as it is meant, not about a routed entry of the registry.
- The cache key names the first-picked provider. It names the one that produced the value exactly when the target
  popped the source, or was handed it and answered at once (`KeyNamesProducerIff`); of the routed entries of the
  registry that is always so.
- A turn can be recorded as SUCCESS beside a degraded synthesis trace, and be returned as degraded, in exactly one
  case: the session commit lasts but is reported as failed (`TraceBesideSuccess`, `SuccessCanStandBesideDegradation`).
  An answer can name an audit row that was rolled back (`AuditIdDanglesIffRolledBack`, `AuditIdCanDangle`).
- The trace of a failed tool step can stay RUNNING for good (`TracePartition`, `AllTracesFinishedIff`), and can read
  SUCCESS beside tool writes that were rolled back (`SuccessBesideLostWritesIff`, `RefusedProvisioningReadsSuccess`).
- The connected execution changes the prepared plan, and so what its hash is taken of; the managed one, which calls
  the same executor on one object at a time, never does (`ExecutePlan`, `ToolLoop.Execute`).
- Two sessions of one symbol date differently on the two roads: a managed run takes the latest one before the step
  (`ManagedCallIsDated`), the connected execution keeps the first (`FirstSessionDates`).
- Tail reading differs from whole-file parsing when undecodable lines are among the last lines
  (`JunkLineHidesObject`), and a file that vanishes for one read is shown twice (`TransientAbsenceDuplicates`;
  exactly when `records` is the tail of the current file is `RecordsAreCurrentIff`).
- A fence opened on the object's own line lets a second object win (`FenceOnObjectLineHidesIt`; in no other case,
  `ParseRecoversIff`).
- A deterministic research answer can fail its own validator for an unmentioned corporate action: exactly when one is
  reported and no text the answer is built from names it, alone or together with its neighbour
  (`DeterministicAnswerPassesIff`, and `ResearchFallbackPassesIff` for the fallback). One caveat that names it is
  enough (`NamingCaveatSuffices`), and the deep analysis tool adds such a caveat, but only when the price basis is
  verified
  (`vnalpha/src/vnalpha/tools/research_intelligence.py`, lines 118-128; `ActionCaveatNames`,
  `CorporateActionCanGoUnmentioned`). The fallback of other intents lists no missing data and names no price basis
  (`PlainFallbackPassesIff`, `PlainFallbackCanHideMissingData`).
- An empty `choices` list from the model escapes the gateway as an uncaught index error (`FirstSuccessWins`).

## Model

| member | source | states |
|---|---|---|
| `LogTail.SplitAtBoundary` | vnalpha/src/vnalpha/log_viewer.py:270-276 | Cutting a file at a line boundary (LF, CR and CR LF all end lines) cuts its list of lines, and nothing else |
| `LogTail.TailOffsetIsExact` | vnalpha/src/vnalpha/log_viewer.py:293-307 | The tail offset is 0 or just after a line terminator, and the suffix it starts is exactly the last min(N, lines) lines |
| `LogTail.BlockSuffixSuffices` | vnalpha/src/vnalpha/log_viewer.py:299-307 | A block suffix with more than N lines, or the whole file, yields the same offset as the whole file, even when the block border cuts a line or a CR LF pair |
| `LogTail.BoundedTailOffset` | vnalpha/src/vnalpha/log_viewer.py:293-307 | The backward block scan returns that offset for every content, block size and N |
| `LogTail.TailParseExact` | vnalpha/src/vnalpha/log_viewer.py:268-277 | Parsing only the last N lines gives the last N objects of the file if and only if no object lies before those lines or each of those lines is an object |
| `LogTail.IncrementalLogSource.constructor` | vnalpha/src/vnalpha/log_viewer.py:233-239 | A new reader has read nothing and keeps at least one record |
| `LogTail.IncrementalLogSource.ReadNewRecords` | vnalpha/src/vnalpha/log_viewer.py:255-291 | Takes the state to the one the reading rule gives, for an absent file, a failed stat, a failed tail scan or open, rotation, truncation and growth during the read |
| `LogTail.IncrementalLogSource.ReadOpened` | vnalpha/src/vnalpha/log_viewer.py:268-291 | Appends the objects found after the position, keeps the last `max_records`, and moves the position to the end of what was read |
| `LogTail.IncrementalLogSource.ReadLines` | vnalpha/src/vnalpha/log_viewer.py:270-276 | The line loop returns the decoded objects in order and skips undecodable lines |
| `LogTail.IncrementalLogSource.NoteMissing` | vnalpha/src/vnalpha/log_viewer.py:278-282 | A missing file resets identity and position and keeps the records |
| `LogTail.ReadCallKeepsInv` | vnalpha/src/vnalpha/log_viewer.py:255-291 | One read call, wherever it stops and however the file grows meanwhile, keeps the records equal to the last N objects of everything read; without an error it has read the file as of the stat call or of the read |
| `LogTail.ApplyKeepsInv` | vnalpha/src/vnalpha/log_viewer.py:255-291 | Every append, rotation, truncation and read keeps that invariant |
| `LogTail.TailingRefinesParsing` | vnalpha/src/vnalpha/log_viewer.py:255-291 | After any allowed interleaving of these events, `records` is the last N objects of whole-file parsing of everything read so far |
| `LogTail.GrowingFileTailing` | vnalpha/src/vnalpha/log_viewer.py:255-291 | For a file that only grows by whole decodable lines, `records` is the last N objects of the file as of the last read, and one more read catches up with the whole file |
| `LogTail.ReadReturnsObjects` | vnalpha/src/vnalpha/log_viewer.py:255-291 | A call that gets through, on any reader and any file, returns exactly the objects between the place it starts from and the position it leaves, and nothing only if no line in between holds one |
| `LogTail.ReadKeepsTail` | vnalpha/src/vnalpha/log_viewer.py:255-291 | `records` becomes the tail of itself and what is returned; a call has no error exactly when it gets through, and returns nothing otherwise |
| `LogTail.ErrorSaysWhy` | vnalpha/src/vnalpha/log_viewer.py:255-291 | The error is that of a missing file exactly when the file was absent at the stat call, the tail scan or the open, and otherwise that of an unreadable one |
| `LogTail.RecordsAreReturned` | vnalpha/src/vnalpha/log_viewer.py:255-291 | Along any run, whatever happens to the file, `records` is the last N of all that the calls returned |
| `LogTail.ReturnedTailIsHistoryTail` | vnalpha/src/vnalpha/log_viewer.py:255-291 | After any allowed run from a new reader the returned lists, the records and everything read end in the same N objects |
| `LogTail.GrowingFileReturnsOnce` | vnalpha/src/vnalpha/log_viewer.py:255-291 | Of a file that only grows, the calls together return every object once and in order, or an end part of at least N of them |
| `LogTail.RechunkingIsInvisible` | vnalpha/src/vnalpha/log_viewer.py:255-291 | Two runs that end with the same file content have the same records, however appends and reads were cut up |
| `LogTail.FirstReadExact` | vnalpha/src/vnalpha/log_viewer.py:255-291 | On an arbitrary file the first read agrees with whole-file parsing exactly under the condition of TailParseExact |
| `LogTail.LosingTrackCloses` | vnalpha/src/vnalpha/log_viewer.py:255-291 | What the reader owes of an earlier file grows exactly when it loses track (rotation, truncation, or absence at stat or open), by the objects it had seen |
| `LogTail.RecordsAreCurrentIff` | vnalpha/src/vnalpha/log_viewer.py:255-291 | After any allowed run from a new reader, `records` is the last N objects of the file as last read if and only if these are N, or the reader never lost track of a file it had read an object of |
| `LogTail.ReadShowsFileIff` | vnalpha/src/vnalpha/log_viewer.py:255-291 | The same of the whole file after one more read that gets through |
| `LogTail.JunkLineHidesObject` | vnalpha/src/vnalpha/log_viewer.py:270-276 | Concrete input where a junk line in the tail makes the first read miss an object |
| `LogTail.TransientAbsenceDuplicates` | vnalpha/src/vnalpha/log_viewer.py:278-282 | Concrete run where a file missing for one read has its record shown twice |
| `JsonExtract.ExtractIsShortest` | vnalpha/src/vnalpha/assistant/response_json.py:125-150 | A found segment is the unique shortest one from the first brace whose brace depth outside strings returns to zero; none is found only if there is none |
| `JsonExtract.ExtractJson` | vnalpha/src/vnalpha/assistant/response_json.py:125-150 | The one-pass loop over depth, string and escape state computes that segment |
| `JsonExtract.ValueIsNeutral` | vnalpha/src/vnalpha/assistant/response_json.py:133-149 | The text of any JSON value, with nested braces, braces in strings and escaped quotes, leaves the scanner's depth where it was and never goes below |
| `JsonExtract.ObjectText` | vnalpha/src/vnalpha/assistant/response_json.py:133-149 | The scanner meets depth zero in an object's text only at its last character |
| `JsonExtract.ExtractUndoesPrinting` | vnalpha/src/vnalpha/assistant/response_json.py:125-150 | For every object and every surrounding text without a brace before it, extraction returns exactly the printed object |
| `JsonExtract.ObjectPrefixUnique` | vnalpha/src/vnalpha/assistant/response_json.py:125-150 | No text starts with two different object texts |
| `JsonExtract.StripSlice` | vnalpha/src/vnalpha/assistant/response_json.py:111-122 | Where fence stripping cuts: a trimmed slice that starts at the text or after the fence's own line and ends at the text's end or a backtick |
| `JsonExtract.FencedBlock` | vnalpha/src/vnalpha/assistant/response_json.py:111-122 | Of a fenced block fence stripping returns the trimmed body: what stands between the first line and the last fence, or the end when there is none |
| `JsonExtract.ParseJsonResponse` | vnalpha/src/vnalpha/assistant/response_json.py:153-180 | The candidate loop returns the first of text, stripped text and extracted segment that loads as an object, and raises otherwise |
| `JsonExtract.EarlyCandidateAgrees` | vnalpha/src/vnalpha/assistant/response_json.py:160-178 | A candidate that starts no later than the object and loads as an object is that object |
| `JsonExtract.LateCandidateFails` | vnalpha/src/vnalpha/assistant/response_json.py:111-122 | A stripped candidate that starts inside the object never loads as an object, whatever follows; nor does a later one when no brace follows |
| `JsonExtract.ParseRecoversObject` | vnalpha/src/vnalpha/assistant/response_json.py:153-180 | The object is recovered from any brace-free prefix when the prefix closes the line of a fence it opens, when the object spans lines, or when no brace follows |
| `JsonExtract.ParseRecoversIff` | vnalpha/src/vnalpha/assistant/response_json.py:153-180 | With any suffix, the object is recovered if and only if it is not the case that the prefix opens a fence whose line is still open, the object has no newline, the suffix has one, and what follows that newline is another object |
| `JsonExtract.FenceOnObjectLineHidesIt` | vnalpha/src/vnalpha/assistant/response_json.py:111-122 | Concrete text, a fence opened on the object's own line with a different object after it, where that one is returned and the first, which extraction finds, is not |
| `MemoryCache.MemoryBackend.constructor` | vnstock/vnstock/core/cache.py:189-194 | A new store is empty |
| `MemoryCache.MemoryBackend.GetValue` | vnstock/vnstock/core/cache.py:196-204 | Removes the entry it finds expired, returns a live one, and reorders nothing |
| `MemoryCache.MemoryBackend.SetValue` | vnstock/vnstock/core/cache.py:206-214 | Moves the key to the young end and drops from the old end until `max_size` entries are left |
| `MemoryCache.MemoryBackend.EvictOldest` | vnstock/vnstock/core/cache.py:212-214 | The eviction loop leaves the youngest `max_size` entries |
| `MemoryCache.MemoryBackend.Delete` | vnstock/vnstock/core/cache.py:216-218 | Removes exactly the entries of the key |
| `MemoryCache.MemoryBackend.Clear` | vnstock/vnstock/core/cache.py:220-222 | Empties the store |
| `MemoryCache.ApplyKeepsInv` | vnstock/vnstock/core/cache.py:196-222 | Every call keeps: at most `max_size` entries, each the latest set of its key, in the order of those sets, and missing live keys crowded out |
| `MemoryCache.RunKeepsInv` | vnstock/vnstock/core/cache.py:196-222 | The same after every history of calls |
| `MemoryCache.AgreesWithMap` | vnstock/vnstock/core/cache.py:196-214 | A hit is the value of the latest undeleted set within its TTL; a live key misses only if at least `max_size` distinct other keys were set since |
| `MemoryCache.CrowdedOut` | vnstock/vnstock/core/cache.py:206-214 | Conversely `max_size` live keys set later leave no room for the key |
| `MemoryCache.HitIffUncrowded` | vnstock/vnstock/core/cache.py:196-214 | Without deletions or late reads a live key hits if and only if fewer than `max_size` distinct other keys were set since |
| `MemoryCache.EvictionIgnoresReads` | vnstock/vnstock/core/cache.py:182-214 | Concrete run where the entry read last is the one evicted: the policy is not the LRU of the class docstring |
| `SqliteCache.SQLiteBackend.constructor` | vnstock/vnstock/core/cache.py:248-256 | An instance over an empty table, its set counter at zero |
| `SqliteCache.SQLiteBackend.GetValue` | vnstock/vnstock/core/cache.py:274-292 | Deletes the row it finds expired, returns a live one |
| `SqliteCache.SQLiteBackend.SetValue` | vnstock/vnstock/core/cache.py:294-316 | Inserts or replaces the row, and sweeps on every hundredth call of the instance |
| `SqliteCache.SQLiteBackend.Sweep` | vnstock/vnstock/core/cache.py:302-316 | Keeps no expired row and at most `max_size` rows, and evicts no row that expires later than a kept one; ties may fall either way |
| `SqliteCache.SQLiteBackend.Delete` | vnstock/vnstock/core/cache.py:320-325 | Removes exactly the row of the key |
| `SqliteCache.SQLiteBackend.Clear` | vnstock/vnstock/core/cache.py:327-332 | Empties the table and leaves the set counter |
| `SqliteCache.OldestExist` | vnstock/vnstock/core/cache.py:307-313 | There is always a choice of rows for the eviction to make |
| `SqliteCache.EvictedIsOutlasted` | vnstock/vnstock/core/cache.py:307-313 | A row a sweep evicts is outlasted by `max_size` kept ones |
| `SqliteCache.StepKeepsInv` | vnstock/vnstock/core/cache.py:274-332 | Every call keeps the growth bound, the latest-set rows and the explanation of misses |
| `SqliteCache.GrowthIsBounded` | vnstock/vnstock/core/cache.py:246-333 | Between calls of any run the table holds at most `max_size + 99` rows, and at most `max_size` right after each sweep |
| `SqliteCache.AgreesWithMap` | vnstock/vnstock/core/cache.py:274-316 | A hit is the latest set value within its TTL; a live key misses only if a sweep saw it expired or `max_size` other keys were set to last at least as long |
| `Router.ProviderRouter.constructor` | vnstock/vnstock/core/router.py:39-44 | A new router has no counters and no cooldowns |
| `Router.ProviderRouter.PickProvider` | vnstock/vnstock/core/router.py:46-82 | Raises on an empty pool, returns a lone provider without counting, else the next healthy one by the counter or the one that recovers soonest |
| `Router.ProviderRouter.RecordFailure` | vnstock/vnstock/core/router.py:84-100 | Starts the cooldown of exactly one provider of one pool |
| `Router.ProviderRouter.Reset` | vnstock/vnstock/core/router.py:102-106 | Forgets counters and cooldowns |
| `Router.PickPrefersHealthy` | vnstock/vnstock/core/router.py:65-82 | A pick is healthy whenever some provider is, otherwise it recovers no later than any other; picking starts no cooldown |
| `Router.NewPoolStartsFirst` | vnstock/vnstock/core/router.py:65-74 | The first pick from a pool is the first of its healthy providers |
| `Router.PicksAreARotation` | vnstock/vnstock/core/router.py:65-82 | While the healthy set stays fixed, any number of picks walk round it from wherever the counter stands |
| `Router.RoundRobinIsExact` | vnstock/vnstock/core/router.py:65-82 | k consecutive picks over k healthy providers return each exactly once, whatever the starting counter |
| `Router.RotationCount` | vnstock/vnstock/core/router.py:65-82 | In m picks each healthy provider comes m/k times, rounded down or up |
| `Router.RoundRobinIsFair` | vnstock/vnstock/core/router.py:65-82 | Over any number of picks two healthy providers' counts differ by at most one |
| `Router.FailureCools` | vnstock/vnstock/core/router.py:84-100 | A failed provider is unhealthy for 300 seconds after a rate limit and for 60 after any other failure; no other provider, pool or counter changes |
| `Router.CoolingPoolPick` | vnstock/vnstock/core/router.py:65-82 | When all are cooling down the first of those that recover soonest is picked, and nothing is counted |
| `Router.SmallPoolPick` | vnstock/vnstock/core/router.py:55-63 | An empty pool is an error and a lone provider is picked, healthy or not |
| `Dispatch.Dispatcher.constructor` | vnstock/vnstock/ui/_base.py:81-136 | A dispatcher shares the router and the cache it is given |
| `Dispatch.Dispatcher.Run` | vnstock/vnstock/ui/_base.py:81-136 | Pick, lookup and retry loop together change router and cache exactly as the dispatch function says, with its result and attempts |
| `Dispatch.Dispatcher.RunAttempts` | vnstock/vnstock/ui/_base.py:150-213 | The retry loop leaves router, cache, result and attempts as its recursive specification says |
| `Dispatch.Dispatcher.RunTo` | vnstock/vnstock/ui/_base.py:154-213 | The loop itself, attempt by attempt to its end |
| `Dispatch.Dispatcher.TakeAttempt` | vnstock/vnstock/ui/_base.py:154-210 | One pass of the loop either ends it as the loop's specification says or leaves the rest of it to do |
| `Dispatch.Dispatcher.AttemptOnce` | vnstock/vnstock/ui/_base.py:154-210 | One attempt, with the source the target is really handed: success and cache write, a final error, a missing `source` key, or a marked failure and another pick |
| `Dispatch.LoopIsFair` | vnstock/vnstock/ui/_base.py:150-210 | From any point of the loop: at most one attempt per provider in all, each picked fairly |
| `Dispatch.RetriesAreFair` | vnstock/vnstock/ui/_base.py:150-210 | One dispatch over a pool makes at most n attempts and repeats a failed pick only when every unpicked provider was cooling down, whatever the target does with `source` |
| `Dispatch.ExhaustionPicksEveryProvider` | vnstock/vnstock/ui/_base.py:150-213 | If all providers start healthy, every failure is retriable and the target does not pop `source`, each of the n providers is picked exactly once before the last error is raised, and all n end up on cooldown |
| `Dispatch.OneSourceUnlessForwarded` | vnstock/vnstock/ui/_base.py:298-422 | Unless the target is handed the source and leaves it in the dict, all attempts of a dispatch hand over the same: the first pick if it is popped, nothing if it is stripped |
| `Dispatch.ExhaustionContactsPoolIff` | vnstock/vnstock/ui/_base.py:150-422 | Under the same failures the n providers are contacted if and only if the target is handed the source and leaves it there (or pops it from a pool of one); a popping target contacts one, a stripped one none in n attempts. No routed registry entry leaves it there |
| `Dispatch.KeyNamesProducerIff` | vnstock/vnstock/ui/_base.py:96-183 | Of a fetched value the cache key names the provider that produced it if and only if the target popped the source, or was handed it and answered at the first attempt |
| `Dispatch.RetriesIffSourceKept` | vnstock/vnstock/ui/_base.py:205-209 | With the shared keyword dict as written, a retriable first failure leads to a second attempt if and only if the target does not pop `source`; otherwise the handler meets a missing key and no provider is marked |
| `Dispatch.TakenSourceIsMissed` | vnstock/vnstock/ui/_base.py:205-209 | Concrete call over two providers whose target pops `source`: one failed attempt, a missing key, no retry and no cooldown |
| `Dispatch.StartsWithSource` | vnstock/vnstock/ui/_base.py:81-136 | The first attempt starts with the caller's source if one is given, else with the router's pick from the pool, else with the registry's default or none |
| `Dispatch.DispatchEnds` | vnstock/vnstock/ui/_base.py:150-213 | A dispatch that is not answered from the cache ends as its attempts decide: it goes on after exactly the retriable failures that are not the last allowed, and its last attempt gives the value, the error or the missing key |
| `Dispatch.DispatchSetsCooldowns` | vnstock/vnstock/ui/_base.py:199-210 | It leaves exactly the cooldowns its failed attempts call for, each of the length of its kind of failure, and none when the target popped the source |
| `DispatchCache.DispatchStores` | vnstock/vnstock/ui/_base.py:96-183 | A dispatch changes the cache by its own lookup and at most one write; it stores only what its last attempt returned, under the key of the first-picked source |
| `DispatchCache.RunStores` | vnstock/vnstock/ui/_base.py:96-183 | In a run, every dispatch starts from the store that the cache calls before it build |
| `DispatchCache.CachedResultsAreExplained` | vnstock/vnstock/ui/_base.py:96-136 | Over any run from an empty cache, a cached result was fetched by an earlier dispatch of the same request with the same first-picked source and is within its TTL |
| `DispatchCache.DispatchCallsCache` | vnstock/vnstock/ui/_base.py:96-183 | The cache calls of a dispatch are one lookup exactly when the cache is in use, and one write of the value exactly when one was fetched with a TTL in use, at the time of its last attempt |
| `DispatchCache.StillInCache` | vnstock/vnstock/ui/_base.py:131-183 | What a dispatch of any run stored is found by a later lookup of its key, if nothing else was fetched under the key, no lookup came too late, and fewer than `max_size` other keys were stored since |
| `DispatchCache.FetchedIsCachedLater` | vnstock/vnstock/ui/_base.py:96-183 | Conversely to CachedResultsAreExplained: under those conditions a later dispatch of the same key is answered from the cache with the fetched value, without an attempt |
| `TurnLifecycle.ManagedTurn.constructor` | vnalpha/src/vnalpha/assistant/managed_execute.py:47-53 | A prepared turn: no answer, trace, audit or projection yet |
| `TurnLifecycle.ManagedTurn.UpdateTrace` | vnalpha/src/vnalpha/assistant/managed_execute.py:248-267 | A trace update changes the row only if the row and the commit lasted |
| `TurnLifecycle.ManagedTurn.FailTurnAndSession` | vnalpha/src/vnalpha/assistant/managed_execute.py:204-226 | The two failure transactions, each of which may be lost on its own |
| `TurnLifecycle.ManagedTurn.ExecutePrepared` | vnalpha/src/vnalpha/assistant/managed_execute.py:47-153 | Under every schedule of transaction outcomes the stages leave the rows and the outcome of the closed form |
| `TurnLifecycle.ManagedTurn.SynthesizeAndRecord` | vnalpha/src/vnalpha/assistant/managed_execute.py:154-399 | The same from the synthesis trace on |
| `TurnLifecycle.ManagedTurn.RecordSynthesis` | vnalpha/src/vnalpha/assistant/managed_execute.py:228-277 | The answer collects one degradation per failed step of synthesis and its trace |
| `TurnLifecycle.ManagedTurn.PersistEvidence` | vnalpha/src/vnalpha/assistant/managed_execute.py:278-321 | Audit and projection rows, and the degradations of their failures; projection is tried only after a clean audit |
| `TurnLifecycle.ManagedTurn.FinalizeStages` | vnalpha/src/vnalpha/assistant/managed_execute.py:335-395 | Turn row, then session row with the answer and status known at that point, then late trace updates |
| `TurnLifecycle.SuccessIsTruthful` | vnalpha/src/vnalpha/assistant/managed_execute.py:154-399 | The session row reads SUCCESS if and only if everything before it succeeded and its own commit lasted; then the turn reads EXECUTED and, for research intents, audit and projection are committed |
| `TurnLifecycle.TraceBesideSuccess` | vnalpha/src/vnalpha/assistant/managed_execute.py:363-395 | Beside a SUCCESS session the synthesis trace reads SUCCESS except exactly when the session commit lasted but was reported as failed and the late trace update lasted |
| `TurnLifecycle.SuccessUnderCommitOrRollback` | vnalpha/src/vnalpha/assistant/managed_execute.py:154-399 | Without commits that last and still raise, SUCCESS in the session row means success in every row and in the returned answer |
| `TurnLifecycle.DegradationIsDisclosed` | vnalpha/src/vnalpha/assistant/managed_execute.py:228-395 | The returned answer has a degradation if and only if the final status is DEGRADED_SUCCESS, and lists every cause in order |
| `TurnLifecycle.SessionRowMatchesReturn` | vnalpha/src/vnalpha/assistant/managed_execute.py:363-399 | The stored answer and status equal the returned ones if and only if the session transaction ended cleanly |
| `TurnLifecycle.FailureClaimsNoSuccess` | vnalpha/src/vnalpha/assistant/managed_execute.py:54-227 | A turn that raises leaves no row that claims success |
| `TurnLifecycle.OutcomeByStage` | vnalpha/src/vnalpha/assistant/managed_execute.py:47-153 | Which schedules end in a mismatch error, a persistence error or a lifecycle error; all others return |
| `TurnLifecycle.MismatchIsRecordedIff` | vnalpha/src/vnalpha/assistant/managed_execute.py:47-75 | A plan that changed since it was prepared leaves turn and session refused if that commit lasted, and both prepared otherwise |
| `TurnLifecycle.FailureIsRecordedIff` | vnalpha/src/vnalpha/assistant/managed_execute.py:76-227 | A turn that raises reads FAILED if and only if its failure transaction lasted or the tool loop failed both rows, the session likewise, otherwise each stays prepared; a synthesis trace exists only after synthesis gave up, and reads FAILED if and only if that update lasted |
| `TurnLifecycle.ReturnIsRecordedIff` | vnalpha/src/vnalpha/assistant/managed_execute.py:154-399 | Every row of a turn that returns: what its own transaction wrote, if that lasted |
| `TurnLifecycle.StoredAnswerIs` | vnalpha/src/vnalpha/assistant/managed_execute.py:335-399 | The stored answer has the returned audit id and degradations, short of what the session commit itself adds |
| `TurnLifecycle.DegradationsAreExact` | vnalpha/src/vnalpha/assistant/managed_execute.py:228-395 | Each degradation is listed as often as its cause occurred, for every category |
| `TurnLifecycle.DegradationsAreInOrder` | vnalpha/src/vnalpha/assistant/managed_execute.py:228-395 | The degradations come in the order of the stages |
| `TurnLifecycle.TraceRunsForGoodIff` | vnalpha/src/vnalpha/assistant/managed_execute.py:228-395 | The synthesis trace of a turn that returns stays RUNNING if and only if its creation lasted and no update of it did |
| `TurnLifecycle.AuditIdDanglesIffRolledBack` | vnalpha/src/vnalpha/assistant/managed_execute.py:280-302 | The answer names a missing audit row if and only if the audit commit was rolled back after its body ran |
| `TurnLifecycle.TraceOverstatesIff` | vnalpha/src/vnalpha/assistant/managed_execute.py:322-395 | Exactly when a degraded turn keeps a trace row that reads SUCCESS |
| `TurnLifecycle.SuccessCanStandBesideDegradation` | vnalpha/src/vnalpha/assistant/managed_execute.py:363-395 | Concrete schedule: the session row reads SUCCESS while the trace row and the returned status are degraded |
| `TurnLifecycle.AuditIdCanDangle` | vnalpha/src/vnalpha/assistant/managed_execute.py:280-302 | Concrete schedule: the returned answer names an audit row that was rolled back |
| `ManagedTools.ToolPlanStep.constructor` | vnalpha/src/vnalpha/assistant/managed_tools.py:131-144 | A plan step with its own argument dictionary |
| `ManagedTools.RewriteKeepsIff` | vnalpha/src/vnalpha/assistant/executor.py:302-308 | A step keeps its value if and only if it is not dated, or is dated "today" over "today" |
| `ManagedTools.RewritingIsIdempotent` | vnalpha/src/vnalpha/assistant/executor.py:302-308 | Dating a step twice by one session is dating it once |
| `ManagedTools.DatedByKeepsIff` | vnalpha/src/vnalpha/assistant/executor.py:243-259 | A step that meets several sessions keeps its value if and only if none changes it; no later session undoes a change |
| `ManagedTools.ApplyProvisionedDate` | vnalpha/src/vnalpha/assistant/executor.py:288-308 | The loop dates every later step in place, each object once even when the plan shares it |
| `ManagedTools.RewriteStep` | vnalpha/src/vnalpha/assistant/executor.py:302-308 | One step in place, under the three guards |
| `ManagedTools.ExecutePlan` | vnalpha/src/vnalpha/assistant/executor.py:223-260 | The executor's loop on the plan's own objects: how many steps succeed, the arguments of each step when its turn comes, and each object as dated by the sessions provisioned before its last place; the plan's value, and so its hash, is kept if and only if no such session changes a step |
| `ManagedTools.RunSteps` | vnalpha/src/vnalpha/assistant/executor.py:243-260 | The loop stops at the first step that raises, with the plan dated so far |
| `ManagedTools.ProvisionAfter` | vnalpha/src/vnalpha/assistant/executor.py:253-259 | A ready provisioning step dates exactly the objects that stand after it |
| `ManagedTools.ConnectedExecutionChangesPlan` | vnalpha/src/vnalpha/assistant/executor.py:253-259 | Concrete plan of a provisioning step and a deep analysis that the connected execution changes |
| `ManagedTools.FirstSessionDates` | vnalpha/src/vnalpha/assistant/executor.py:243-308 | In the connected execution a deep analysis with an open date gets the date of the first session of its symbol; the text "today" leaves it open for the next |
| `ManagedTools.OthersKeepTheirDate` | vnalpha/src/vnalpha/assistant/executor.py:288-308 | Every other step is left as it is, whatever sessions it meets |
| `ManagedTools.ToolLoop.constructor` | vnalpha/src/vnalpha/assistant/managed_execute.py:76-88 | One running trace per step |
| `ManagedTools.ToolLoop.Execute` | vnalpha/src/vnalpha/assistant/managed_tools.py:31-119 | Rows, tool writes, calls and outcome under every schedule; the prepared objects, handed to executors that date in place, keep their values |
| `ManagedTools.ToolLoop.RunAll` | vnalpha/src/vnalpha/assistant/managed_tools.py:41-119 | The loop over the steps, up to the first failure and no further |
| `ManagedTools.ToolLoop.TakeStep` | vnalpha/src/vnalpha/assistant/managed_tools.py:41-117 | One turn: a step that succeeds, or a failure and its handler |
| `ManagedTools.ToolLoop.Record` | vnalpha/src/vnalpha/assistant/managed_tools.py:58-114 | The step's trace, tool writes and call are recorded, and a failure is handled |
| `ManagedTools.ToolLoop.Provisioned` | vnalpha/src/vnalpha/assistant/managed_tools.py:115-117 | The session known after a successful step |
| `ManagedTools.ToolLoop.HandleFailure` | vnalpha/src/vnalpha/assistant/managed_tools.py:103-114 | One transaction flushes the failed step's trace, fails every later trace, the session and the turn, or none of it |
| `ManagedTools.DatedStep` | vnalpha/src/vnalpha/assistant/managed_tools.py:131-144 | The prepared object itself, or a copy with the provisioned date |
| `ManagedTools.RunStep` | vnalpha/src/vnalpha/assistant/managed_tools.py:44-102 | A step is run by an executor on the plan that holds just its object, and no object of the prepared plan changes value |
| `ManagedTools.ExecuteOne` | vnalpha/src/vnalpha/assistant/managed_tools.py:44-58 | The executor's loop on a one-object plan dates nothing, since nothing stands after the object |
| `ManagedTools.TracePartition` | vnalpha/src/vnalpha/assistant/managed_tools.py:41-114 | If step f fails first and the handler's transaction lasts, earlier traces read SUCCESS and later ones FAILED after exactly one committed update each; exactly when the failed step's own trace stays RUNNING or reads SUCCESS |
| `ManagedTools.AllTracesFinishedIff` | vnalpha/src/vnalpha/assistant/managed_tools.py:103-114 | Every trace of a failed plan is finished if and only if the handler lasts and the failing step had an executor and did not lose its flush at commit |
| `ManagedTools.SuccessBesideLostWritesIff` | vnalpha/src/vnalpha/assistant/managed_tools.py:62-114 | A trace reads SUCCESS beside rolled-back tool writes if and only if it is the failing step's, of a write step whose tool answered, refused as not ready or failed in the flush of the shared transaction, and the handler lasts |
| `ManagedTools.KeptWritesAreTraced` | vnalpha/src/vnalpha/assistant/managed_tools.py:62-81 | Tool writes that were kept have a SUCCESS trace beside them |
| `ManagedTools.RefusedProvisioningReadsSuccess` | vnalpha/src/vnalpha/assistant/managed_tools.py:62-114 | Concrete schedule: provisioning that was not ready leaves no writes and a SUCCESS trace |
| `ManagedTools.ManagedCallIsDated` | vnalpha/src/vnalpha/assistant/managed_tools.py:41-144 | For every plan and schedule, a step run after a ready provisioning step, with no other in between, has exactly its `date` set to the resolved one if it is a deep analysis of that symbol whose date is absent, null or "today", and its own arguments otherwise |
| `ManagedTools.ManagedCallIsPlanned` | vnalpha/src/vnalpha/assistant/managed_tools.py:41-144 | A step with no ready provisioning step before it is run with its own arguments |
| `ManagedTools.LoopStopsAtFirstFailure` | vnalpha/src/vnalpha/assistant/managed_tools.py:41-119 | The steps up to the first failure are run and no more, and the outcome names that step and whether its handler raised |
| `ManagedTools.FailureIsRecordedIff` | vnalpha/src/vnalpha/assistant/managed_tools.py:94-117 | Turn and session are failed together, if and only if a step fails and the handler commit lasts |
| `ManagedTools.LostHandlerLeavesTraces` | vnalpha/src/vnalpha/assistant/managed_tools.py:58-117 | Trace and flush count of every step when the handler transaction is lost |
| `ManagedTools.WritesAreKeptIff` | vnalpha/src/vnalpha/assistant/managed_tools.py:58-117 | Tool writes are kept if and only if they are those of a writing step that was reached, succeeded and was committed with its trace |
| `Gateway.LLMGatewayClient.CallModel` | vnalpha/src/vnalpha/assistant/gateway.py:413-601 | One route's loop of retries and one schema downgrade posts and ends as specified, for timeouts, transport errors, statuses, malformed, empty and non-text completions and an empty `choices` list |
| `Gateway.LLMGatewayClient.Chat` | vnalpha/src/vnalpha/assistant/gateway.py:358-411 | Routes are called in order; posts and the last route decision are recorded |
| `Gateway.LLMGatewayClient.CallRoute` | vnalpha/src/vnalpha/assistant/gateway.py:358-411 | One turn of the route loop: its posts follow those of the earlier routes |
| `Gateway.PostsArePaidFor` | vnalpha/src/vnalpha/assistant/gateway.py:438-539 | Every post but the last is paid for by a retry or the one downgrade; a retryable end means no retry was left |
| `Gateway.LastReplyDecides` | vnalpha/src/vnalpha/assistant/gateway.py:442-601 | Every post but the last met a retryable failure or an unsupported schema, and the last reply decides the result |
| `Gateway.RouteBounds` | vnalpha/src/vnalpha/assistant/gateway.py:438-539 | A route makes at most `max_retries + 2` posts with at most one downgrade, and gives up a retryable failure only after all retries |
| `Gateway.RouteBoundIsReached` | vnalpha/src/vnalpha/assistant/gateway.py:438-539 | For every `max_retries` there are replies that make exactly `max_retries + 2` posts |
| `Gateway.RouteEnds` | vnalpha/src/vnalpha/assistant/gateway.py:504-601 | 503 is never retried; a route answers, crashes or fails fatally if and only if its last reply is a completion, an empty `choices` list or a status without fallback |
| `Gateway.FirstSuccessWins` | vnalpha/src/vnalpha/assistant/gateway.py:358-411 | `chat` returns route r's answer if and only if r answers and every earlier route failed in a way that allows fallback; which route is last; the uncaught index error escapes exactly when the last route meets it |
| `Gateway.ChatPostBound` | vnalpha/src/vnalpha/assistant/gateway.py:358-411 | All routes together make at most `routes * (max_retries + 2)` posts |
| `Gateway.CallFollowsReplies` | vnalpha/src/vnalpha/assistant/gateway.py:413-601 | What follows each post: the same post again after exactly the timeouts, transport errors and retryable statuses while retries are left, the downgraded one after a refused schema, and the result of the last reply; the first format is that of the schema |
| `Gateway.RoutesPostTheirOwn` | vnalpha/src/vnalpha/assistant/gateway.py:358-411 | Each route that is called gets the posts of its own call and no others |
| `Gateway.ChatEndsAsLastRoute` | vnalpha/src/vnalpha/assistant/gateway.py:358-411 | `chat` ends as the last route it calls: its answer, its fatal error, or the error of the last route there is, reported as a lack of compatible routes when a strict schema met a lone incompatible one |
| `Synthesizer.AnswerSynthesizer.Synthesize` | vnalpha/src/vnalpha/assistant/synthesizer.py:79-208 | The outcome of synthesis for every task, the fields that describe it, and the number of model calls |
| `Synthesizer.AnswerSynthesizer.Repair` | vnalpha/src/vnalpha/assistant/synthesizer.py:210-258 | The one repair call and what it leads to |
| `Synthesizer.AnswerSynthesizer.DeterministicFallback` | vnalpha/src/vnalpha/assistant/synthesizer.py:260-293 | A fallback is returned only after both validations pass, otherwise synthesis fails with the fields still empty |
| `Synthesizer.AnswerSynthesizer.RecordValidation` | vnalpha/src/vnalpha/assistant/synthesizer.py:295-312 | The fields and the answer's metadata carry the same verdicts |
| `Synthesizer.ResearchAnswersPassValidation` | vnalpha/src/vnalpha/assistant/synthesizer.py:88-312 | A research answer carries a content on which groundedness and policy passed, with those verdicts, after at most two model calls |
| `Synthesizer.DegradedAnswersPassValidation` | vnalpha/src/vnalpha/assistant/synthesizer.py:260-293 | Any degraded answer was validated, and only fallbacks are degraded |
| `Synthesizer.FailsIffFallbackUnusable` | vnalpha/src/vnalpha/assistant/synthesizer.py:275-286 | A task fails if and only if it falls back and the fallback is missing or does not validate; other exceptions escape exactly when the last model call lets one through |
| `Synthesizer.ReturnsFirstAccepted` | vnalpha/src/vnalpha/assistant/synthesizer.py:88-293 | Whatever road it takes, a research task returns the first that validates of its answer over missing data, the two model contents and the fallback of its cause, and fails if none does |
| `Synthesizer.PlainTaskReturnsReply` | vnalpha/src/vnalpha/assistant/synthesizer.py:79-208 | A task of another intent makes one model call and returns its reply unchanged if that parses and respects the context contract, and otherwise ends in the fallback of the cause |
| `Synthesizer.DegradationNamesCause` | vnalpha/src/vnalpha/assistant/synthesizer.py:79-293 | A degraded answer names the cause that the inputs and replies of the task give |
| `Synthesizer.ModelIsAskedIff` | vnalpha/src/vnalpha/assistant/synthesizer.py:88-258 | When a research task makes no, one or two model calls |
| `ResearchTemplates.CollectPayloads` | vnalpha/src/vnalpha/assistant/research_templates.py:195-207 | The loop collects the payload of each step that has one, in plan order |
| `ResearchTemplates.CollectList` | vnalpha/src/vnalpha/assistant/research_templates.py:210-216 | The loop collects the truthy items of a field, first occurrences only |
| `ResearchTemplates.EarlierStepsComeFirst` | vnalpha/src/vnalpha/assistant/research_templates.py:195-216 | Payloads, the items of any field and the price bases are listed in the order of the steps they come from |
| `Groundedness.ValidSourceRefs` | vnalpha/src/vnalpha/assistant/groundedness.py:236-255 | The set of references the plan and the outputs make valid |
| `Groundedness.MissingData` | vnalpha/src/vnalpha/assistant/groundedness.py:311-322 | The missing artifacts the outputs report, first occurrences in order |
| `Groundedness.RequiredBasisDisclosures` | vnalpha/src/vnalpha/assistant/groundedness.py:325-338 | The price bases and corporate-action flags the outputs report |
| `Groundedness.Validate` | vnalpha/src/vnalpha/assistant/groundedness.py:140-224 | The validator's status and its three lists of findings |
| `Groundedness.FoldedContains` | vnalpha/src/vnalpha/assistant/groundedness.py:167-185 | Containment survives lower-casing and replacing hyphens by spaces |
| `Groundedness.PassesIffGrounded` | vnalpha/src/vnalpha/assistant/groundedness.py:148-216 | PASS is given if and only if references are given and all valid, numbers supported, basis and risks non-blank, and every missing artifact, price basis and corporate action mentioned; PARTIAL only for an unmentioned missing artifact |
| `Groundedness.MissingIsRequiredIff` | vnalpha/src/vnalpha/assistant/groundedness.py:311-322 | An artifact must be mentioned if and only if some output's payload lists it as missing |
| `Groundedness.DisclosureIsRequiredIff` | vnalpha/src/vnalpha/assistant/groundedness.py:325-338 | A basis must be disclosed if and only if some output's payload names it, and the corporate action if and only if one reports it |
| `Groundedness.ReferenceIsValidIff` | vnalpha/src/vnalpha/assistant/groundedness.py:236-255 | A reference is valid if and only if it names a step of the plan, is the id of an output, or is an artifact an output lists |
| `Groundedness.EarlierOutputsComeFirst` | vnalpha/src/vnalpha/assistant/groundedness.py:311-338 | What earlier outputs require is listed first, and later outputs do not change it |
| `Groundedness.BuiltRefsAreValid` | vnalpha/src/vnalpha/assistant/research_templates.py:219-225 | Every reference of a deterministic research answer is valid, whatever the outputs |
| `Groundedness.SummarySays` | vnalpha/src/vnalpha/assistant/research_templates.py:138-188 | The summary holds the wording of the payloads, after a caveat that lists all missing artifacts, or the persisted-context caveat of the two review intents |
| `Groundedness.RisksSay` | vnalpha/src/vnalpha/assistant/research_templates.py:138-188 | The risks hold every caveat of the payloads, every reason and the research-only caveat |
| `Groundedness.BuiltRefsAre` | vnalpha/src/vnalpha/assistant/research_templates.py:195-225 | The answer cites every step and every artifact the steps' payloads list, and nothing else |
| `Groundedness.ClosedAnswerPassesIff` | vnalpha/src/vnalpha/assistant/groundedness.py:148-216 | An answer that lists the payloads' missing data, names their bases and cites valid references passes if and only if there was a step, its numbers are supported and a reported corporate action is mentioned |
| `DegradedAnswer.ToolResultDetails` | vnalpha/src/vnalpha/assistant/degraded_answer.py:273-302 | The loop collects the summaries, warnings and references of the steps' outputs |
| `DegradedAnswer.DetailRefsAreValid` | vnalpha/src/vnalpha/assistant/degraded_answer.py:273-302 | Every reference it collects is one the validator knows |
| `DegradedAnswer.FallbackExistsIff` | vnalpha/src/vnalpha/assistant/degraded_answer.py:106-116 | There is a fallback if and only if the plan has steps, is not refused, and each step is read-only and left a non-empty dictionary |
| `DegradedAnswer.ResearchFallbackSays` | vnalpha/src/vnalpha/assistant/degraded_answer.py:116-131 | The research fallback is the research answer for its reasons; a tool summary is added to its basis, and the references that are added with it are there already |
| `DegradedAnswer.PlainFallbackSays` | vnalpha/src/vnalpha/assistant/degraded_answer.py:132-302 | The summary, tools, reasons and references of the fallback of other intents |
| `DegradedAnswer.FirstSummaryIsFirst` | vnalpha/src/vnalpha/assistant/degraded_answer.py:273-302 | Its summary is that of the first step that has one |
| `DegradedAnswer.ReasonsSay` | vnalpha/src/vnalpha/assistant/degraded_answer.py:118-143 | The reasons always say that the model was not used, name the limits if a cause was given, and warn if a tool did |
| `DegradedAnswer.ResearchFallbackCloses` | vnalpha/src/vnalpha/assistant/degraded_answer.py:118-131 | The research fallback keeps what makes deterministic answers pass |
| `DegradedAnswer.PlainFallbackPassesIff` | vnalpha/src/vnalpha/assistant/degraded_answer.py:132-143 | The fallback of other intents cites nothing unsupported and passes if and only if its numbers are supported and its summary, tool list and reasons together mention everything the outputs require; outputs that require nothing, or only what the summary or a tool's name contains, pass exactly when their numbers are supported |
| `ActionDisclosure.AcrossSpace` | vnalpha/src/vnalpha/assistant/groundedness.py:167-185 | A corporate action occurs in two texts joined by a space if and only if it occurs in one of them or its two words end the first and start the second |
| `ActionDisclosure.MentionsIffNamed` | vnalpha/src/vnalpha/assistant/research_templates.py:138-188 | The validator finds a corporate action in a deterministic answer if and only if a text it is built from names one (sentence, missing artifacts, tools, price bases, tool result, caveats, reasons), or two neighbouring lines split its words |
| `ActionDisclosure.DeterministicAnswerPassesIff` | vnalpha/src/vnalpha/assistant/research_templates.py:138-188 | The deterministic research answer has no unsupported reference and no undisclosed artifact, and passes if and only if there was a step, its numbers are supported, and a reported corporate action is named in that sense by what it is built from |
| `ActionDisclosure.ResearchFallbackPassesIff` | vnalpha/src/vnalpha/assistant/degraded_answer.py:118-131 | The same of the research fallback, with its tool result and its reasons |
| `ActionDisclosure.NamingCaveatSuffices` | vnalpha/src/vnalpha/assistant/research_templates.py:175-176 | With one payload caveat that names the action, both answers pass exactly when their numbers are supported |
| `ActionDisclosure.ActionCaveatNames` | vnalpha/src/vnalpha/tools/research_intelligence.py:123-128 | The caveat of the deep analysis tool for a verified price basis is such a caveat |
| `ActionDisclosure.NotMentioned` | vnalpha/src/vnalpha/assistant/groundedness.py:167-185 | A text without one letter of an item, case aside, does not disclose the item |
| `DisclosureGaps.CorporateActionCanGoUnmentioned` | vnalpha/src/vnalpha/assistant/research_templates.py:138-188 | Concrete tool output, a corporate action beside an unverified price basis, whose deterministic answer fails for the action it never mentions |
| `DisclosureGaps.PlainFallbackCanHideMissingData` | vnalpha/src/vnalpha/assistant/degraded_answer.py:132-143 | Concrete tool output, a summary and one missing artifact, whose plain fallback exists and does not pass |
| `FailClosed.ResearchAnswersAreGrounded` | vnalpha/src/vnalpha/assistant/synthesizer.py:88-312 | Whatever the model replies, a returned research answer cites only valid references, has supported numbers, mentions all that must be disclosed and is within policy |
| `FailClosed.FallbackFailsIff` | vnalpha/src/vnalpha/assistant/synthesizer.py:260-293 | A research turn that falls back fails if and only if its plan is not read-only, a step left no evidence, the fallback has an unsupported number or a policy violation, or a corporate action is reported that nothing the fallback is built from names |
| `FailClosed.MissingDataNeedsNoModel` | vnalpha/src/vnalpha/assistant/synthesizer.py:111-121 | A research turn over missing data makes no model call if and only if its deterministic answer has supported numbers and is within policy, and what it is built from names any reported corporate action |
| `Triage.AddFinding` | scripts/openstock-log-triage.py:369-379 | A known key is merged into its entry, a new one appended |
| `Triage.Deduplicate` | scripts/openstock-log-triage.py:367-390 | The result is strictly sorted, holds one finding per key, each the merge of its whole group, and has the same total of occurrences |
| `Triage.MergedOneMore` | scripts/openstock-log-triage.py:375-379 | One more member of a group adds its occurrences and its locations up to five |
| `Triage.AbsorbKeepsRepresents` | scripts/openstock-log-triage.py:369-379 | Each turn of the loop keeps one merged finding per key seen and the total of occurrences |
| `Triage.SortSorts` | scripts/openstock-log-triage.py:380-390 | Sorting by the key of severity, category, source and evidence is strict, keeps the findings and the total |
| `Triage.KeyLessIsOrder` | scripts/openstock-log-triage.py:383-388 | The sort key is a strict total order on deduplication keys, although its fields come in another order |
| `Triage.KeyLessIff` | scripts/openstock-log-triage.py:383-388 | Findings come by severity with errors first, then by category, source and evidence, each in alphabetical order |
| `Triage.FirstDifferenceDecides` | scripts/openstock-log-triage.py:380-390 | Texts compare at their first difference, and a text that ends there comes first |
| `Triage.MergedSays` | scripts/openstock-log-triage.py:375-379 | A merged finding has its first member's fields, the total of occurrences and the first five of all locations in order; one alone in its group keeps all its locations |
| `Triage.GroupTotalIgnoresOrder` | scripts/openstock-log-triage.py:375-379 | A group's total does not depend on the order of the findings |
| `Triage.SortedKeysAreUnique` | scripts/openstock-log-triage.py:380-390 | Two strictly sorted results with the same keys list them in the same order |
| `Triage.DeduplicationIgnoresOrder` | scripts/openstock-log-triage.py:367-390 | Up to locations, the result is the same for every order of the input |
| `PublicErrors.EscapePrefix` | vnalpha/src/vnalpha/chat/errors.py:113-121 | The binary search loop makes the specified cut |
| `PublicErrors.CutIsBoundary` | vnalpha/src/vnalpha/chat/errors.py:113-121 | For any escape, monotone or not, the cut is zero or fits, and one more character does not fit |
| `PublicErrors.EscapedPrefixFits` | vnalpha/src/vnalpha/chat/errors.py:113-121 | The escaped prefix keeps to its budget for any escape that maps the empty text to the empty text |
| `PublicErrors.CutIsLongest` | vnalpha/src/vnalpha/chat/errors.py:113-121 | When escaped length grows with the prefix, no longer prefix fits |
| `PublicErrors.CutMayMissLonger` | vnalpha/src/vnalpha/chat/errors.py:113-125 | Concrete text with backslashes before a tag that another bracket keeps from being completed, for which a longer prefix fits |
| `PublicErrors.SanitizePublicError` | vnalpha/src/vnalpha/chat/errors.py:66-80 | The scan limit, the uncut case and the cut with its ellipsis |
| `PublicErrors.SanitizedIsBounded` | vnalpha/src/vnalpha/chat/errors.py:66-80 | At most `max_chars` characters, for any sanitizer and escape; a text that fits is not cut |
| `PublicErrors.SanitizedShows` | vnalpha/src/vnalpha/chat/errors.py:66-125 | For any sanitizer, escape and message: a text that does not fit becomes the escape of a prefix without the white space it ends in, and an ellipsis; the prefix fits or is empty, one more character does not fit, and no longer prefix does when escaped length grows with the prefix |
| `PublicErrors.PlainTextIsCut` | vnalpha/src/vnalpha/chat/errors.py:66-80 | A text that needs no escape and has no white space is cut to its first `max_chars - 1` characters and an ellipsis |
| `PublicErrors.FormatActionableToolFailure` | vnalpha/src/vnalpha/chat/errors.py:83-110 | The message is built from prefix, reason within the remaining budget, and suffix |
| `PublicErrors.FormatSuffix` | vnalpha/src/vnalpha/chat/errors.py:84-97 | Remediation and correlation id, each within its own limit |
| `PublicErrors.SuffixIsBounded` | vnalpha/src/vnalpha/chat/errors.py:84-97 | The suffix has at most 2078 characters and contains the sanitized remediation and correlation id whole |
| `PublicErrors.SuffixSays` | vnalpha/src/vnalpha/chat/errors.py:84-97 | The suffix is the steps joined by arrows and the correlation id, each after its label and within its limit, and only if something of it is left |
| `PublicErrors.MessageIsBounded` | vnalpha/src/vnalpha/chat/errors.py:98-110 | More than 4096 characters if and only if the reason is empty, there is a suffix, and the sanitizer makes of the empty reason a text that leaves no room for a separator |
| `PublicErrors.MessageKeepsSuffix` | vnalpha/src/vnalpha/chat/errors.py:98-110 | Whatever the reason, the message keeps its prefix and ends with the whole suffix |
| `PublicErrors.ReasonIsCutOnlyForRoom` | vnalpha/src/vnalpha/chat/errors.py:98-110 | The reason is shown whole whenever the whole message has room for it |
| `PublicErrors.LongReasonIsShortened` | vnalpha/src/vnalpha/chat/errors.py:83-125 | A reason longer than the room its suffix leaves is shown shortened as above, between the prefix and the whole suffix |
| `PublicErrors.FullStopsAreDropped` | vnalpha/src/vnalpha/chat/errors.py:99-110 | The full stops a reason ends in change nothing of the message, and a reason without is not touched |
| `PublicErrors.NothingToSay` | vnalpha/src/vnalpha/chat/errors.py:99-110 | A failure with nothing to say gets the default text |

## Left out

- Log reader: a write that ends in the middle of a line or of a multi-byte character, a truncation that the file outgrows before the next read, and a rotation to a file that reuses the known device and inode (seen as such a truncation, or not at all), are excluded by `LogTail.Allowed`; a file position is a byte count, and `json.loads` of a line is a parameter.
- Log reader: display, level filters, the time-window reader and their formatters are one-branch helpers.
- JSON numbers and escapes: `JsonExtract` admits a superset of RFC 8259 (any run of token characters is an atom, any character may follow a backslash), so the theorems cover all JSON texts; `json.loads` is a parameter constrained only to accept as objects white space around an object text.
- Response parsers for classification and synthesis, and ticker recovery from prompts: field-by-field defaults.
- `CacheManager` pickling, compression of `None` results and the SHA-256 key: the dispatch model takes a key function, assumed injective only where the theorem says so. Exceptions swallowed around cache calls are not modelled.
- SQLite itself: a table is a map from key to row, each statement takes effect at once, and several instances or processes on one file are not modelled. A negative `max_size` (possible through the environment override, `vnstock/vnstock/core/settings.py`, lines 218-222) is excluded: both backends take a natural number.
- Time is a real number; the clock may run backwards except where a theorem asks otherwise. Floating-point rounding of expiry times is not modelled.
- Multi-symbol recursion, quality validation, plugin dispatch and the import machinery of `_dispatch`.
- Thread interleavings: each locked method is one atomic step.
- The approval-gated sandbox branch, the connected twin of `execute_prepared`, the `on_synthesizing` callback, trace-event replay, and the contents of rows beyond status, answer and identifiers.
- The gateway's route resolution, API keys, logging and timing; `retry-after` is recorded by the gateway but never waited for.
- Numeric claims: which claims of an answer the payload supports is a parameter of `Groundedness`, and so are the wording of summaries and the text of values that are not strings.
- Lower-casing is modelled character by character, with the ASCII characters fixed and the others free, which leaves out the context-dependent final sigma of `str.lower`.
- `validate_inputs`, the research policy and the context contract are parameters of `FailClosed`; the messages of the validators are not modelled.
- Lists and tuples are one kind of value in `ResearchTemplates`; `degraded_answer.py` reads warnings and references only from lists.
- Parsing, redaction and rendering of triage input: `Triage` starts from findings. The subprocess tail buffer is not modelled.
- The executor is modelled in its loop over the steps: refusal, permission lookup, argument normalisation and data readiness are part of how a step ends. `analysis.current_symbol` runs outside the step's transaction, so what it writes is not followed.
