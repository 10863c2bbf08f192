# Verification model of the MIRASTACK agents SDK

This project models, in Dafny 4.11, three parts of the Go SDK for MIRASTACK agents and proves what
they promise.

**The telemetry cache** (`telemetrycache/`) is a read-through cache for range queries, log statistics,
log hits and trace searches. A request is resolved to a tier (chunk size and canonical step), its ends
are aligned to clock boundaries, and a full result is looked up under the aligned window. On a miss the
window is cut into chunks, the chunks are looked up in one batch, the missing ones are fetched by a
bounded pool of workers, the replies are merged, thinned to the step asked for, and stored again at
both levels.

**Registration** (`serve.go`, `context.go`) is the loop that registers a plugin with the engine, retries
with capped doubling waits, sends heartbeats, and registers again when the engine asks for it.

**Routing semantics** (`routing_semantics.go`, `validate.go`, `serve.go`) is the normaliser that plugin
validation and the conversion to wire messages both rely on.

## How the model is built

| module | what it holds |
|---|---|
| `Base`, `Sorting`, `Text`, `Sums` | division as Go does it, ascending listings, the string functions used, sums over maps |
| `Tiers`, `Windows` | tiers, aligned windows, chunk lists, keys, lifetimes |
| `Labels`, `Series`, `Thinning`, `Sampling` | series keys, the last-writer-wins merge, downsampling, what they do to a sampled signal |
| `Hits`, `HitsLaws` | the additive merge and downsample of hit counts, and their algebra |
| `Traces` | trace buckets, the merge by trace id |
| `FanOut` | the worker pool as a state machine over every interleaving |
| `CacheAside`, `EngineCache` | the two-level scheme as a function of store, clock and faults, with its runs; the engine's cache as an object |
| `WindowCache` | what the windowed query functions share, for any scope and payload |
| `RangeCache`, `HitsCache`, `TraceCache` | the four cached query functions and what holds over all their runs |
| `RangeMeaning`, `HitsMeaning`, `HitsFields` | what their answers mean when the backend samples signals or counts events, by key and by the fields themselves |
| `Registration` | the registration and heartbeat loops over every sequence of outcomes |
| `Domains`, `Routing`, `RoutingLaws`, `PluginGates` | namespaced names, the normaliser and what it does to items as given, the quality gates, actions on the wire |

Every modelled loop is a method with a loop, proved equal to a function of its inputs; the laws are
then lemmas about that function. The cached query functions change the store of an `EngineCache`
object; each is proved to do exactly one step `CacheAside.Serve`, and the theorems range over all runs
of such steps mixed with evictions and passing time, for every pattern of lookup failures, lost
entries and refused puts.

Points a reader should know:

- A long answer covers the aligned window, not the one asked for; a short one (600 seconds or less) is
  the plain reply to some window with the same aligned key. The theorems say so.
- Times are whole seconds (microseconds for traces); requests take no time and do not overlap each
  other, while the workers of one request interleave freely.
- The backend is an arbitrary function of scope, time, window and step. Where a theorem needs more of it
  (steady, sampling a signal, counting each event once or in its bucket, honouring limits) that is a named predicate.
- The step parser is a parameter; theorems about steps only assume that it reads the four canonical
  texts, and `RangeMeaning.SevensAreShifted` that it reads `7s`.
- `telemetrycache/telemetrycache_test.go:67` says a range of 0 to 1800 seconds has chunks of 300
  seconds. The code uses 1800 (`telemetrycache/step.go:17-32`), and so does the model.
- `StatsRangeCached` and `HitsCached` lack the guard on empty windows that `RangeQueryCached` has
  (`telemetrycache/rangecache.go:35-37`). An empty window whose end lies above the minute its start is in
  shares its key with that minute: log statistics then answer the minute with the reply to the empty
  window, hits with an empty result. `RangeCache.StatsHarmlessIff` and `HitsCache.HarmlessIff` give the exact
  condition; for hits, history independence is proved for all runs of requests that meet it.
- Each chunk is sampled from its own start. A step that does not divide the chunk size therefore gives other
  points than one direct reply, at every chunk after the first (`RangeMeaning.FineStepMustDivide`).
- Rows of hits are added up by a text made of their `fields`. Texts and JSON texts are told apart exactly; objects
  are if their labels are plain (no `=` or `|` in names, no `|` in values), and an object is the same as a text
  that spells its labels. `HitsFields` speaks of such rows.
- Merging chunks and thinning them to a coarser step equals one direct coarse reply exactly if every
  signal settles: wherever it has a fine sample, it also has one at the coarse point before
  (`Sampling.DownsampledEqualsDirect`, `RangeMeaning.CoarseAnswerIsCoarseSamples`). A signal with gaps need not.
- That a chunk was fetched, or a window asked, at some time means that a request of the run did so then;
  the request under consideration counts as the last of its run.
- The limit of a trace search holds per bucket only, so an answer can be longer than asked for.
  `TraceCache.LimitKeptIff` gives the exact condition under which it cannot.
- While a requested re-registration is pending the failure counter still holds its old value; it is
  not read then. `Registration.RunsAreSafe` relates it to the log whenever heartbeats are being sent.

## Model

| member | source | states |
|---|---|---|
| Tiers.ComputeChunks | telemetrycache/chunk.go:45-59 | the cursor loop lists exactly the back-to-back chunks of the tier from the aligned start on, none for an empty window |
| Tiers.ChunksTileAlignedWindow | telemetrycache/parse.go:246-256 | for every proper window the chunks tile exactly the aligned window the keys use: first start, last end, no gap, no overlap |
| Tiers.EachSecondOnce | telemetrycache/chunk.go:45-59 | a second is in some chunk if and only if it is in the aligned window, and never in two |
| Tiers.TierSpans | telemetrycache/step.go:17-32 | the aligned spans of different tiers lie in disjoint intervals |
| Tiers.AlignedWindowDeterminesTier | telemetrycache/keys.go:16-24 | two requests with one aligned window have the same tier and the same chunks, although the key leaves the chunk size out |
| Tiers.CanonicalStepDividesChunk | telemetrycache/step.go:35-46 | the canonical step of every tier is positive, smaller than the chunk size and divides it |
| Tiers.ChunkSizes | telemetrycache/step.go:17-32 | chunks of 60, 1800, 7200, 21600, 43200 or 86400 seconds, for ranges of at most 600, 3600, 21600, 86400, 172800 seconds and above |
| Tiers.CanonicalSeconds | telemetrycache/step.go:35-46 | canonical steps of 15, 30, 60 or 300 seconds, for ranges of at most 600, 3600, 21600 seconds and above |
| Tiers.StepsArePositive | telemetrycache/rangecache.go:51-62 | whatever step text is given, the fetched step is positive and exceeds neither the canonical nor the effective step |
| Windows.ListKeys | telemetrycache/rangecache.go:81-85 | the key loop lists the chunk keys in chunk order, at the fetched step |
| Windows.StepInUse | telemetrycache/parse.go:258-268 | the step in use is the trimmed text asked for if it reads as a positive number of seconds, else 15, 30, 60 or 300 seconds by the range; chunks are fetched at it or, if that is finer, at the one of the range |
| Windows.ChunkKeysDiffer | telemetrycache/keys.go:26-37 | the chunk keys of one request are pairwise different |
| Windows.FullKeyDeterminesPlan | telemetrycache/keys.go:16-76 | requests with one full key have the same tier and steps, and the same chunks if they are harmless |
| WindowCache.GatherChunks | telemetrycache/rangecache.go:81-136 | listing the chunk keys, looking them up, fetching and storing leave exactly what the scheme says |
| WindowCache.WindowsAreFit | telemetrycache/keys.go:16-88 | requests of one function may share their store: keys determine everything cached under them |
| WindowCache.AnswerOfReplies | telemetrycache/rangecache.go:81-147 | after any run, if lookups work and replies can be read, an answer is what one reply per chunk, whenever it was fetched, comes to |
| WindowCache.StrandedAnswer | telemetrycache/rangecache.go:64-136 | if no lookup works, or some chunk is neither a hit nor a reply that can be read, the answer is a plain fetch of the window asked for, at the step asked for or the usual one |
| WindowCache.Staleness | telemetrycache/ttl.go:5-30 | over every run each chunk served was fetched by a request of the run, under 3720 seconds ago, under 240 if under 300 seconds old then, under 135 if under 60 |
| WindowCache.ChunkLives | telemetrycache/ttl.go:18-30 | a chunk fetched and stored stays a hit with that reply for 15, 120 or 3600 seconds, by its age when fetched, whatever run that neither evicts nor loses it lies between |
| Labels.SeriesKey | telemetrycache/chunk.go:62-76 | the key is a function of the label map alone, whatever order the map yields its names in |
| Labels.SeriesKeyInjective | telemetrycache/chunk.go:62-76 | on maps with no `=` or `\|` in names and no `\|` in values, equal keys mean equal maps |
| Labels.ConfusableIffTwoLabels | telemetrycache/chunk.go:62-76 | such a map shares its key with another plain-named one if and only if it has two labels or more, and the other then has a `\|` in a value |
| Labels.KeysCanCollide | telemetrycache/chunk.go:62-76 | a concrete pair of different label maps with one key |
| Series.MergeSeries | telemetrycache/chunk.go:79-127 | the merge loops compute the overlay of all sets by key and timestamp, listed in ascending order |
| Series.MergeIsSorted | telemetrycache/chunk.go:79-127 | keys and timestamps of the output are strictly ascending |
| Series.MergedPointIff | telemetrycache/chunk.go:79-127 | a point is in the output under a key if and only if it is the last one given for its key and timestamp |
| Series.MergeRegroups | telemetrycache/chunk.go:79-127 | merging groups that were merged before, grouped in any way, is merging everything at once |
| Series.MergeIdempotent | telemetrycache/chunk.go:79-127 | merging a merged result changes nothing |
| Series.MergePointsOrderInsensitive | telemetrycache/chunk.go:79-127 | if overlapping points of the sets agree, the same points come out whatever the order of the arguments, and whatever labels they carry |
| Series.MergeOrderInsensitive | telemetrycache/chunk.go:79-127 | if the labels of a shared key agree too, the whole output is the same for every order of the arguments |
| Series.MergeBlocksCommute | telemetrycache/chunk.go:79-127 | two blocks of arguments whose merges agree where they overlap may be swapped, even if the sets inside a block disagree |
| Series.SwappedBlocksShowSame | telemetrycache/chunk.go:79-127 | if only the points of two blocks agree, swapping them shows the same points |
| Series.MergeKeepsSeriesApart | telemetrycache/chunk.go:79-107 | with plain labels the output has exactly the label sets given, each in one series |
| Series.RenderRoundTrip | telemetrycache/chunk.go:109-127 | listing a table and accumulating the list again gives the table back |
| Thinning.Downsample | telemetrycache/chunk.go:130-154 | the greedy loop thins every series to points at least one step apart, and leaves all alone for a non-positive step |
| Thinning.DownsampleOptimal | telemetrycache/chunk.go:130-154 | on ascending timestamps it keeps a gapped subsequence no other is longer than, covers every dropped point within a step, and is idempotent |
| Sampling.ChunkedEqualsDirect | telemetrycache/rangecache.go:81-138 | if the step divides the chunk size, merging faithful chunk replies equals merging one faithful reply for the aligned window |
| Sampling.ChunkedIsDirectIff | telemetrycache/rangecache.go:81-138 | for every signal, with or without gaps, any chunks and any step: the merge of faithful chunk replies holds what one direct reply would if and only if the chunks have a grid point at a value exactly where the window has one |
| Sampling.ChunkedEqualsDirectIff | telemetrycache/rangecache.go:81-138 | for signals with a value at every second that holds exactly if there is a single chunk or the step divides its size |
| Sampling.ThinSignal | telemetrycache/chunk.go:130-154 | for every signal, with or without gaps, and any two steps: thinning the fine samples gives the coarse ones if and only if the signal settles |
| Sampling.SettlesIfDivides | telemetrycache/rangecache.go:56-62 | if the fine step divides the coarse one, settling means that every fine sample has one at the coarse point before |
| Sampling.DownsampledEqualsDirect | telemetrycache/rangecache.go:138-141 | thinning the merged fine samples gives the direct coarse reply if and only if every signal settles |
| Sampling.EverywhereSettles | telemetrycache/rangecache.go:138-141 | signals with a value at every second settle exactly if the coarse step is a multiple or the window has no second coarse point |
| FanOut.RunWithConcurrency | telemetrycache/concurrency.go:5-29 | under any choice of workers the pool ends with every job run once, all slots and entries right, and an error exactly if a job failed |
| FanOut.EveryScheduleEndsAlike | telemetrycache/rangecache.go:107-136 | every interleaving that runs to its end leaves the same slots and store, each job fetched once, and the error of the first failing job to take the lock |
| FanOut.AtMostLimitInFlight | telemetrycache/concurrency.go:9-27 | at every point of every interleaving no more jobs are in flight than the limit |
| FanOut.LimitIsReached | telemetrycache/concurrency.go:6-18 | and under some interleaving as many are, or all if there are fewer or the limit is not positive |
| FanOut.EveryRunEnds | telemetrycache/concurrency.go:19-28 | no interleaving makes more than six moves per job and one per worker |
| FanOut.SomeoneCanMove | telemetrycache/rangecache.go:107-132 | the pool cannot block: while a worker is left, some worker can move |
| CacheAside.ServeKeepsInv | telemetrycache/rangecache.go:63-147 | every request keeps the store invariant: chunk entries are fetches made in the run, full entries the merge of all their chunks or the reply to a request of the run |
| CacheAside.RunKeepsInv | telemetrycache/rangecache.go:63-147 | the invariant holds after every run of requests, evictions and passing time |
| CacheAside.AnswersAreFresh | telemetrycache/ttl.go:5-16 | a chunked answer is the direct reply or the merge of chunk replies that requests of the run fetched, younger than 120 seconds plus their own lifetime |
| CacheAside.BypassAnswer | telemetrycache/rangecache.go:71-79 | a bypassed answer is the direct reply, less than 120 seconds old, to a request with the same key asked in the run or now |
| CacheAside.RepeatIsServed | telemetrycache/rangecache.go:64-79 | once stored, a merged result or a direct reply that is not blank answers every request with its key for 120 seconds, whatever run that does not evict it lies between and whatever the backend says by then |
| CacheAside.BlankIsNeverServed | telemetrycache/storage.go:18-34 | a blank answer never comes out of the store: it is what the backend says now |
| CacheAside.FetchedChunkIsHit | telemetrycache/rangecache.go:92-131 | once fetched and stored, a chunk is a hit with that reply for its lifetime, after any run that neither evicts nor loses it |
| CacheAside.HistoryIndependence | telemetrycache/rangecache.go:63-147 | with an unchanging backend every chunked answer is the one given with no cache, and the one given on an empty store |
| EngineCache.EngineCache.Get | telemetrycache/storage.go:18-34 | a lookup fails, or finds exactly the live non-empty entry |
| EngineCache.EngineCache.GetBatch | telemetrycache/storage.go:36-56 | the batch reply holds exactly the live, non-empty, readable entries asked for; without keys it cannot fail |
| EngineCache.EngineCache.Set | telemetrycache/storage.go:58-67 | a put writes that entry with its expiry, or nothing if it is refused |
| EngineCache.EngineCache.Gather | telemetrycache/rangecache.go:87-136 | sifting, the pool and the puts leave exactly the specified store, and all payloads in chunk order unless a fetch failed |
| EngineCache.AtMostSixFetches | telemetrycache/ttl.go:11 | however the fetches of a request interleave, at most six are in flight |
| EngineCache.SixFetchesMayRun | telemetrycache/ttl.go:11 | and under some interleaving six are, or all if there are fewer |
| RangeCache.RangeQueryCached | telemetrycache/rangecache.go:24-148 | guards, then one step of the two-level scheme: answer and new store |
| RangeCache.StatsRangeCached | telemetrycache/logscache.go:13-127 | the same for log statistics, which have no guard on empty windows |
| RangeCache.RangesAreFit | telemetrycache/keys.go:16-61 | so both range functions may share their store: keys determine everything cached under them |
| RangeCache.RangeHistoryIndependence | telemetrycache/rangecache.go:63-147 | after any run a query over more than 600 seconds is answered as on an empty store |
| RangeCache.RangeStaleness | telemetrycache/ttl.go:5-30 | the staleness bounds for queries over more than 600 seconds, or else the answer is the direct reply |
| RangeCache.ShortWindowAnswer | telemetrycache/rangecache.go:63-79 | a short answer is the reply, under 120 seconds old, to a window asked in the run or now, both ends less than 60 seconds away, at the step asked for, or at 15 seconds if that cannot be read; a proper one for metrics or if all requests are harmless |
| RangeCache.StatsHarmlessIff | telemetrycache/logscache.go:31-62 | a statistics request never makes a later short proper request be answered for an empty window if and only if its own window is proper, or empty with its end not above the minute of its start |
| RangeCache.EmptyStatsAnswers | telemetrycache/logscache.go:31-62 | after any other empty statistics request the minute it shares a key with is answered with the reply to the empty window |
| RangeMeaning.LongAnswerSamplesAlignedWindow | telemetrycache/rangecache.go:81-147 | if the backend samples signals, after any run a long answer is the samples of the aligned window, thinned to the step asked for |
| RangeMeaning.CoarseAnswerIsCoarseSamples | telemetrycache/rangecache.go:138-141 | at a step coarser than the canonical one the answer is the direct coarse samples if and only if every signal settles, whatever its gaps |
| RangeMeaning.FineAnswerIsDirectSamples | telemetrycache/rangecache.go:81-147 | at a step no coarser than the canonical one, after any run, the answer is the direct samples of the aligned window if and only if every signal keeps its grid |
| RangeMeaning.AnswerAtStepAsked | telemetrycache/rangecache.go:51-147 | after any run a query over more than 600 seconds is answered with the direct samples of the aligned window at the step asked for, or at 30, 60 or 300 seconds if that cannot be read, if and only if every signal settles, for a step above these, or keeps its grid |
| RangeMeaning.FineStepMustDivide | telemetrycache/rangecache.go:81-147 | for signals with a value at every second that is the case if and only if there is a single chunk or the step divides the chunk size |
| RangeMeaning.SevensAreShifted | telemetrycache/rangecache.go:81-147 | an hour at seven seconds that is not answered with the direct samples, whatever ran before |
| RangeMeaning.GapsShiftDownsampling | telemetrycache/rangecache.go:138-141 | a half-hour query at one minute that is answered with points at 30 and 90 seconds although the direct answer is empty |
| Hits.HitsSeriesKey | telemetrycache/chunk.go:327-346 | the key of a fields value: the text itself, the key of an object, or the JSON text |
| Hits.MergeHits | telemetrycache/chunk.go:157-214 | the merge loops sum per key and timestamp and list keys, timestamps and total |
| Hits.DownsampleHits | telemetrycache/chunk.go:218-258 | the loop sums each row per step, and leaves all alone for a non-positive step |
| HitsLaws.MergedRow | telemetrycache/chunk.go:157-214 | one row per key in ascending order, timestamps ascending, and per timestamp the sum of all counts given for the key |
| HitsLaws.DownsampledRow | telemetrycache/chunk.go:218-258 | a row keeps its fields, and each bucket counts exactly the hits whose timestamps fall in it |
| HitsLaws.DownsampleCommutesWithMerge | telemetrycache/chunk.go:157-258 | merging and downsampling commute on inputs of any shape |
| HitsLaws.DownsampleComposes | telemetrycache/chunk.go:218-258 | downsampling by a step and then by a multiple of it is downsampling by the multiple |
| HitsLaws.DownsampleComposesIff | telemetrycache/chunk.go:218-258 | for a coarser second step that holds on all inputs if and only if it is a multiple |
| HitsLaws.MergeConserves | telemetrycache/chunk.go:157-214 | merging keeps the sum of all usable counts, and the totals shown add up to it |
| HitsLaws.DownsampleConserves | telemetrycache/chunk.go:218-258 | so does downsampling |
| HitsCache.HitsCached | telemetrycache/logscache.go:130-239 | guards and the default query, then one step of the two-level scheme: answer and new store |
| HitsCache.HitsHistoryIndependence | telemetrycache/logscache.go:165-239 | after any run of harmless requests an answer, for a window of any length, is the one on an empty store |
| HitsCache.HitsAreFit | telemetrycache/keys.go:67-88 | harmless hits requests may share their store over any run |
| HitsCache.HitsStaleness | telemetrycache/ttl.go:5-30 | the staleness bounds hold for hits of any harmless window |
| HitsCache.HitsConservation | telemetrycache/logscache.go:173-238 | if the backend counts each event once, the totals of any answer after any run add up to the events of the aligned window |
| HitsCache.HarmlessIff | telemetrycache/logscache.go:145-174 | with a backend that does not change and always has something to report, a request changes the answer to no later harmless request if and only if it is harmless: proper, or empty with its end not above the minute of its start |
| HitsCache.EmptyAskPoisons | telemetrycache/logscache.go:145-174 | after any other empty request the minute it shares a key with is answered as having no logs |
| HitsMeaning.HitsCountBuckets | telemetrycache/logscache.go:173-238 | if the backend counts each event of a key in its bucket, after any run each bucket of a key in the answer counts exactly the events of the key in the aligned window that fall in it; one row per key |
| HitsMeaning.BucketsAreAsAskedIff | telemetrycache/logscache.go:151-163 | these buckets are those of the step asked for, or of the usual one if that cannot be read, if and only if it is at most 15, 30, 60 or 300 seconds, by the range, or a multiple of that |
| HitsFields.FieldsKeyIff | telemetrycache/chunk.go:327-346 | with plain labels, two fields values have one key if and only if their texts or their label maps are equal, or one spells the labels of the other |
| HitsFields.MergeKeepsFieldsApart | telemetrycache/chunk.go:157-214 | rows come out in order, one for all that have the same fields; a row lists the readable timestamps given for its fields, ascending, and its counts and total add up all given for them |
| HitsFields.ShareRowIff | telemetrycache/chunk.go:157-176 | two rows given share a row of the output if and only if their fields are the same |
| HitsFields.DownsampledCounts | telemetrycache/chunk.go:218-258 | a row keeps its fields, a bucket `b` counts what the row holds from `b` up to a step above, and the total is all of it |
| HitsFields.HitsCountLines | telemetrycache/logscache.go:130-239 | after any run an answer has one row for all log lines of the aligned window with the same fields, and each row counts exactly the lines with its fields, bucket by bucket and in total |
| HitsFields.BucketsOfStep | telemetrycache/logscache.go:151-163 | these are the buckets of the step asked for, or of 15, 30, 60 or 300 seconds, if it is at most the usual one or a multiple of it |
| HitsFields.FallsInAsAskedIff | telemetrycache/logscache.go:228-233 | fetching at one step and bucketing at a coarser one puts every second in its bucket if and only if the coarser is a multiple |
| Traces.Id | telemetrycache/chunk.go:362-370 | a trace has no id exactly if neither spelling of the field holds a text that is not blank |
| Traces.IdIff | telemetrycache/chunk.go:362-370 | a non-blank text is the id of a trace if and only if its `traceID` holds it, or its `traceId` does and its `traceID` holds no such text |
| Traces.MergeTracesByID | telemetrycache/chunk.go:261-282 | the two loops compute the deduplicated concatenation |
| Traces.MergeDropsHeldIds | telemetrycache/chunk.go:261-282 | the merge keeps, in order, exactly the traces whose `traceID`, or else `traceId`, holds a non-blank text that no earlier trace holds |
| Traces.DedupIds | telemetrycache/chunk.go:261-282 | the output has every non-blank id of the input exactly once, and no other |
| Traces.MergeKeepsFirsts | telemetrycache/chunk.go:261-282 | it is exactly the traces that come first with their id, in the order they come in |
| Traces.MergeRegroups | telemetrycache/chunk.go:261-282 | merging merged groups is merging everything at once, and merging again changes nothing |
| Traces.ComputeTraceBuckets | telemetrycache/chunk.go:285-308 | the loop lists the back-to-back buckets of the effective size from the aligned start on |
| Traces.BucketsTileRange | telemetrycache/chunk.go:285-308 | there are buckets exactly for ranges of a millisecond or more; they are aligned, contiguous, of one size, and cover the range |
| Traces.WidensAsLittleAsPossible | telemetrycache/chunk.go:293-300 | the size asked for is widened only if it would make more than 120 buckets, and then to the least size that does not |
| Traces.BucketWidth | telemetrycache/chunk.go:285-324 | a bucket is as wide as asked for, or else 1, 5, 15 or 30 minutes, 2 or 6 hours by the length of the range, unless 120 of these are too few; then as wide as 120 need |
| Traces.BucketCount | telemetrycache/ttl.go:12 | never more than 122 buckets; at most 120 exactly if the range ends within 120 buckets of its aligned start, as it does when aligned and whole milliseconds |
| Traces.BucketCountIsTight | telemetrycache/chunk.go:285-308 | a range that gets 122 buckets |
| TraceCache.BucketedSearchCached | telemetrycache/tracescache.go:25-127 | guards and the default limit, then one step of the two-level scheme: answer and new store |
| TraceCache.SearchHistoryIndependence | telemetrycache/tracescache.go:45-127 | after any run a bucketed search is answered as on an empty store |
| TraceCache.SearchAnswer | telemetrycache/tracescache.go:71-126 | after any run: distinct traces, every bucket fetched in the run recently enough for its age, for at most the limit asked for or 1000, and at most 122 times that many traces if the backend honours limits |
| TraceCache.StrandedAnswer | telemetrycache/tracescache.go:45-119 | if no lookup works, or some bucket is neither a hit nor a reply that can be read, the answer is a plain search of the window asked for, with the limit asked for |
| TraceCache.TinySearch | telemetrycache/tracescache.go:52-60 | a search over less than a millisecond that is not stored is answered by a plain one |
| TraceCache.BucketLives | telemetrycache/ttl.go:32-43 | a bucket fetched and stored stays a hit, with the reply to a search for at most 1000 traces, for 15, 120 or 3600 seconds by its age |
| TraceCache.SearchIsComplete | telemetrycache/tracescache.go:52-126 | with an honest backend every trace of the answer holds an id text, no two the same, recorded in the bucketed window, and every text recorded there is held by one if no bucket reply reached the limit asked for, or 1000 |
| TraceCache.LimitIsPerBucket | telemetrycache/tracescache.go:88-95 | a backend that honours limits can make the answer as long as the number of buckets times the limit asked for, or 1000 if that is less |
| TraceCache.LimitKeptIff | telemetrycache/tracescache.go:88-126 | the limit asked for is kept after every run with every backend that honours limits if and only if that product does not exceed it |
| Registration.MaintainRegistration | serve.go:465-541 | the heartbeat loop does, outcome by outcome, what the state machine says |
| Registration.RegisterUntilAccepted | serve.go:545-583 | so does the retry loop, until it is accepted, stopped or the outcomes end |
| Registration.RegisterSelf | context.go:521-537 | registration succeeds only on a reply that says so |
| Registration.RunsAreSafe | serve.go:465-583 | over all runs: heartbeats only while registered, tries and waits only while not, waits and intervals as prescribed, counters equal to what the log says |
| Registration.HeartbeatInterval | serve.go:466-531 | over all runs every heartbeat comes at the positive number in the environment; at 30 if the variable is set to anything else; otherwise at 30 until the engine first recommends a positive number, then at the last one recommended |
| Registration.WaitsDouble | serve.go:545-583 | over all runs a wait follows a failed try at once, and is 2 seconds after the first, then twice the one before, but never above 30 |
| Registration.HeartbeatsAreCovered | serve.go:473-533 | before every heartbeat some registration succeeded, with nothing but heartbeats between, none of which asked for another |
| Registration.TotalWaitClosed | serve.go:545-583 | the waits after `n >= 4` failures in a row add up to `30 * (n - 3)` seconds |
| Registration.RetryCost | serve.go:545-583 | in every run, when a retry is due after `n >= 4` failures exactly that was waited, and it is attempt `n + 1` |
| Registration.LawfulIffRun | serve.go:465-583 | a log is lawful if and only if some run produces it |
| Registration.NeverGivesUp | serve.go:545-583 | a run that was never told to stop has not ended |
| Sorting.BeforeIff | routing_semantics.go:61 | a text comes before another if and only if it is a proper beginning of it, or has the smaller character where they first differ |
| Text.BeforeIsByBytes | routing_semantics.go:61 | ordering texts by their characters, as the listings do, is ordering them by their bytes in UTF-8, as the sort does |
| Domains.NamespacedIff | routing_semantics.go:19 | the scanner accepts exactly two or more labels joined by dots |
| Domains.InLettersIff | routing_semantics.go:19 | these are names of two or more labels, each a lower-case letter followed by such letters, digits, `_` and `-`, spelled out |
| Domains.NamespacedIsNormal | routing_semantics.go:42-51 | trimming and lowering leave an accepted name alone |
| Routing.NormalizeDomainList | routing_semantics.go:32-63 | the loop gives the first error from left to right, or the sorted distinct items |
| Routing.NormalizeUseCaseList | routing_semantics.go:65-93 | the same for use cases |
| Routing.NormalizeSingleDomain | routing_semantics.go:95-107 | a single name is accepted exactly if it is blank or valid in normal form |
| Routing.AcceptedIff | routing_semantics.go:32-93 | a list is accepted exactly if it has at most 64 items and its non-blank ones are valid and distinct in normal form |
| Routing.ListFixedIff | routing_semantics.go:32-93 | a list normalises to itself exactly if it is sorted, without repetition, of normal valid items |
| Routing.ListOrderInsensitive | routing_semantics.go:32-93 | acceptance and result of a list do not depend on the order of its items |
| Routing.NormalizeAndValidate | routing_semantics.go:109-171 | the record is normalised field by field, the first failing field decides the error |
| Routing.NormalizedIff | routing_semantics.go:109-171 | exactly the valid records are accepted |
| Routing.ResultIsNormal | routing_semantics.go:109-171 | the result has sorted, duplicate-free lists of valid items and all required fields |
| Routing.FixedIff | routing_semantics.go:109-171 | the fixed points are exactly the records in normal form |
| Routing.NormalizeIdempotent | routing_semantics.go:109-171 | normalising twice changes nothing and does not fail |
| Routing.NormalizeOrderInsensitive | routing_semantics.go:109-171 | acceptance and result do not depend on the order of list items |
| RoutingLaws.ListVariant | routing_semantics.go:32-93 | a list gives the same result, error included, if white space is added at either end of its items and, for domains, letters are made capital |
| RoutingLaws.SingleVariant | routing_semantics.go:95-107 | so does a single domain |
| RoutingLaws.RecordVariant | routing_semantics.go:109-171 | so does a whole record |
| RoutingLaws.PlainListIff | routing_semantics.go:32-93 | items without such space and capitals are accepted if and only if there are at most 64, all different, domains being namespaced and of at most 128 bytes of UTF-8, use cases of at most 256; they come out sorted |
| RoutingLaws.PlainSingleIff | routing_semantics.go:95-107 | a single such domain is accepted unchanged if and only if it is namespaced and of at most 128 bytes; white space alone comes out empty |
| RoutingLaws.BlanksAreSkipped | routing_semantics.go:36-45 | items of white space change nothing, short of making more than 64 items |
| RoutingLaws.ListErrorIs | routing_semantics.go:32-93 | the error of a list is that it has over 64 items, or what is wrong with the first item that is not fine: over its length, not namespaced, or met before |
| RoutingLaws.RequiredIs | routing_semantics.go:119-145 | a required list gives what the list gives, but an error if it is acceptable and all of it is white space |
| RoutingLaws.RecordErrorIs | routing_semantics.go:109-171 | the error of a record is that of its schema version, or names the first field, in the order of the checks, that is not fine |
| PluginGates.ValidatePlugin | validate.go:15-73 | the gates collect every complaint in order |
| PluginGates.PassesIff | validate.go:15-73 | there is no complaint exactly if the plugin is compliant: named, described, staged, actions with distinct ids and valid routing |
| PluginGates.ComplaintIff | validate.go:15-73 | the gates complain of something if and only if it is due: a field missing or white space, an id used before, a routing with just that error |
| PluginGates.ActionsToProto | serve.go:380-428 | every action goes out with its id and description, permission and stages one above, and its routing in normal form if it is valid, else as it is |
| PluginGates.AcceptedRoutingsAreFixed | serve.go:403-424 | every routing an accepted plugin sends is in normal form and a fixed point of the normaliser |
| PluginGates.WireRoutingIdempotent | serve.go:403-406 | sending what was received changes nothing, and what is sent is normal exactly if the original was valid |
| PluginGates.VariantsAreSentAlike | serve.go:403-406 | routings that differ in white space and capitals alone are judged, and if valid sent, alike |
| PluginGates.GatesIgnoreNormalisation | validate.go:53-55 | a plugin passes the gates exactly if it passes with its routings as sent |

## Left out

- HitsCache.HitsHistoryIndependence: only for runs of requests that meet `Harmless`; for the others it is false, as `HitsCache.HarmlessIff` shows.
- Routing.NormalizeDomainList: lower-casing is exact only where the result is ASCII; an item with other letters is rejected either way, but possibly with the other of the errors for length and form.
- Routing.NormalizeAndValidate: an absent list and an empty one are the same value in the model.
- Registration.MaintainRegistration: runs are followed for any finite number of steps; the tick a timer may hold back during a re-registration is not told apart from a later one.
- PluginGates.ActionsToProto: intents and parameter schemas, which only carry data over.
- TraceCache.SearchHistoryIndependence: windows that start before the epoch, and for the other functions likewise times before the epoch.
- Requests that overlap each other in time, so two requests fetching the same chunk at once.
- `GetConfig`: its cache is a single entry with a lifetime; the interesting part would be maps shared by reference, which values do not show.
- The bytes of keys and values: JSON, gzip, SHA-256 and its truncation, and with them collisions of hashed keys; keys are structured values, stored payloads are their parsed form. A failure to encode a merged result cannot occur in the model.
- Floating point: hit counts are real numbers summed exactly, and the ceilings of bucket counts are integer ones.
- Parsing of durations, timestamps and numbers; a timestamp is a number of seconds or unreadable. How the LogsQL time filter treats its end point: a theorem assumes that each event is counted in one chunk.
- int64 overflow; no time in the model is large enough for it in practice.
- A missing fetch callback, query sanitising, instant queries, retries with a coarser step, and the helpers for adaptive steps.
- gRPC, generated messages, OpenTelemetry, metrics, logging, tenant id resolution and deregistration.
