/** `BucketedSearchCached` (tracescache.go). */
module TraceCache {
  import opened Base
  import opened Sorting
  import opened Text
  import opened Tiers
  import opened Traces
  import opened CacheAside
  import opened EngineCache
  import Series
  import Windows

  const MAX_LIMIT_PER_BUCKET := 1000

  type Payload = seq<Trace>

  /** What a search looks for. */
  datatype Search = Search(tenant: string, dsID: string, service: string, operation: string, tags: string,
                           minDuration: string, maxDuration: string)

  datatype Ask = Ask(search: Search, startUs: int, endUs: int, limit: int, bucketMs: int)

  datatype TraceKey =
    | Result(ask: Ask)
    | BucketKey(search: Search, limit: int, startUs: int, endUs: int)

  /** The backend's reply, at a time, to a search over a window for at most a number of traces. */
  type Backend = (Search, int, int, int, int) -> Reply<Payload>

  /** The clock of the agent in microseconds, while the engine's stands at a second. */
  type WallClock = int -> int

  function PerBucket(limit: int): int {
    if limit > MAX_LIMIT_PER_BUCKET then MAX_LIMIT_PER_BUCKET else limit
  }

  function Buckets(a: Ask): seq<Chunk> {
    BucketsOf(a.startUs, a.endUs, a.bucketMs)
  }

  function KeyOfBucket(a: Ask, c: Chunk): TraceKey {
    BucketKey(a.search, a.limit, c.start, c.end)
  }

  function BucketKeys(a: Ask): (r: seq<TraceKey>)
    ensures |r| == |Buckets(a)|
    ensures forall i :: 0 <= i < |r| ==> r[i] == KeyOfBucket(a, Buckets(a)[i])
  {
    seq(|Buckets(a)|, i requires 0 <= i < |Buckets(a)| => KeyOfBucket(a, Buckets(a)[i]))
  }

  function PlanOf(a: Ask): Plan<TraceKey> {
    Plan(Result(a), Buckets(a) == [], BucketKeys(a))
  }

  function ReplyFor(backend: Backend, k: TraceKey, now: int): Reply<Payload> {
    match k
    case BucketKey(search, limit, startUs, endUs) => backend(search, now, startUs, endUs, PerBucket(limit))
    case Result(_) => Failed(0)
  }

  /** `TieredChunkTTLMicros`: the age is in whole seconds, cut towards zero. */
  function TieredChunkTTLMicros(endUs: int, nowUs: int): int {
    Windows.TieredChunkTTL(0, Quot(nowUs - endUs, 1_000_000))
  }

  function TtlFor(wall: WallClock, k: TraceKey, now: int): int {
    match k
    case BucketKey(_, _, _, endUs) => TieredChunkTTLMicros(endUs, wall(now))
    case Result(_) => FULL_RESULT_TTL
  }

  ghost function SearchSystem(backend: Backend, wall: WallClock): System<Ask, TraceKey, Payload> {
    System(
      (a: Ask) => a.startUs < a.endUs && a.limit > 0,
      (k: TraceKey) => k.Result?,
      (a: Ask) => PlanOf(a),
      (a: Ask, t: int) => backend(a.search, t, a.startUs, a.endUs, a.limit),
      (k: TraceKey, t: int) => ReplyFor(backend, k, t),
      (a: Ask, sets: seq<Payload>) => Merged(sets),
      (k: TraceKey, t: int) => TtlFor(wall, k, t))
  }

  // ---- the methods ---------------------------------------------------------------------

  /** `BucketedSearchCached`: an empty window is fetched plainly, a missing limit means 50. */
  method BucketedSearchCached(cache: EngineCache<TraceKey, Payload>, connected: bool, backend: Backend, wall: WallClock,
                              search: Search, startUs: int, endUs: int, limit: int, bucketMs: int,
                              faults: Faults<TraceKey>)
    returns (answer: Reply<Payload>)
    modifies cache`entries
    ensures var scoped := search.(tenant := TrimSpace(search.tenant));
      var atMost := if limit <= 0 then 50 else limit;
      (answer, cache.entries) ==
        if endUs <= startUs then (backend(scoped, cache.now, startUs, endUs, limit), old(cache.entries))
        else if !connected || scoped.tenant == "" then
          (backend(scoped, cache.now, startUs, endUs, atMost), old(cache.entries))
        else Serve(SearchSystem(backend, wall), old(cache.entries), cache.now, faults,
          Ask(scoped, startUs, endUs, atMost, bucketMs))
  {
    var scoped := search.(tenant := TrimSpace(search.tenant));
    if endUs <= startUs {
      return backend(scoped, cache.now, startUs, endUs, limit);
    }
    var atMost := limit;
    if atMost <= 0 {
      atMost := 50;
    }
    if !connected || scoped.tenant == "" {
      return backend(scoped, cache.now, startUs, endUs, atMost);
    }
    answer := Query(cache, backend, wall, Ask(scoped, startUs, endUs, atMost, bucketMs), faults);
  }

  method Query(cache: EngineCache<TraceKey, Payload>, backend: Backend, wall: WallClock, a: Ask,
               faults: Faults<TraceKey>)
    returns (answer: Reply<Payload>)
    modifies cache`entries
    ensures (answer, cache.entries) == Serve(SearchSystem(backend, wall), old(cache.entries), cache.now, faults, a)
  {
    assert SearchSystem(backend, wall).plan(a) == PlanOf(a);
    var fullKey := Result(a);
    var hit := cache.Get(fullKey, faults);
    if hit.Found? {
      return Answer(hit.raw);
    }
    var direct := backend(a.search, cache.now, a.startUs, a.endUs, a.limit);
    if hit.LookupFailed? {
      return direct;
    }
    var buckets := ComputeTraceBuckets(a.startUs, a.endUs, a.bucketMs);
    if |buckets| == 0 {
      if direct.Failed? {
        return direct;
      }
      cache.Set(fullKey, direct.raw, FULL_RESULT_TTL, faults);
      return direct;
    }
    answer := QueryBuckets(cache, backend, wall, a, buckets, faults);
  }

  method QueryBuckets(cache: EngineCache<TraceKey, Payload>, backend: Backend, wall: WallClock, a: Ask,
                      buckets: seq<Chunk>, faults: Faults<TraceKey>)
    returns (answer: Reply<Payload>)
    requires buckets == Buckets(a)
    modifies cache`entries
    ensures (answer, cache.entries) == FromChunks(SearchSystem(backend, wall), old(cache.entries), cache.now, faults, a)
  {
    var got := GatherBuckets(cache, backend, wall, a, buckets, faults);
    answer := Conclude(cache, backend, wall, a, faults, got);
  }

  method Conclude(cache: EngineCache<TraceKey, Payload>, backend: Backend, wall: WallClock, a: Ask,
                  faults: Faults<TraceKey>, got: Gathered<Payload>)
    returns (answer: Reply<Payload>)
    modifies cache`entries
    ensures (answer, cache.entries) ==
      AnswerFrom(SearchSystem(backend, wall), a, cache.now, faults, got, old(cache.entries))
  {
    if !got.Complete? {
      return backend(a.search, cache.now, a.startUs, a.endUs, a.limit);
    }
    var merged := MergeTracesByID(got.payloads);
    cache.Set(Result(a), Parsed(merged), FULL_RESULT_TTL, faults);
    return Answer(Parsed(merged));
  }

  method GatherBuckets(cache: EngineCache<TraceKey, Payload>, backend: Backend, wall: WallClock, a: Ask,
                       buckets: seq<Chunk>, faults: Faults<TraceKey>)
    returns (got: Gathered<Payload>)
    requires buckets == Buckets(a)
    modifies cache`entries
    ensures var sys := SearchSystem(backend, wall);
      FromChunks(sys, old(cache.entries), cache.now, faults, a) ==
        AnswerFrom(sys, a, cache.now, faults, got, cache.entries)
  {
    var now := cache.now;
    var keys := ListKeys(a, buckets);
    BucketKeysDiffer(a);
    got := cache.GatherFor(SearchSystem(backend, wall), a, keys, (k: TraceKey) => ReplyFor(backend, k, now),
                           (k: TraceKey) => TtlFor(wall, k, now), faults);
  }

  method ListKeys(a: Ask, buckets: seq<Chunk>) returns (keys: seq<TraceKey>)
    requires buckets == Buckets(a)
    ensures keys == BucketKeys(a)
  {
    keys := [];
    for i := 0 to |buckets|
      invariant |keys| == i
      invariant forall j :: 0 <= j < i ==> keys[j] == KeyOfBucket(a, buckets[j])
    {
      keys := keys + [BucketKey(a.search, a.limit, buckets[i].start, buckets[i].end)];
    }
  }

  // ---- searches may share the store -----------------------------------------------------

  lemma BucketKeysDiffer(a: Ask)
    ensures NoDup(BucketKeys(a))
  {
    var cs := Buckets(a);
    if cs != [] {
      var size := BucketUs(a.startUs, a.endUs, a.bucketMs);
      Windows.TilesAscend(Floor(a.startUs, size), a.endUs, size);
    }
    forall i, j | 0 <= i < j < |cs| ensures BucketKeys(a)[i] != BucketKeys(a)[j] {
      assert cs[i].start < cs[j].start;
    }
  }

  lemma SearchesAreFit(backend: Backend, wall: WallClock)
    ensures Fit(SearchSystem(backend, wall))
  {
    var sys := SearchSystem(backend, wall);
    forall a | sys.legal(a)
      ensures sys.isFull(sys.plan(a).full) && NoDup(sys.plan(a).chunks) && forall k :: k in sys.plan(a).chunks ==>
        !sys.isFull(k)
    {
      BucketKeysDiffer(a);
    }
    assert WellKeyed(sys);
    forall a, b | sys.legal(a) && sys.legal(b) && sys.plan(a).full == sys.plan(b).full
      ensures CacheAside.Agree(sys, a, b)
    {
      assert a == b;
    }
  }

  // ---- what holds over all runs ------------------------------------------------------------

  type SearchEvent = Event<Ask, TraceKey>

  /** A search of at least a millisecond on non-negative times. */
  predicate Bucketed(a: Ask) {
    0 <= a.startUs && a.startUs + 1000 <= a.endUs && a.limit > 0
  }

  /** History independence of bucketed searches. */
  lemma SearchHistoryIndependence(backend: Backend, wall: WallClock, start: int, events: seq<SearchEvent>, a: Ask,
                                  faults: Faults<TraceKey>)
    requires var sys := SearchSystem(backend, wall); Steady(sys) && LegalRun(sys, events)
    requires Bucketed(a) && !faults.getFails && !faults.batchFails
    ensures var sys := SearchSystem(backend, wall);
      var w := Run(sys, start, events);
      && Serve(sys, w.store, w.now, faults, a).0 == Uncached(sys, a, w.now)
      && Serve(sys, w.store, w.now, faults, a).0 == Serve(sys, map[], w.now, faults, a).0
  {
    SearchesAreFit(backend, wall);
    BucketsTileRange(a.startUs, a.endUs, a.bucketMs);
    assert SearchSystem(backend, wall).legal(a) && SearchSystem(backend, wall).plan(a) == PlanOf(a);
    HistoryIndependence(SearchSystem(backend, wall), start, events, a, faults);
  }

  /** A reply that keeps to the limit it was given. */
  ghost predicate KeepsLimit(r: Reply<Payload>, limit: int) {
    Usable(r) ==> |r.raw.payload| <= limit
  }

  ghost predicate HonoursLimits(backend: Backend) {
    forall search, t, s, e, limit :: limit >= 0 ==> KeepsLimit(backend(search, t, s, e, limit), limit)
  }

  lemma {:induction false} DedupShrinks(xs: seq<Trace>)
    ensures |Dedup(xs)| <= |xs|
  {
    if xs != [] {
      DedupShrinks(xs[..|xs| - 1]);
    }
  }

  lemma {:induction false} FlatSize(sets: seq<Payload>, each: nat)
    requires forall i :: 0 <= i < |sets| ==> |sets[i]| <= each
    ensures |Series.Flat(sets)| <= |sets| * each
  {
    if sets != [] {
      var n := |sets| - 1;
      FlatSize(sets[..n], each);
      Series.FlatStep(sets, n);
      assert sets[..n + 1] == sets;
      assert |sets| * each == n * each + each;
    }
  }

  lemma MergedSize(sets: seq<Payload>, each: nat, most: nat)
    requires |sets| <= most && forall i :: 0 <= i < |sets| ==> |sets[i]| <= each
    ensures |Merged(sets)| <= |sets| * each <= most * each
  {
    FlatSize(sets, each);
    DedupShrinks(Series.Flat(sets));
    if each > 0 {
      AtMostTimes(|sets|, most, each);
    }
  }

  /**
   * After any run, a bucketed search that does not fall back returns distinct traces, each bucket
   * fetched in the run recently enough for its age; and if the backend honours limits, no more
   * than 122 times the per-bucket limit.
   */
  lemma SearchAnswer(backend: Backend, wall: WallClock, start: int, events: seq<SearchEvent>, a: Ask,
                     faults: Faults<TraceKey>)
    returns (times: seq<int>, sets: seq<Payload>)
    requires LegalRun(SearchSystem(backend, wall), events) && Bucketed(a)
    ensures var sys := SearchSystem(backend, wall);
      var w := Run(sys, start, events);
      var answer := Serve(sys, w.store, w.now, faults, a).0;
      var cs := Buckets(a);
      if FallsBack(sys, w.store, w.now, faults, a) then answer == backend(a.search, w.now, a.startUs, a.endUs, a.limit)
      else
        && |times| == |cs| == |sets|
        && answer == Answer(Parsed(Merged(sets)))
        && Distinct(Merged(sets))
        && (forall i :: 0 <= i < |cs| ==>
              BucketIsFresh(backend, wall, start, events + [Request(a, faults)], a, cs[i], times[i], sets[i], w.now))
        && (HonoursLimits(backend) ==>
              var each := if a.limit > 1000 then 1000 else a.limit;
              |Merged(sets)| <= |cs| * each <= 122 * each)
  {
    var sys := SearchSystem(backend, wall);
    SearchesAreFit(backend, wall);
    BucketsTileRange(a.startUs, a.endUs, a.bucketMs);
    assert sys.legal(a) && sys.plan(a) == PlanOf(a);
    times, sets := AnswersAreFresh(sys, start, events, a, faults);
    var w := Run(sys, start, events);
    if !FallsBack(sys, w.store, w.now, faults, a) {
      forall i | 0 <= i < |Buckets(a)|
        ensures BucketIsFresh(backend, wall, start, events + [Request(a, faults)], a, Buckets(a)[i], times[i], sets[i],
          w.now)
      {
        FreshBucket(backend, wall, start, events + [Request(a, faults)], a, i, times[i], sets[i], w.now);
      }
      DedupIds(Series.Flat(sets));
      if HonoursLimits(backend) {
        FreshSize(backend, wall, start, events + [Request(a, faults)], a, times, sets, w.now);
      }
    }
  }

  /** The payload is the backend's reply for the bucket, fetched in the run and young enough for the bucket's age. */
  ghost predicate BucketIsFresh(backend: Backend, wall: WallClock, start: int, events: seq<SearchEvent>, a: Ask,
                                c: Chunk, t: int, payload: Payload, now: int)
  {
    && t <= now < t + Windows.MaxStaleness(0, Quot(wall(t) - c.end, 1_000_000))
    && FetchedIn(SearchSystem(backend, wall), start, events, KeyOfBucket(a, c), t)
    && backend(a.search, t, c.start, c.end, if a.limit > 1000 then 1000 else a.limit) == Answer(Parsed(payload))
  }

  lemma FreshBucket(backend: Backend, wall: WallClock, start: int, events: seq<SearchEvent>, a: Ask, i: nat, t: int,
                    payload: Payload, now: int)
    requires i < |Buckets(a)|
    requires var sys := SearchSystem(backend, wall);
      var k := BucketKeys(a)[i];
      FetchedAs(sys, start, events, k, t, Parsed(payload)) && t <= now < t + sys.ttl(k, t) + 120
    ensures BucketIsFresh(backend, wall, start, events, a, Buckets(a)[i], t, payload, now)
  {
  }

  lemma FreshSize(backend: Backend, wall: WallClock, start: int, events: seq<SearchEvent>, a: Ask, times: seq<int>,
                  sets: seq<Payload>, now: int)
    requires Bucketed(a) && HonoursLimits(backend) && |times| == |sets| == |Buckets(a)|
    requires forall i :: 0 <= i < |sets| ==>
      BucketIsFresh(backend, wall, start, events, a, Buckets(a)[i], times[i], sets[i], now)
    ensures |Merged(sets)| <= |sets| * PerBucket(a.limit) <= (MAX_TRACE_BUCKETS + 2) * PerBucket(a.limit)
  {
    forall i | 0 <= i < |sets| ensures |sets[i]| <= PerBucket(a.limit) {
      var c := Buckets(a)[i];
      assert BucketIsFresh(backend, wall, start, events, a, c, times[i], sets[i], now);
      assert KeepsLimit(backend(a.search, times[i], c.start, c.end, PerBucket(a.limit)), PerBucket(a.limit));
    }
    BucketCount(a.startUs, a.endUs, a.bucketMs);
    MergedSize(sets, PerBucket(a.limit), MAX_TRACE_BUCKETS + 2);
  }

  /** No lookup works, or some bucket is neither a hit nor a reply that can be read. */
  ghost predicate Stranded(backend: Backend, st: Store<TraceKey, Payload>, now: int, faults: Faults<TraceKey>, a: Ask) {
    var cs, ks, each := Buckets(a), BucketKeys(a), if a.limit > 1000 then 1000 else a.limit;
    || faults.getFails
    || (!Live(st, now, Result(a)) && |cs| > 0 &&
        (faults.batchFails ||
         exists i ::
           0 <= i < |cs| && !ChunkHit(st, now, faults, ks[i]) &&
           !Usable(backend(a.search, now, cs[i].start, cs[i].end, each))))
  }

  /** Such a search is answered by a plain one of its own window, for as many traces as asked for. */
  lemma StrandedAnswer(backend: Backend, wall: WallClock, st: Store<TraceKey, Payload>, now: int,
                       faults: Faults<TraceKey>, a: Ask)
    requires Stranded(backend, st, now, faults, a)
    ensures Serve(SearchSystem(backend, wall), st, now, faults, a).0 ==
      backend(a.search, now, a.startUs, a.endUs, a.limit)
  {
    var sys := SearchSystem(backend, wall);
    var cs, ks, each := Buckets(a), BucketKeys(a), if a.limit > 1000 then 1000 else a.limit;
    if !faults.getFails && !faults.batchFails {
      var i :| 0 <= i < |cs| && !ChunkHit(st, now, faults, ks[i]) &&
        !Usable(backend(a.search, now, cs[i].start, cs[i].end, each));
      assert SlotOf(st, now, faults, ks[i], ReplyAt(sys, now)(ks[i])).None?;
    }
  }

  /** A search over less than a millisecond is not cut into buckets: unless stored, its answer is a plain one. */
  lemma TinySearch(backend: Backend, wall: WallClock, st: Store<TraceKey, Payload>, now: int, faults: Faults<TraceKey>,
                   a: Ask)
    requires a.startUs < a.endUs < a.startUs + 1000 && !Live(st, now, Result(a))
    ensures Serve(SearchSystem(backend, wall), st, now, faults, a).0 ==
      backend(a.search, now, a.startUs, a.endUs, a.limit)
  {
    assert Buckets(a) == [];
  }

  /**
   * A bucket fetched and stored is a hit, with the reply to a search for at most 1000 traces, for 15
   * seconds if it ended less than a minute before, for 120 if less than five minutes, else for 3600.
   */
  lemma BucketLives(backend: Backend, wall: WallClock, st: Store<TraceKey, Payload>, now: int, faults: Faults<TraceKey>,
                    a: Ask, i: nat, events: seq<SearchEvent>, faults': Faults<TraceKey>)
    requires Bucketed(a) && i < |Buckets(a)|
    requires var sys, k := SearchSystem(backend, wall), BucketKeys(a)[i];
      && Fetches(sys, st, now, faults, a, k) && k !in faults.refused
      && LegalRun(sys, events) && Spares(events, k) && NeverLost(events, k) && k !in faults'.lost
    requires var c := Buckets(a)[i];
      var age := Quot(wall(now) - c.end, 1_000_000);
      var sys := SearchSystem(backend, wall);
      && Usable(backend(a.search, now, c.start, c.end, if a.limit > 1000 then 1000 else a.limit))
      && After(sys, World(Serve(sys, st, now, faults, a).1, now), events).now <
           now + if age < 60 then 15 else if age < 300 then 120 else 3600
    ensures var sys, k := SearchSystem(backend, wall), BucketKeys(a)[i];
      var c := Buckets(a)[i];
      var v := After(sys, World(Serve(sys, st, now, faults, a).1, now), events);
      && ChunkHit(v.store, v.now, faults', k)
      && v.store[k].raw == backend(a.search, now, c.start, c.end, if a.limit > 1000 then 1000 else a.limit).raw
  {
    SearchesAreFit(backend, wall);
    FetchedChunkIsHit(SearchSystem(backend, wall), st, now, faults, a, BucketKeys(a)[i], events, faults');
  }

  // ---- completeness --------------------------------------------------------------------------

  /** Traces with the times they are found at. */
  datatype Recorded = Recorded(trace: Trace, at: int)

  ghost function IdsIn(all: set<Recorded>, lo: int, hi: int): set<string> {
    set r | r in all && lo <= r.at < hi && Id(r.trace) != "" :: Id(r.trace)
  }

  /** Some trace of the window holds the text. */
  ghost predicate RecordedIn(all: set<Recorded>, lo: int, hi: int, x: string) {
    exists r :: r in all && lo <= r.at < hi && HoldsId(r.trace, x)
  }

  lemma RecordedIff(all: set<Recorded>, lo: int, hi: int, x: string)
    ensures RecordedIn(all, lo, hi, x) <==> x in IdsIn(all, lo, hi)
  {
    forall r | r in all ensures HoldsId(r.trace, x) <==> x != "" && Id(r.trace) == x {
      IdIff(r.trace, x);
    }
  }

  /** The reply shows texts of the window, and all of them unless it is as long as the limit. */
  ghost predicate Honest(r: Reply<Payload>, all: set<Recorded>, s: int, e: int, limit: int) {
    && Usable(r)
    && (forall x :: Shows(r.raw.payload, x) ==> RecordedIn(all, s, e, x))
    && (|r.raw.payload| < limit ==> forall x :: RecordedIn(all, s, e, x) ==> Shows(r.raw.payload, x))
  }

  lemma HonestIds(payload: Payload, all: set<Recorded>, s: int, e: int, limit: int)
    requires Honest(Answer(Parsed(payload)), all, s, e, limit)
    ensures IdSet(payload) - {""} <= IdsIn(all, s, e)
    ensures |payload| < limit ==> IdSet(payload) - {""} == IdsIn(all, s, e)
  {
    forall x ensures Shows(payload, x) <==> x in IdSet(payload) - {""} {
      ShowsIff(payload, x);
    }
    forall x ensures RecordedIn(all, s, e, x) <==> x in IdsIn(all, s, e) {
      RecordedIff(all, s, e, x);
    }
    forall x | x in IdSet(payload) - {""} ensures x in IdsIn(all, s, e) {
      assert Shows(payload, x);
    }
    if |payload| < limit {
      forall x | x in IdsIn(all, s, e) ensures x in IdSet(payload) - {""} {
        assert RecordedIn(all, s, e, x);
      }
    }
  }

  ghost predicate HonestFor(backend: Backend, search: Search, all: set<Recorded>) {
    forall t, s, e, limit :: s < e && limit > 0 ==> Honest(backend(search, t, s, e, limit), all, s, e, limit)
  }

  lemma {:induction false} WindowIds(sets: seq<Payload>, cs: seq<Chunk>, lo: int, hi: int, size: int,
                                     all: set<Recorded>, full: bool)
    requires |sets| == |cs| && size > 0 && TilesExactly(cs, lo, hi, size)
    requires forall i :: 0 <= i < |cs| ==> IdSet(sets[i]) - {""} <= IdsIn(all, cs[i].start, cs[i].end)
    requires full ==> forall i :: 0 <= i < |cs| ==> IdSet(sets[i]) - {""} == IdsIn(all, cs[i].start, cs[i].end)
    ensures lo <= hi && IdSet(Series.Flat(sets)) - {""} <= IdsIn(all, lo, hi)
    ensures full ==> IdSet(Series.Flat(sets)) - {""} == IdsIn(all, lo, hi)
  {
    if cs != [] {
      var n := |cs| - 1;
      AllButLast(cs, lo, hi, size);
      WindowIds(sets[..n], cs[..n], lo, cs[n].start, size, all, full);
      Series.FlatStep(sets, n);
      assert sets[..n + 1] == sets;
      IdSetAppend(Series.Flat(sets[..n]), sets[n]);
      IdsSplit(all, lo, cs[n].start, hi);
    }
  }

  lemma IdsSplit(all: set<Recorded>, lo: int, mid: int, hi: int)
    requires lo <= mid <= hi
    ensures IdsIn(all, lo, hi) == IdsIn(all, lo, mid) + IdsIn(all, mid, hi)
  {
  }

  /**
   * Completeness: with an honest backend, after any run, every trace in the answer of a bucketed
   * search holds an id text, no two the same; each is recorded in the window the buckets cover,
   * and every one recorded there is held by some trace of the answer if no bucket reply was as
   * long as the limit asked for, or 1000 if that is less.
   */
  lemma SearchIsComplete(backend: Backend, wall: WallClock, start: int, events: seq<SearchEvent>, a: Ask,
                         faults: Faults<TraceKey>, all: set<Recorded>)
    returns (sets: seq<Payload>)
    requires LegalRun(SearchSystem(backend, wall), events) && Bucketed(a)
    requires HonestFor(backend, a.search, all) && !faults.getFails && !faults.batchFails
    ensures var sys := SearchSystem(backend, wall);
      var w := Run(sys, start, events);
      Serve(sys, w.store, w.now, faults, a).0 == Answer(Parsed(Merged(sets)))
    ensures OneEach(Merged(sets))
    ensures var lo := Floor(a.startUs, BucketUs(a.startUs, a.endUs, a.bucketMs));
      var hi := BucketedEnd(a.startUs, a.endUs, a.bucketMs);
      var each := if a.limit > 1000 then 1000 else a.limit;
      && (forall x :: Shows(Merged(sets), x) ==> RecordedIn(all, lo, hi, x))
      && ((forall i :: 0 <= i < |sets| ==> |sets[i]| < each) ==>
           forall x :: RecordedIn(all, lo, hi, x) ==> Shows(Merged(sets), x))
  {
    var w := Run(SearchSystem(backend, wall), start, events);
    var times;
    times, sets := SearchAnswer(backend, wall, start, events, a, faults);
    SearchNeverFallsBack(backend, wall, w.store, w.now, a, faults, all);
    forall i | 0 <= i < |sets|
      ensures var c := Buckets(a)[i]; Honest(Answer(Parsed(sets[i])), all, c.start, c.end, PerBucket(a.limit))
    {
      assert BucketIsFresh(backend, wall, start, events + [Request(a, faults)], a, Buckets(a)[i], times[i], sets[i],
        w.now);
      HonestBucket(backend, a, all, i, times[i]);
    }
    DistinctIff(Merged(sets));
    HonestMerge(a, all, sets);
    MergeShows(a, all, sets);
  }

  /** From ids back to the texts traces hold. */
  lemma MergeShows(a: Ask, all: set<Recorded>, sets: seq<Payload>)
    requires Bucketed(a)
    requires var lo := Floor(a.startUs, BucketUs(a.startUs, a.endUs, a.bucketMs));
      var hi := BucketedEnd(a.startUs, a.endUs, a.bucketMs);
      && IdSet(Merged(sets)) <= IdsIn(all, lo, hi)
      && ((forall i :: 0 <= i < |sets| ==> |sets[i]| < PerBucket(a.limit)) ==>
           IdSet(Merged(sets)) == IdsIn(all, lo, hi))
    ensures var lo := Floor(a.startUs, BucketUs(a.startUs, a.endUs, a.bucketMs));
      var hi := BucketedEnd(a.startUs, a.endUs, a.bucketMs);
      var each := if a.limit > 1000 then 1000 else a.limit;
      && (forall x :: Shows(Merged(sets), x) ==> RecordedIn(all, lo, hi, x))
      && ((forall i :: 0 <= i < |sets| ==> |sets[i]| < each) ==>
           forall x :: RecordedIn(all, lo, hi, x) ==> Shows(Merged(sets), x))
  {
    var lo := Floor(a.startUs, BucketUs(a.startUs, a.endUs, a.bucketMs));
    var hi := BucketedEnd(a.startUs, a.endUs, a.bucketMs);
    forall x
      ensures Shows(Merged(sets), x) <==> x != "" && x in IdSet(Merged(sets))
      ensures RecordedIn(all, lo, hi, x) <==> x in IdsIn(all, lo, hi)
    {
      ShowsIff(Merged(sets), x);
      RecordedIff(all, lo, hi, x);
    }
  }

  lemma HonestBucket(backend: Backend, a: Ask, all: set<Recorded>, i: nat, t: int)
    requires i < |Buckets(a)| && Bucketed(a) && HonestFor(backend, a.search, all)
    ensures var c := Buckets(a)[i];
      Honest(backend(a.search, t, c.start, c.end, PerBucket(a.limit)), all, c.start, c.end, PerBucket(a.limit))
  {
    BucketProper(a, i);
  }

  /** What honest bucket replies merge to. */
  lemma HonestMerge(a: Ask, all: set<Recorded>, sets: seq<Payload>)
    requires Bucketed(a) && |sets| == |Buckets(a)|
    requires forall i :: 0 <= i < |sets| ==>
      var c := Buckets(a)[i]; Honest(Answer(Parsed(sets[i])), all, c.start, c.end, PerBucket(a.limit))
    ensures var lo := Floor(a.startUs, BucketUs(a.startUs, a.endUs, a.bucketMs));
      var hi := BucketedEnd(a.startUs, a.endUs, a.bucketMs);
      && IdSet(Merged(sets)) <= IdsIn(all, lo, hi)
      && ((forall i :: 0 <= i < |sets| ==> |sets[i]| < PerBucket(a.limit)) ==>
           IdSet(Merged(sets)) == IdsIn(all, lo, hi))
  {
    BucketsTileRange(a.startUs, a.endUs, a.bucketMs);
    forall i | 0 <= i < |sets|
      ensures var c := Buckets(a)[i];
        && IdSet(sets[i]) - {""} <= IdsIn(all, c.start, c.end)
        && (|sets[i]| < PerBucket(a.limit) ==> IdSet(sets[i]) - {""} == IdsIn(all, c.start, c.end))
    {
      HonestIds(sets[i], all, Buckets(a)[i].start, Buckets(a)[i].end, PerBucket(a.limit));
    }
    var size := BucketUs(a.startUs, a.endUs, a.bucketMs);
    WindowIds(sets, Buckets(a), Floor(a.startUs, size), BucketedEnd(a.startUs, a.endUs, a.bucketMs), size, all,
              forall i :: 0 <= i < |sets| ==> |sets[i]| < PerBucket(a.limit));
    DedupIds(Series.Flat(sets));
  }

  lemma BucketProper(a: Ask, i: nat)
    requires i < |Buckets(a)| && Bucketed(a)
    ensures Buckets(a)[i].start < Buckets(a)[i].end
  {
    BucketsTileRange(a.startUs, a.endUs, a.bucketMs);
  }

  lemma SearchNeverFallsBack(backend: Backend, wall: WallClock, st: Store<TraceKey, Payload>, now: int, a: Ask,
                             faults: Faults<TraceKey>, all: set<Recorded>)
    requires Bucketed(a) && !faults.getFails && !faults.batchFails && HonestFor(backend, a.search, all)
    ensures !FallsBack(SearchSystem(backend, wall), st, now, faults, a)
  {
    var sys := SearchSystem(backend, wall);
    assert sys.plan(a) == PlanOf(a);
    var cs, ks := Buckets(a), BucketKeys(a);
    forall i | 0 <= i < |ks| ensures SlotOf(st, now, faults, ks[i], ReplyAt(sys, now)(ks[i])).Some? {
      BucketProper(a, i);
      assert Honest(backend(a.search, now, cs[i].start, cs[i].end, PerBucket(a.limit)), all, cs[i].start, cs[i].end,
        PerBucket(a.limit));
    }
  }

  // ---- the limit is one per bucket --------------------------------------------------------------

  /** A trace whose id is a text of this length. */
  function Numbered(n: nat): Trace {
    map["traceID" := Str(seq(n + 1, _ => 'x'))]
  }

  lemma NumberedId(n: nat)
    ensures |Id(Numbered(n))| == n + 1 && Id(Numbered(n)) != ""
  {
    var s := seq(n + 1, _ => 'x');
    assert Trimmed(s);
    TrimSpaceNormal(s);
  }

  /** `count` traces with ids of their own for every start. */
  function Crowd(startUs: int, count: nat): (r: Payload)
    ensures |r| == count
    ensures forall i :: 0 <= i < count ==> r[i] == Numbered((if startUs < 0 then 0 else startUs) * 1001 + i)
  {
    seq(count, i requires 0 <= i < count => Numbered((if startUs < 0 then 0 else startUs) * 1001 + i))
  }

  /** A backend that finds as many traces as it is asked for in every window. */
  function Crowded(): Backend {
    (search, t, s, e, limit) => Answer(Parsed(Crowd(s, if limit < 0 then 0 else limit)))
  }

  lemma CrowdIsDistinct(startUs: nat, count: nat)
    requires count <= 1000
    ensures Distinct(Crowd(startUs, count))
    ensures forall t :: t in Crowd(startUs, count) ==> startUs * 1001 < |Id(t)| <= (startUs + 1) * 1001
  {
    var r := Crowd(startUs, count);
    forall i | 0 <= i < count ensures |Id(r[i])| == startUs * 1001 + i + 1 && Id(r[i]) != "" {
      NumberedId(startUs * 1001 + i);
    }
    forall t | t in r ensures Id(t) != "" && startUs * 1001 < |Id(t)| <= (startUs + 1) * 1001 {
      var i :| 0 <= i < count && r[i] == t;
    }
  }

  lemma {:induction false} CrowdsAreDistinct(sets: seq<Payload>, cs: seq<Chunk>, each: nat)
    requires |sets| == |cs| && each <= 1000
    requires forall i :: 0 <= i < |cs| ==> cs[i].start >= 0 && sets[i] == Crowd(cs[i].start, each)
    requires forall i, j :: 0 <= i < j < |cs| ==> cs[i].start < cs[j].start
    ensures Distinct(Series.Flat(sets)) && |Series.Flat(sets)| == |cs| * each
    ensures cs != [] ==> forall t :: t in Series.Flat(sets) ==> |Id(t)| <= (cs[|cs| - 1].start + 1) * 1001
  {
    if cs != [] {
      var n := |cs| - 1;
      CrowdsAreDistinct(sets[..n], cs[..n], each);
      Series.FlatStep(sets, n);
      assert sets[..n + 1] == sets;
      var before := Series.Flat(sets[..n]);
      forall t | t in before ensures |Id(t)| <= cs[n].start * 1001 {
        assert n > 0 && cs[..n][n - 1].start < cs[n].start;
      }
      OneMoreCrowd(before, cs[n].start, each);
      OneMoreTimes(n, each);
    }
  }

  lemma OneMoreTimes(n: nat, each: nat)
    ensures (n + 1) * each == n * each + each
  {
  }

  lemma OneMoreCrowd(before: seq<Trace>, startUs: nat, each: nat)
    requires each <= 1000 && Distinct(before)
    requires forall t :: t in before ==> |Id(t)| <= startUs * 1001
    ensures Distinct(before + Crowd(startUs, each))
    ensures forall t :: t in before + Crowd(startUs, each) ==> |Id(t)| <= (startUs + 1) * 1001
  {
    CrowdIsDistinct(startUs, each);
  }

  /**
   * The limit holds per bucket only: a backend that honours every limit can make the answer
   * as long as the number of buckets times the limit asked for, or times 1000 if that is less, the
   * most `SearchAnswer` allows.
   */
  lemma LimitIsPerBucket(wall: WallClock, now: int, a: Ask)
    returns (out: Payload)
    requires Bucketed(a)
    ensures HonoursLimits(Crowded())
    ensures Serve(SearchSystem(Crowded(), wall), map[], now, NoFaults(), a).0 == Answer(Parsed(out))
    ensures |out| == |Buckets(a)| * if a.limit > 1000 then 1000 else a.limit
  {
    CrowdedHonoursLimits();
    BucketStarts(a);
    CrowdedGathers(wall, now, a);
    var sets := SlotValues(map[], now, NoFaults(), BucketKeys(a), ReplyAt(SearchSystem(Crowded(), wall), now));
    out := Merged(sets);
    CrowdedMerge(a, sets, PerBucket(a.limit));
  }

  lemma CrowdedGathers(wall: WallClock, now: int, a: Ask)
    requires Bucketed(a)
    ensures var reply := ReplyAt(SearchSystem(Crowded(), wall), now);
      && AllSlots(map[], now, NoFaults(), BucketKeys(a), reply)
      && forall i :: 0 <= i < |Buckets(a)| ==>
           SlotValues(map[], now, NoFaults(), BucketKeys(a), reply)[i] == Crowd(Buckets(a)[i].start, PerBucket(a.limit))
  {
    var reply := ReplyAt(SearchSystem(Crowded(), wall), now);
    forall i | 0 <= i < |Buckets(a)|
      ensures reply(BucketKeys(a)[i]) == Answer(Parsed(Crowd(Buckets(a)[i].start, PerBucket(a.limit))))
    {
    }
  }

  lemma BucketStarts(a: Ask)
    requires Bucketed(a)
    ensures Buckets(a) != []
    ensures forall i :: 0 <= i < |Buckets(a)| ==> Buckets(a)[i].start >= 0
    ensures forall i, j :: 0 <= i < j < |Buckets(a)| ==> Buckets(a)[i].start < Buckets(a)[j].start
  {
    BucketsTileRange(a.startUs, a.endUs, a.bucketMs);
    var size := BucketUs(a.startUs, a.endUs, a.bucketMs);
    assert Floor(a.startUs, size) >= 0 by { FloorOfNat(a.startUs, size); }
    Windows.TilesAscend(Floor(a.startUs, size), a.endUs, size);
  }

  lemma FloorOfNat(x: nat, b: int)
    requires b > 0
    ensures Floor(x, b) >= 0
  {
    assert x / b >= 0;
  }

  lemma CrowdedMerge(a: Ask, sets: seq<Payload>, each: nat)
    requires Bucketed(a) && |sets| == |Buckets(a)| && each <= 1000
    requires forall i :: 0 <= i < |sets| ==> sets[i] == Crowd(Buckets(a)[i].start, each)
    ensures |Merged(sets)| == |Buckets(a)| * each
  {
    BucketStarts(a);
    CrowdsAreDistinct(sets, Buckets(a), each);
    DedupFixed(Series.Flat(sets));
  }

  lemma CrowdedHonoursLimits()
    ensures HonoursLimits(Crowded())
  {
    forall search: Search, t: int, s: int, e: int, limit: int | limit >= 0
      ensures KeepsLimit(Crowded()(search, t, s, e, limit), limit)
    {
      var r := Crowded()(search, t, s, e, limit);
      assert r.raw.payload == Crowd(s, limit);
    }
  }

  /** After a run, the answer of a search keeps to the limit asked for. */
  ghost predicate WithinAfter(backend: Backend, wall: WallClock, start: int, events: seq<SearchEvent>,
                              faults: Faults<TraceKey>, a: Ask)
  {
    var sys := SearchSystem(backend, wall);
    var w := Run(sys, start, events);
    KeepsLimit(Serve(sys, w.store, w.now, faults, a).0, a.limit)
  }

  ghost predicate AlwaysWithin(wall: WallClock, a: Ask) {
    forall backend: Backend, start: int, events: seq<SearchEvent>, faults: Faults<TraceKey> ::
      HonoursLimits(backend) && LegalRun(SearchSystem(backend, wall), events) ==>
        WithinAfter(backend, wall, start, events, faults, a)
  }

  /**
   * Exactly when: the limit asked for is kept after every run, with every backend that honours
   * limits, if and only if the number of buckets times the per-bucket limit does not exceed it.
   */
  lemma LimitKeptIff(wall: WallClock, a: Ask)
    requires Bucketed(a)
    ensures AlwaysWithin(wall, a) <==> |Buckets(a)| * (if a.limit > 1000 then 1000 else a.limit) <= a.limit
  {
    if |Buckets(a)| * PerBucket(a.limit) <= a.limit {
      forall backend: Backend, start: int, events: seq<SearchEvent>, faults: Faults<TraceKey>
        | HonoursLimits(backend) && LegalRun(SearchSystem(backend, wall), events)
        ensures WithinAfter(backend, wall, start, events, faults, a)
      {
        FewBucketsKeepLimit(backend, wall, start, events, faults, a);
      }
    } else {
      var out := LimitIsPerBucket(wall, 0, a);
      var none: seq<SearchEvent> := [];
      assert Run(SearchSystem(Crowded(), wall), 0, none) == World(map[], 0);
      assert !WithinAfter(Crowded(), wall, 0, none, NoFaults(), a);
    }
  }

  lemma FewBucketsKeepLimit(backend: Backend, wall: WallClock, start: int, events: seq<SearchEvent>,
                            faults: Faults<TraceKey>, a: Ask)
    requires Bucketed(a) && HonoursLimits(backend) && |Buckets(a)| * PerBucket(a.limit) <= a.limit
    requires LegalRun(SearchSystem(backend, wall), events)
    ensures WithinAfter(backend, wall, start, events, faults, a)
  {
    var times, sets := SearchAnswer(backend, wall, start, events, a, faults);
    var now := Run(SearchSystem(backend, wall), start, events).now;
    assert KeepsLimit(backend(a.search, now, a.startUs, a.endUs, a.limit), a.limit);
  }
}
