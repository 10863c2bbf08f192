/** `RangeQueryCached` and `StatsRangeCached` (rangecache.go, logscache.go). */
module RangeCache {
  import opened Base
  import opened Text
  import opened Tiers
  import opened Series
  import opened Thinning
  import opened Windows
  import opened CacheAside
  import opened EngineCache
  import opened WindowCache

  type Payload = seq<MatrixSeries>

  /** What a key is scoped by; the two query functions use disjoint key spaces. */
  datatype Scope = Metrics(backend: string, tenant: string, dsID: string, query: string)
                 | Stats(tenant: string, dsID: string, query: string)

  type RangeKey = Key<Scope>
  type RangeAsk = Ask<Scope>
  type Backend = WindowBackend<Scope, Payload>

  /** Merge, then thin if the step asked for is coarser than the one fetched. */
  ghost function Merge(secs: StepParser, effective: string, fetched: string, sets: seq<Payload>): Payload {
    if secs(effective) > secs(fetched) then Downsampled(Merged(sets), secs(effective)) else Merged(sets)
  }

  /** The requests that reach the scheme; only log statistics let empty windows through. */
  predicate Cacheable(a: RangeAsk) {
    0 <= a.start && 0 <= a.end && (a.start < a.end || a.scope.Stats?)
  }

  /** A short window gets a full-result entry but no chunks. */
  predicate Short(a: RangeAsk) {
    a.end - a.start <= SHORT_RANGE
  }

  ghost function RangeKind(secs: StepParser): Kind<Scope, Payload> {
    Kind((a: RangeAsk) => Cacheable(a), (a: RangeAsk) => Short(a),
         (effective: string, fetched: string, sets: seq<Payload>) => Merge(secs, effective, fetched, sets))
  }

  ghost function Ranges(secs: StepParser, backend: Backend): System<RangeAsk, RangeKey, Payload> {
    WindowSystem(secs, backend, RangeKind(secs))
  }

  // ---- the methods -----------------------------------------------------------------

  /** `rangeQueryCached` past its guards; `StatsRangeCached` has the same text. */
  method Query(cache: EngineCache<RangeKey, Payload>, secs: StepParser, backend: Backend, a: RangeAsk,
               faults: Faults<RangeKey>)
    returns (answer: Reply<Payload>)
    modifies cache`entries
    ensures (answer, cache.entries) == Serve(Ranges(secs, backend), old(cache.entries), cache.now, faults, a)
  {
    var effectiveStep, fetchStep, fullKey := Resolve(secs, a);
    PlanIs(secs, backend, a, cache.now);

    var hit := cache.Get(fullKey, faults);
    if hit.Found? {
      return Answer(hit.raw);
    }
    if hit.LookupFailed? {
      return backend(a.scope, cache.now, a.start, a.end, effectiveStep);
    }
    if Short(a) {
      answer := QueryShort(cache, secs, backend, a, faults, effectiveStep, fullKey);
    } else {
      answer := QueryChunks(cache, secs, backend, a, faults, effectiveStep, fetchStep, fullKey);
    }
  }

  /** A short window: the direct reply, stored under the full key. */
  method QueryShort(cache: EngineCache<RangeKey, Payload>, secs: StepParser, backend: Backend, a: RangeAsk,
                    faults: Faults<RangeKey>, effectiveStep: string, fullKey: RangeKey)
    returns (answer: Reply<Payload>)
    requires effectiveStep == Effective(secs, a) && fullKey == FullKey(secs, a) && Short(a)
    modifies cache`entries
    ensures (answer, cache.entries) == Missed(Ranges(secs, backend), old(cache.entries), cache.now, faults, a)
  {
    PlanIs(secs, backend, a, cache.now);
    answer := backend(a.scope, cache.now, a.start, a.end, effectiveStep);
    if answer.Failed? {
      return;
    }
    cache.Set(fullKey, answer.raw, FULL_RESULT_TTL, faults);
  }

  lemma PlanIs(secs: StepParser, backend: Backend, a: RangeAsk, now: int)
    ensures var sys := Ranges(secs, backend);
      && sys.plan(a) == PlanOf(secs, Short(a), a)
      && sys.direct(a, now) == backend(a.scope, now, a.start, a.end, Effective(secs, a))
  {
  }

  /** The chunked part: gather, then merge, thin and store the full result. */
  method QueryChunks(cache: EngineCache<RangeKey, Payload>, secs: StepParser, backend: Backend, a: RangeAsk,
                     faults: Faults<RangeKey>, effectiveStep: string, fetchStep: string, fullKey: RangeKey)
    returns (answer: Reply<Payload>)
    requires effectiveStep == Effective(secs, a) && fetchStep == FetchedStep(secs, a) && fullKey == FullKey(secs, a)
    requires !Short(a)
    modifies cache`entries
    ensures (answer, cache.entries) == Missed(Ranges(secs, backend), old(cache.entries), cache.now, faults, a)
  {
    PlanIs(secs, backend, a, cache.now);
    var got := GatherChunks(cache, secs, backend, RangeKind(secs), a, faults, fetchStep);
    answer := Conclude(cache, secs, backend, a, faults, effectiveStep, fetchStep, fullKey, got);
  }

  method Conclude(cache: EngineCache<RangeKey, Payload>, secs: StepParser, backend: Backend, a: RangeAsk,
                  faults: Faults<RangeKey>, effectiveStep: string, fetchStep: string, fullKey: RangeKey,
                  got: Gathered<Payload>)
    returns (answer: Reply<Payload>)
    requires effectiveStep == Effective(secs, a) && fetchStep == FetchedStep(secs, a) && fullKey == FullKey(secs, a)
    modifies cache`entries
    ensures (answer, cache.entries) == AnswerFrom(Ranges(secs, backend), a, cache.now, faults, got, old(cache.entries))
  {
    PlanIs(secs, backend, a, cache.now);
    if !got.Complete? {
      return backend(a.scope, cache.now, a.start, a.end, effectiveStep);
    }
    var merged := Combine(secs, effectiveStep, fetchStep, got.payloads);
    cache.Set(fullKey, Parsed(merged), FULL_RESULT_TTL, faults);
    return Answer(Parsed(merged));
  }

  method Combine(secs: StepParser, effectiveStep: string, fetchStep: string, sets: seq<Payload>)
    returns (merged: Payload)
    ensures merged == Merge(secs, effectiveStep, fetchStep, sets)
  {
    merged := MergeSeries(sets);
    if secs(effectiveStep) > secs(fetchStep) {
      merged := Downsample(merged, secs(effectiveStep));
    }
  }

  /** `RangeQueryCached` with its guards: an empty window, no engine or no tenant mean a plain fetch. */
  method RangeQueryCached(cache: EngineCache<RangeKey, Payload>, connected: bool, secs: StepParser, backend: Backend,
                          backendName: string, tenant: string, dsID: string, query: string, startSec: int, endSec: int,
                          userStep: string, faults: Faults<RangeKey>)
    returns (answer: Reply<Payload>)
    modifies cache`entries
    ensures var scope := Metrics(backendName, TrimSpace(tenant), dsID, query);
      (answer, cache.entries) ==
        if endSec <= startSec || !connected || TrimSpace(tenant) == ""
        then (backend(scope, cache.now, startSec, endSec, userStep), old(cache.entries))
        else Serve(Ranges(secs, backend), old(cache.entries), cache.now, faults, Ask(scope, startSec, endSec, userStep))
  {
    var scope := Metrics(backendName, TrimSpace(tenant), dsID, query);
    if endSec <= startSec {
      return backend(scope, cache.now, startSec, endSec, userStep);
    }
    if !connected || TrimSpace(tenant) == "" {
      return backend(scope, cache.now, startSec, endSec, userStep);
    }
    answer := Query(cache, secs, backend, Ask(scope, startSec, endSec, userStep), faults);
  }

  /** `StatsRangeCached`: the same without the guard on the window. */
  method StatsRangeCached(cache: EngineCache<RangeKey, Payload>, connected: bool, secs: StepParser, backend: Backend,
                          tenant: string, dsID: string, query: string, startSec: int, endSec: int, userStep: string,
                          faults: Faults<RangeKey>)
    returns (answer: Reply<Payload>)
    modifies cache`entries
    ensures var scope := Stats(TrimSpace(tenant), dsID, query);
      (answer, cache.entries) ==
        if !connected || TrimSpace(tenant) == ""
        then (backend(scope, cache.now, startSec, endSec, userStep), old(cache.entries))
        else Serve(Ranges(secs, backend), old(cache.entries), cache.now, faults, Ask(scope, startSec, endSec, userStep))
  {
    var scope := Stats(TrimSpace(tenant), dsID, query);
    if !connected || TrimSpace(tenant) == "" {
      return backend(scope, cache.now, startSec, endSec, userStep);
    }
    answer := Query(cache, secs, backend, Ask(scope, startSec, endSec, userStep), faults);
  }

  // ---- what holds over all runs -----------------------------------------------------------

  lemma RangesAreSound(secs: StepParser)
    ensures Sound(RangeKind(secs))
  {
  }

  /** Both range functions may share their store over any run: keys determine everything cached under them. */
  lemma RangesAreFit(secs: StepParser, backend: Backend)
    ensures Fit(Ranges(secs, backend))
  {
    RangesAreSound(secs);
    WindowsAreFit(secs, backend, RangeKind(secs));
  }

  /** A window long enough for the chunked path. */
  ghost predicate Long(a: RangeAsk) {
    0 <= a.start && a.start + 600 < a.end
  }

  type RangeEvent = Event<RangeAsk, RangeKey>

  /**
   * History independence of range queries: whatever happened before, a query over more than
   * 600 seconds whose cache lookups do not fail is answered as on an empty store.
   */
  lemma RangeHistoryIndependence(secs: StepParser, backend: Backend, start: int, events: seq<RangeEvent>, a: RangeAsk,
                                 faults: Faults<RangeKey>)
    requires var sys := Ranges(secs, backend); Steady(sys) && LegalRun(sys, events)
    requires Long(a) && !faults.getFails && !faults.batchFails
    ensures var sys := Ranges(secs, backend);
      var w := Run(sys, start, events);
      && Serve(sys, w.store, w.now, faults, a).0 == Uncached(sys, a, w.now)
      && Serve(sys, w.store, w.now, faults, a).0 == Serve(sys, map[], w.now, faults, a).0
  {
    RangesAreFit(secs, backend);
    PlanIs(secs, backend, a, 0);
    HistoryIndependence(Ranges(secs, backend), start, events, a, faults);
  }

  /** Staleness of long answers: see `WindowCache.FreshAnswer`. */
  lemma RangeStaleness(secs: StepParser, backend: Backend, start: int, events: seq<RangeEvent>, a: RangeAsk,
                       faults: Faults<RangeKey>)
    returns (times: seq<int>, sets: seq<Payload>)
    requires LegalRun(Ranges(secs, backend), events) && Long(a)
    ensures FreshAnswer(secs, backend, RangeKind(secs), start, events, a, faults, times, sets)
  {
    RangesAreSound(secs);
    times, sets := Staleness(secs, backend, RangeKind(secs), start, events, a, faults);
  }

  /** No request of the run has an empty window that shares its key with a proper one. */
  predicate AllHarmless(events: seq<RangeEvent>) {
    forall i :: 0 <= i < |events| && events[i].Request? ==> Harmless(events[i].a)
  }

  /**
   * Short windows: a proper window of at most 600 seconds is answered by the backend's reply,
   * under 120 seconds old, to a window that was asked in the run, or is being asked now, with
   * both ends less than 60 seconds away, at the same step. An entry written by a longer query
   * is never used; for metrics, and whenever all requests are harmless, neither is one written
   * for an empty window.
   */
  lemma ShortWindowAnswer(secs: StepParser, backend: Backend, start: int, events: seq<RangeEvent>, a: RangeAsk,
                          faults: Faults<RangeKey>)
    returns (b: RangeAsk, t: int)
    requires LegalRun(Ranges(secs, backend), events) && 0 <= a.start < a.end <= a.start + 600
    ensures var sys := Ranges(secs, backend);
      var w := Run(sys, start, events);
      && ((b == a && t == w.now) || AskedIn(sys, start, events, b, t))
      && b.scope == a.scope && Effective(secs, b) == Effective(secs, a)
      && -60 < b.start - a.start < 60 && -60 < b.end - a.end < 60 && b.end <= b.start + 600
      && t <= w.now < t + 120
      && Serve(sys, w.store, w.now, faults, a).0 == backend(a.scope, t, b.start, b.end, Effective(secs, a))
    ensures ReadsCanonicalSteps(secs) ==> UsesStep(secs, a, Effective(secs, a)) && UsesStep(secs, b, Effective(secs, a))
    ensures a.scope.Metrics? || AllHarmless(events) ==> Proper(b.start, b.end)
  {
    var sys := Ranges(secs, backend);
    RangesAreFit(secs, backend);
    PlanIs(secs, backend, a, 0);
    b, t := BypassAnswer(sys, start, events, a, faults);
    PlanIs(secs, backend, b, 0);
    FullKeyDeterminesPlan(secs, a, b);
    AlignedBounds(a.start, a.end);
    AlignedBounds(b.start, b.end);
    if AllHarmless(events) {
      EmptyAligned(a);
      EmptyAligned(b);
    }
  }

  // ---- what an empty statistics window may do ---------------------------------------------------

  /** A reply the scheme stores and finds again. */
  predicate Storable(r: Reply<Payload>) {
    r.Answer? && !r.raw.Blank?
  }

  /** A backend whose replies to empty windows are answers, and never those to proper windows. */
  ghost predicate TellsEmptyApart(backend: Backend) {
    && (forall scope, t, s, e, step :: e <= s ==> Storable(backend(scope, t, s, e, step)))
    && forall scope, t, s, e, step, scope', t', s', e', step' ::
         e <= s && s' < e' ==> backend(scope, t, s, e, step) != backend(scope', t', s', e', step')
  }

  ghost predicate ProperReply(backend: Backend, r: Reply<Payload>) {
    exists scope, t, s, e, step :: s < e && r == backend(scope, t, s, e, step)
  }

  /** After `a`, the short proper request `b` is answered with the reply to a proper window. */
  ghost predicate ProperAfter(secs: StepParser, backend: Backend, a: RangeAsk, b: RangeAsk, start: int) {
    var sys := Ranges(secs, backend);
    var w := Run(sys, start, [Request(a, NoFaults())]);
    ProperReply(backend, Serve(sys, w.store, w.now, NoFaults(), b).0)
  }

  ghost predicate NeverMisleads(secs: StepParser, backend: Backend, a: RangeAsk) {
    forall b: RangeAsk, start: int :: Proper(b.start, b.end) && Short(b) ==> ProperAfter(secs, backend, a, b, start)
  }

  /**
   * The guard `StatsRangeCached` lacks, exactly: with a backend that tells empty windows apart, a
   * statistics request on non-negative times never makes a later short request on a proper window
   * be answered for an empty one if and only if it is harmless.
   */
  lemma StatsHarmlessIff(secs: StepParser, backend: Backend, a: RangeAsk)
    requires a.scope.Stats? && 0 <= a.start && 0 <= a.end && TellsEmptyApart(backend)
    ensures NeverMisleads(secs, backend, a) <==> Harmless(a)
  {
    if Harmless(a) {
      forall b: RangeAsk, start: int | Proper(b.start, b.end) && Short(b)
        ensures ProperAfter(secs, backend, a, b, start)
      {
        HarmlessStats(secs, backend, a, b, start);
      }
    } else {
      ShadowedKey(secs, a);
      EmptyStatsAnswers(secs, backend, a, 0);
      assert !ProperAfter(secs, backend, a, Shadowed(a), 0);
    }
  }

  lemma HarmlessStats(secs: StepParser, backend: Backend, a: RangeAsk, b: RangeAsk, start: int)
    requires a.scope.Stats? && Harmless(a) && Proper(b.start, b.end) && Short(b)
    ensures ProperAfter(secs, backend, a, b, start)
  {
    var run: seq<RangeEvent> := [Request(a, NoFaults())];
    assert LegalRun(Ranges(secs, backend), run) && AllHarmless(run);
    var c, t := ShortWindowAnswer(secs, backend, start, run, b, NoFaults());
  }

  /** After any other empty statistics request the minute it shares a key with is answered for the empty window. */
  lemma EmptyStatsAnswers(secs: StepParser, backend: Backend, a: RangeAsk, start: int)
    requires a.scope.Stats? && 0 <= a.start && Floor(a.start, 60) < a.end <= a.start
    requires Storable(backend(a.scope, start, a.start, a.end, Effective(secs, a)))
    ensures var sys := Ranges(secs, backend);
      var w := Run(sys, start, [Request(a, NoFaults())]);
      && Proper(Shadowed(a).start, Shadowed(a).end) && w.now == start
      && Serve(sys, w.store, w.now, NoFaults(), Shadowed(a)).0 ==
           backend(a.scope, start, a.start, a.end, Effective(secs, a))
  {
    var sys := Ranges(secs, backend);
    ShadowedKey(secs, a);
    RunOfOne(sys, start, a, NoFaults());
    PlanIs(secs, backend, a, 0);
    PlanIs(secs, backend, Shadowed(a), 0);
  }
}
