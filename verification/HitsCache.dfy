/** `HitsCached` (logscache.go): the additive variant, with no guard on empty windows and no bypass. */
module HitsCache {
  import opened Base
  import opened Sorting
  import opened Text
  import opened Tiers
  import opened Hits
  import opened HitsLaws
  import opened CacheAside
  import opened EngineCache
  import opened WindowCache
  import opened Windows
  import Series

  type Payload = seq<HitsSeries>

  datatype Scope = Scope(tenant: string, dsID: string, query: string, fields: string)

  type HitsKey = Key<Scope>
  type HitsAsk = Ask<Scope>
  type Backend = WindowBackend<Scope, Payload>

  /** Add the chunks up, then bucket by the step asked for if it is coarser. */
  ghost function Merge(secs: StepParser, effective: string, fetched: string, sets: seq<Payload>): Payload {
    if secs(effective) > secs(fetched) then Downsampled(Merged(sets), secs(effective)) else Merged(sets)
  }

  /**
   * Every window takes the chunked path, an empty one with no chunks at all; the scheme is sound
   * for the harmless ones.
   */
  ghost function HitsKind(secs: StepParser): Kind<Scope, Payload> {
    Kind((a: HitsAsk) => Harmless(a), (a: HitsAsk) => false,
         (effective: string, fetched: string, sets: seq<Payload>) => Merge(secs, effective, fetched, sets))
  }

  ghost function HitsSystem(secs: StepParser, backend: Backend): System<HitsAsk, HitsKey, Payload> {
    WindowSystem(secs, backend, HitsKind(secs))
  }

  lemma PlanIs(secs: StepParser, backend: Backend, a: HitsAsk, now: int)
    ensures var sys := HitsSystem(secs, backend);
      && sys.plan(a) == PlanOf(secs, false, a)
      && sys.direct(a, now) == backend(a.scope, now, a.start, a.end, Effective(secs, a))
  {
  }

  // ---- the methods -----------------------------------------------------------------

  /** `HitsCached`: an empty query means all logs; no engine or no tenant means a plain fetch. */
  method HitsCached(cache: EngineCache<HitsKey, Payload>, connected: bool, secs: StepParser, backend: Backend,
                    tenant: string, dsID: string, query: string, fields: string, startSec: int, endSec: int,
                    userStep: string, faults: Faults<HitsKey>)
    returns (answer: Reply<Payload>)
    modifies cache`entries
    ensures var scope := Scope(TrimSpace(tenant), dsID, if query == "" then "*" else query, fields);
      (answer, cache.entries) ==
        if !connected || TrimSpace(tenant) == ""
        then (backend(scope, cache.now, startSec, endSec, userStep), old(cache.entries))
        else Serve(HitsSystem(secs, backend), old(cache.entries), cache.now, faults,
          Ask(scope, startSec, endSec, userStep))
  {
    var scope := Scope(TrimSpace(tenant), dsID, if query == "" then "*" else query, fields);
    if !connected || TrimSpace(tenant) == "" {
      return backend(scope, cache.now, startSec, endSec, userStep);
    }
    answer := Query(cache, secs, backend, Ask(scope, startSec, endSec, userStep), faults);
  }

  method Query(cache: EngineCache<HitsKey, Payload>, secs: StepParser, backend: Backend, a: HitsAsk,
               faults: Faults<HitsKey>)
    returns (answer: Reply<Payload>)
    modifies cache`entries
    ensures (answer, cache.entries) == Serve(HitsSystem(secs, backend), old(cache.entries), cache.now, faults, a)
  {
    var effectiveStep, fetchStep, fullKey := Resolve(secs, a);
    PlanIs(secs, backend, a, cache.now);

    var hit := cache.Get(fullKey, faults);
    if hit.Found? {
      return Answer(hit.raw);
    }
    if hit.LookupFailed? {
      return backend(a.scope, cache.now, a.start, a.end, effectiveStep);
    }
    answer := QueryChunks(cache, secs, backend, a, faults, effectiveStep, fetchStep, fullKey);
  }

  /** The chunked part: gather, then merge, thin and store the full result. */
  method QueryChunks(cache: EngineCache<HitsKey, Payload>, secs: StepParser, backend: Backend, a: HitsAsk,
                     faults: Faults<HitsKey>, effectiveStep: string, fetchStep: string, fullKey: HitsKey)
    returns (answer: Reply<Payload>)
    requires effectiveStep == Effective(secs, a) && fetchStep == FetchedStep(secs, a) && fullKey == FullKey(secs, a)
    modifies cache`entries
    ensures (answer, cache.entries) == Missed(HitsSystem(secs, backend), old(cache.entries), cache.now, faults, a)
  {
    PlanIs(secs, backend, a, cache.now);
    var got := GatherChunks(cache, secs, backend, HitsKind(secs), a, faults, fetchStep);
    answer := Conclude(cache, secs, backend, a, faults, effectiveStep, fetchStep, fullKey, got);
  }

  method Conclude(cache: EngineCache<HitsKey, Payload>, secs: StepParser, backend: Backend, a: HitsAsk,
                  faults: Faults<HitsKey>, effectiveStep: string, fetchStep: string, fullKey: HitsKey,
                  got: Gathered<Payload>)
    returns (answer: Reply<Payload>)
    requires effectiveStep == Effective(secs, a) && fetchStep == FetchedStep(secs, a) && fullKey == FullKey(secs, a)
    modifies cache`entries
    ensures (answer, cache.entries) ==
      AnswerFrom(HitsSystem(secs, backend), a, cache.now, faults, got, old(cache.entries))
  {
    PlanIs(secs, backend, a, cache.now);
    if !got.Complete? {
      return backend(a.scope, cache.now, a.start, a.end, effectiveStep);
    }
    var merged := Combine(secs, effectiveStep, fetchStep, got.payloads);
    cache.Set(fullKey, Parsed(merged), FULL_RESULT_TTL, faults);
    return Answer(Parsed(merged));
  }

  method Combine(secs: StepParser, effectiveStep: string, fetchStep: string, sets: seq<Payload>)
    returns (merged: Payload)
    ensures merged == Merge(secs, effectiveStep, fetchStep, sets)
  {
    merged := MergeHits(sets);
    if secs(effectiveStep) > secs(fetchStep) {
      merged := DownsampleHits(merged, secs(effectiveStep));
    }
  }

  // ---- what holds over all runs of harmless requests --------------------------------------

  lemma HitsAreFit(secs: StepParser, backend: Backend)
    ensures Fit(HitsSystem(secs, backend))
  {
    WindowsAreFit(secs, backend, HitsKind(secs));
  }

  type HitsEvent = Event<HitsAsk, HitsKey>

  /** History independence, for windows of any length. */
  lemma HitsHistoryIndependence(secs: StepParser, backend: Backend, start: int, events: seq<HitsEvent>, a: HitsAsk,
                                faults: Faults<HitsKey>)
    requires var sys := HitsSystem(secs, backend); Steady(sys) && LegalRun(sys, events)
    requires Harmless(a) && !faults.getFails && !faults.batchFails
    ensures var sys := HitsSystem(secs, backend);
      var w := Run(sys, start, events);
      && Serve(sys, w.store, w.now, faults, a).0 == Uncached(sys, a, w.now)
      && Serve(sys, w.store, w.now, faults, a).0 == Serve(sys, map[], w.now, faults, a).0
  {
    HitsAreFit(secs, backend);
    PlanIs(secs, backend, a, 0);
    HistoryIndependence(HitsSystem(secs, backend), start, events, a, faults);
  }

  /** Staleness of answers: see `WindowCache.FreshAnswer`. */
  lemma HitsStaleness(secs: StepParser, backend: Backend, start: int, events: seq<HitsEvent>, a: HitsAsk,
                      faults: Faults<HitsKey>)
    returns (times: seq<int>, sets: seq<Payload>)
    requires LegalRun(HitsSystem(secs, backend), events) && Harmless(a)
    ensures FreshAnswer(secs, backend, HitsKind(secs), start, events, a, faults, times, sets)
  {
    times, sets := Staleness(secs, backend, HitsKind(secs), start, events, a, faults);
  }

  // ---- conservation -----------------------------------------------------------------------

  /** How many events fall in a window. */
  function CountIn(events: seq<int>, lo: int, hi: int): nat {
    if events == [] then 0
    else CountIn(events[..|events| - 1], lo, hi) + if lo <= events[|events| - 1] < hi then 1 else 0
  }

  lemma {:induction false} CountSplits(events: seq<int>, lo: int, mid: int, hi: int)
    requires lo <= mid <= hi
    ensures CountIn(events, lo, hi) == CountIn(events, lo, mid) + CountIn(events, mid, hi)
  {
    if events != [] {
      CountSplits(events[..|events| - 1], lo, mid, hi);
    }
  }

  lemma {:induction false} CountNone(events: seq<int>, lo: int)
    ensures CountIn(events, lo, lo) == 0
  {
    if events != [] {
      CountNone(events[..|events| - 1], lo);
    }
  }

  /** For this scope the backend counts every event in the window it is asked about, once. */
  ghost predicate CountsEvents(secs: StepParser, backend: Backend, scope: Scope, events: seq<int>) {
    forall t, s, e, step :: s < e && secs(step) > 0 ==> CountReply(backend(scope, t, s, e, step), events, s, e)
  }

  ghost predicate CountReply(r: Reply<Payload>, events: seq<int>, s: int, e: int) {
    Usable(r) && Mass(r.raw.payload) == CountIn(events, s, e) as real
  }

  lemma MassOfLast(sets: seq<Payload>)
    requires sets != []
    ensures var n := |sets| - 1; Mass(Series.Flat(sets)) == Mass(Series.Flat(sets[..n])) + Mass(sets[n])
  {
    var n := |sets| - 1;
    Series.FlatStep(sets, n);
    assert sets[..n + 1] == sets;
    MassAppend(Series.Flat(sets[..n]), sets[n]);
  }

  /** Payloads that count their own chunk together count the window the chunks tile. */
  lemma {:induction false} ChunkCountsAddUp(sets: seq<Payload>, cs: seq<Chunk>, lo: int, hi: int, size: int,
                                            events: seq<int>)
    requires |sets| == |cs| && size > 0 && TilesExactly(cs, lo, hi, size)
    requires forall i :: 0 <= i < |cs| ==> Mass(sets[i]) == CountIn(events, cs[i].start, cs[i].end) as real
    ensures lo <= hi && Mass(Series.Flat(sets)) == CountIn(events, lo, hi) as real
  {
    if cs == [] {
      CountNone(events, lo);
    } else {
      var n := |cs| - 1;
      AllButLast(cs, lo, hi, size);
      ChunkCountsAddUp(sets[..n], cs[..n], lo, cs[n].start, size, events);
      MassOfLast(sets);
      CountSplits(events, lo, cs[n].start, hi);
    }
  }

  lemma MergeCounts(secs: StepParser, effective: string, fetched: string, sets: seq<Payload>)
    requires secs(fetched) > 0
    ensures var out := Merge(secs, effective, fetched, sets); Mass(out) == Mass(Series.Flat(sets)) == Totals(out)
  {
    MergeConserves(sets);
    if secs(effective) > secs(fetched) {
      DownsampleConserves(Merged(sets), secs(effective));
    }
  }

  /**
   * Conservation end to end: if the backend counts each event once, then after any run of
   * harmless requests, with whatever mixture of cached and fetched chunks, the totals of an
   * answer add up to exactly the events of the aligned window, and so do its values.
   */
  lemma HitsConservation(secs: StepParser, backend: Backend, start: int, run: seq<HitsEvent>, a: HitsAsk,
                         faults: Faults<HitsKey>, events: seq<int>)
    returns (out: Payload)
    requires ReadsCanonicalSteps(secs) && LegalRun(HitsSystem(secs, backend), run)
    requires Proper(a.start, a.end) && !faults.getFails && !faults.batchFails
    requires CountsEvents(secs, backend, a.scope, events)
    ensures var sys := HitsSystem(secs, backend);
      var w := Run(sys, start, run);
      var (lo, hi) := Aligned(a.start, a.end);
      && Serve(sys, w.store, w.now, faults, a).0 == Answer(Parsed(out))
      && Totals(out) == Mass(out) == CountIn(events, lo, hi) as real
  {
    CountsAreUsable(secs, backend, a.scope, events);
    var times, sets := AnswerOfReplies(secs, backend, HitsKind(secs), start, run, a, faults);
    out := Merge(secs, Effective(secs, a), FetchedStep(secs, a), sets);
    SetsCount(secs, backend, a, events, times, sets);
  }

  lemma CountsAreUsable(secs: StepParser, backend: Backend, scope: Scope, events: seq<int>)
    requires CountsEvents(secs, backend, scope, events)
    ensures RepliesUsable(secs, backend, scope)
  {
    forall t, s, e, step | s < e && secs(step) > 0 ensures Usable(backend(scope, t, s, e, step)) {
      ReplyCounts(secs, backend, scope, events, t, s, e, step);
    }
  }

  /** Chunk replies, fetched whenever, merge to the count of the aligned window. */
  lemma SetsCount(secs: StepParser, backend: Backend, a: HitsAsk, events: seq<int>, times: seq<int>, sets: seq<Payload>)
    requires ReadsCanonicalSteps(secs) && Proper(a.start, a.end) && CountsEvents(secs, backend, a.scope, events)
    requires FetchedReplies(secs, backend, a, times, sets)
    ensures var (lo, hi) := Aligned(a.start, a.end);
      var out := Merge(secs, Effective(secs, a), FetchedStep(secs, a), sets);
      Totals(out) == Mass(out) == CountIn(events, lo, hi) as real
  {
    FetchedStepIsPositive(secs, a);
    ChunkCounts(secs, backend, a, events, times, sets);
    MergeCounts(secs, Effective(secs, a), FetchedStep(secs, a), sets);
  }

  lemma ChunkCounts(secs: StepParser, backend: Backend, a: HitsAsk, events: seq<int>, times: seq<int>,
                    sets: seq<Payload>)
    requires secs(FetchedStep(secs, a)) > 0 && Proper(a.start, a.end) && CountsEvents(secs, backend, a.scope, events)
    requires FetchedReplies(secs, backend, a, times, sets)
    ensures var (lo, hi) := Aligned(a.start, a.end); Mass(Series.Flat(sets)) == CountIn(events, lo, hi) as real
  {
    ChunksTileAlignedWindow(a.start, a.end);
    var cs := ChunksOf(a.start, a.end);
    var (lo, hi) := Aligned(a.start, a.end);
    forall i | 0 <= i < |cs| ensures Mass(sets[i]) == CountIn(events, cs[i].start, cs[i].end) as real {
      assert ReplyIs(secs, backend, a, cs[i], times[i], sets[i]);
      ReplyCounts(secs, backend, a.scope, events, times[i], cs[i].start, cs[i].end, FetchedStep(secs, a));
    }
    ChunkCountsAddUp(sets, cs, lo, hi, TierOf(a.start, a.end), events);
  }

  lemma ReplyCounts(secs: StepParser, backend: Backend, scope: Scope, events: seq<int>, t: int, s: int, e: int,
                    step: string)
    requires CountsEvents(secs, backend, scope, events) && s < e && secs(step) > 0
    ensures CountReply(backend(scope, t, s, e, step), events, s, e)
  {
  }

  // ---- what an empty window may do -----------------------------------------------------------

  /** An empty window gathers nothing and stores an empty full result. */
  lemma EmptyAskStores(secs: StepParser, backend: Backend, now: int, a: HitsAsk)
    requires a.end <= a.start
    ensures var (answer, st) := Serve(HitsSystem(secs, backend), map[], now, NoFaults(), a);
      answer == Answer(Parsed([])) && Live(st, now, FullKey(secs, a)) && st[FullKey(secs, a)].raw == Parsed([])
  {
    var sys := HitsSystem(secs, backend);
    PlanIs(secs, backend, a, 0);
    assert ChunkKeys(secs, a) == [];
    var none: seq<Payload> := [];
    assert SlotValues(map[], now, NoFaults(), [], ReplyAt(sys, now)) == none;
    NothingMerged(secs, Effective(secs, a), FetchedStep(secs, a));
  }

  lemma NothingMerged(secs: StepParser, effective: string, fetched: string)
    ensures Merge(secs, effective, fetched, []) == []
  {
    assert Series.Flat<HitsSeries>([]) == [];
    assert Keys([]) == {};
    AscNamesNoDup({});
    CountElems(AscNames({}));
    assert Merged([]) == [];
  }

  /** A backend that always has something to report. */
  ghost predicate Lively(backend: Backend) {
    forall scope, t, s, e, step :: s < e ==> LivelyReply(backend(scope, t, s, e, step))
  }

  ghost predicate LivelyReply(r: Reply<Payload>) {
    Usable(r) && r.raw.payload != []
  }

  lemma LivelyAnswer(secs: StepParser, backend: Backend, now: int, b: HitsAsk)
    requires Lively(backend) && Proper(b.start, b.end)
    ensures Serve(HitsSystem(secs, backend), map[], now, NoFaults(), b).0 != Answer(Parsed([]))
  {
    var sys := HitsSystem(secs, backend);
    PlanIs(secs, backend, b, now);
    ChunksTileAlignedWindow(b.start, b.end);
    var ks := ChunkKeys(secs, b);
    forall i | 0 <= i < |ks| ensures LivelyReply(ReplyFor(backend, ks[i], now)) {
      LivelyChunk(secs, backend, now, b, i);
    }
    var sets := SlotValues(map[], now, NoFaults(), ks, ReplyAt(sys, now));
    assert sets[0] == ReplyFor(backend, ks[0], now).raw.payload;
    SomethingMerged(secs, Effective(secs, b), FetchedStep(secs, b), sets);
  }

  lemma LivelyChunk(secs: StepParser, backend: Backend, now: int, b: HitsAsk, i: nat)
    requires Lively(backend) && Proper(b.start, b.end) && i < |ChunkKeys(secs, b)|
    ensures LivelyReply(ReplyFor(backend, ChunkKeys(secs, b)[i], now))
  {
    ChunksTileAlignedWindow(b.start, b.end);
    var c := ChunksOf(b.start, b.end)[i];
    assert LivelyReply(backend(b.scope, now, c.start, c.end, FetchedStep(secs, b)));
  }

  lemma SomethingMerged(secs: StepParser, effective: string, fetched: string, sets: seq<Payload>)
    requires sets != [] && sets[0] != []
    ensures Merge(secs, effective, fetched, sets) != []
  {
    assert sets == sets[..1] + sets[1..];
    Series.FlatAppend(sets[..1], sets[1..]);
    var xs := Series.Flat(sets);
    Series.FlatStep(sets, 0);
    assert sets[0][0] in xs;
    var k := FieldsKey(sets[0][0].fields);
    assert k in Keys(xs);
    assert k in Elems(AscNames(Keys(xs)));
    assert Merged(sets) != [];
  }

  /** Having served `a` first does not change the answer to any harmless request. */
  ghost predicate LeavesNoTrace(secs: StepParser, backend: Backend, a: HitsAsk) {
    forall b: HitsAsk, start: int :: Harmless(b) ==> SameAfter(secs, backend, a, b, start)
  }

  ghost predicate SameAfter(secs: StepParser, backend: Backend, a: HitsAsk, b: HitsAsk, start: int) {
    var sys := HitsSystem(secs, backend);
    var w := Run(sys, start, [Request(a, NoFaults())]);
    Serve(sys, w.store, w.now, NoFaults(), b).0 == Serve(sys, map[], start, NoFaults(), b).0
  }

  /**
   * The missing guard, exactly: with an unchanging backend that always reports something, a
   * request on non-negative times changes the answer to no later harmless request if and only if
   * it is harmless itself: its window is proper, or empty with its end not above the minute its
   * start lies in.
   */
  lemma HarmlessIff(secs: StepParser, backend: Backend, a: HitsAsk)
    requires 0 <= a.start && 0 <= a.end && Lively(backend) && Steady(HitsSystem(secs, backend))
    ensures LeavesNoTrace(secs, backend, a) <==> Harmless(a)
  {
    if Harmless(a) {
      forall b: HitsAsk, start: int | Harmless(b) ensures SameAfter(secs, backend, a, b, start) {
        HarmlessLeavesNoTrace(secs, backend, a, b, start);
      }
    } else {
      EmptyAskPoisons(secs, backend, a, 0);
      LivelyAnswer(secs, backend, 0, Shadowed(a));
      assert !SameAfter(secs, backend, a, Shadowed(a), 0);
    }
  }

  lemma HarmlessLeavesNoTrace(secs: StepParser, backend: Backend, a: HitsAsk, b: HitsAsk, start: int)
    requires Harmless(a) && Harmless(b) && Steady(HitsSystem(secs, backend))
    ensures SameAfter(secs, backend, a, b, start)
  {
    var sys := HitsSystem(secs, backend);
    var run := [Request(a, NoFaults())];
    assert LegalRun(sys, run);
    RunOfOne(sys, start, a, NoFaults());
    HitsHistoryIndependence(secs, backend, start, run, b, NoFaults());
  }

  /** After an empty request of the other kind, the minute it shares a key with is answered as having no logs. */
  lemma EmptyAskPoisons(secs: StepParser, backend: Backend, a: HitsAsk, start: int)
    requires 0 <= a.start && Floor(a.start, 60) < a.end <= a.start
    ensures var sys := HitsSystem(secs, backend);
      var w := Run(sys, start, [Request(a, NoFaults())]);
      Proper(Shadowed(a).start, Shadowed(a).end)
      && w.now == start && Serve(sys, w.store, w.now, NoFaults(), Shadowed(a)).0 == Answer(Parsed([]))
  {
    var sys := HitsSystem(secs, backend);
    ShadowedKey(secs, a);
    EmptyAskStores(secs, backend, start, a);
    RunOfOne(sys, start, a, NoFaults());
    PlanIs(secs, backend, Shadowed(a), 0);
  }
}
