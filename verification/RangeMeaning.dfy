/** What a cached range query answers, end to end, when the backend samples signals. */
module RangeMeaning {
  import opened Base
  import opened Sorting
  import opened Tiers
  import opened Text
  import opened Series
  import opened Thinning
  import opened Sampling
  import opened CacheAside
  import opened Windows
  import opened WindowCache
  import opened RangeCache

  /** For queries of this scope the backend samples `src`, whenever it is asked. */
  ghost predicate SamplesScope(secs: StepParser, backend: Backend, scope: Scope, src: Signals, inclusive: bool) {
    forall t, s, e, step :: s < e && secs(step) > 0 ==>
      SampleReply(backend(scope, t, s, e, step), src, s, e, secs(step), inclusive)
  }

  ghost predicate SampleReply(r: Reply<Payload>, src: Signals, s: int, e: int, step: int, inclusive: bool)
    requires step > 0
  {
    Usable(r) && Faithful(r.raw.payload, src, s, e, step, inclusive)
  }

  lemma ReplySamples(secs: StepParser, backend: Backend, scope: Scope, src: Signals, inclusive: bool, t: int, s: int,
                     e: int, step: string)
    requires SamplesScope(secs, backend, scope, src, inclusive) && s < e && secs(step) > 0
    ensures SampleReply(backend(scope, t, s, e, step), src, s, e, secs(step), inclusive)
  {
  }

  /** What is sampled is told apart by its series keys, because a reply shows it. */
  lemma SampledIsKeyed(secs: StepParser, backend: Backend, scope: Scope, src: Signals, inclusive: bool, s: int, e: int,
                       step: string)
    requires SamplesScope(secs, backend, scope, src, inclusive) && s < e && secs(step) > 0
    ensures Keyed(Sampled(src, s, e, secs(step), inclusive))
  {
    ReplySamples(secs, backend, scope, src, inclusive, 0, s, e, step);
    TableOfKeyed(backend(scope, 0, s, e, step).raw.payload);
  }

  /** After any run, a long answer is made of one faithful reply per chunk, whenever they were fetched. */
  lemma LongAnswer(secs: StepParser, backend: Backend, start: int, events: seq<RangeEvent>, a: RangeAsk,
                   faults: Faults<RangeKey>, src: Signals, inclusive: bool)
    returns (sets: seq<Payload>)
    requires ReadsCanonicalSteps(secs) && LegalRun(Ranges(secs, backend), events)
    requires Long(a) && !faults.getFails && !faults.batchFails
    requires SamplesScope(secs, backend, a.scope, src, inclusive)
    ensures var sys := Ranges(secs, backend);
      var w := Run(sys, start, events);
      var f := secs(FetchedStep(secs, a));
      && f > 0 && RepliesFaithful(sets, ChunksOf(a.start, a.end), src, f, inclusive)
      && Serve(sys, w.store, w.now, faults, a).0 ==
           Answer(Parsed(Merge(secs, Effective(secs, a), FetchedStep(secs, a), sets)))
  {
    RangesAreSound(secs);
    SamplesAreUsable(secs, backend, a.scope, src, inclusive);
    FetchedStepIsPositive(secs, a);
    var times;
    times, sets := AnswerOfReplies(secs, backend, RangeKind(secs), start, events, a, faults);
    FetchedAreFaithful(secs, backend, a, src, inclusive, times, sets);
  }

  lemma SamplesAreUsable(secs: StepParser, backend: Backend, scope: Scope, src: Signals, inclusive: bool)
    requires SamplesScope(secs, backend, scope, src, inclusive)
    ensures RepliesUsable(secs, backend, scope)
  {
    forall t, s, e, step | s < e && secs(step) > 0 ensures Usable(backend(scope, t, s, e, step)) {
      ReplySamples(secs, backend, scope, src, inclusive, t, s, e, step);
    }
  }

  lemma FetchedAreFaithful(secs: StepParser, backend: Backend, a: RangeAsk, src: Signals, inclusive: bool,
                           times: seq<int>, sets: seq<Payload>)
    requires secs(FetchedStep(secs, a)) > 0 && Long(a) && SamplesScope(secs, backend, a.scope, src, inclusive)
    requires FetchedReplies(secs, backend, a, times, sets)
    ensures RepliesFaithful(sets, ChunksOf(a.start, a.end), src, secs(FetchedStep(secs, a)), inclusive)
  {
    var cs, f := ChunksOf(a.start, a.end), secs(FetchedStep(secs, a));
    ChunksTileAlignedWindow(a.start, a.end);
    forall i | 0 <= i < |cs| ensures Faithful(sets[i], src, cs[i].start, cs[i].end, f, inclusive) {
      assert ReplyIs(secs, backend, a, cs[i], times[i], sets[i]);
      ReplySamples(secs, backend, a.scope, src, inclusive, times[i], cs[i].start, cs[i].end, FetchedStep(secs, a));
    }
  }

  /**
   * After any run, a query over more than 600 seconds whose lookups do not fail is answered
   * with exactly the samples of the aligned window at the fetched step, thinned to the step
   * asked for, whenever the fetched step divides the tier's chunk size.
   */
  lemma LongAnswerSamplesAlignedWindow(secs: StepParser, backend: Backend, start: int, events: seq<RangeEvent>,
                                       a: RangeAsk, faults: Faults<RangeKey>, src: Signals, inclusive: bool)
    requires ReadsCanonicalSteps(secs) && LegalRun(Ranges(secs, backend), events)
    requires Long(a) && !faults.getFails && !faults.batchFails
    requires SamplesScope(secs, backend, a.scope, src, inclusive)
    requires secs(FetchedStep(secs, a)) > 0 && TierOf(a.start, a.end) % secs(FetchedStep(secs, a)) == 0
    ensures var sys := Ranges(secs, backend);
      var w := Run(sys, start, events);
      var (lo, hi) := Aligned(a.start, a.end);
      var fine, coarse := secs(FetchedStep(secs, a)), secs(Effective(secs, a));
      var samples := Render(Sampled(src, lo, hi, fine, inclusive));
      Serve(sys, w.store, w.now, faults, a).0 ==
        Answer(Parsed(if coarse > fine then Downsampled(samples, coarse) else samples))
  {
    var sets := LongAnswer(secs, backend, start, events, a, faults, src, inclusive);
    MergedSamples(a, sets, src, secs(FetchedStep(secs, a)), inclusive);
  }

  lemma MergedSamples(a: RangeAsk, sets: seq<Payload>, src: Signals, step: int, inclusive: bool)
    requires Long(a) && step > 0 && TierOf(a.start, a.end) % step == 0
    requires RepliesFaithful(sets, ChunksOf(a.start, a.end), src, step, inclusive)
    ensures var (lo, hi) := Aligned(a.start, a.end); Merged(sets) == Render(Sampled(src, lo, hi, step, inclusive))
  {
    ChunksTileAlignedWindow(a.start, a.end);
    var (lo, hi) := Aligned(a.start, a.end);
    ChunksOverlay(sets, ChunksOf(a.start, a.end), lo, hi, TierOf(a.start, a.end), src, step, inclusive);
  }

  /**
   * A step coarser than the canonical one: after any run the answer is exactly the coarse samples
   * of the aligned window if and only if every signal settles, whatever gaps the signals have.
   */
  lemma CoarseAnswerIsCoarseSamples(secs: StepParser, backend: Backend, start: int, events: seq<RangeEvent>,
                                    a: RangeAsk, faults: Faults<RangeKey>, src: Signals, inclusive: bool)
    requires ReadsCanonicalSteps(secs) && LegalRun(Ranges(secs, backend), events)
    requires Long(a) && !faults.getFails && !faults.batchFails
    requires SamplesScope(secs, backend, a.scope, src, inclusive)
    requires secs(Effective(secs, a)) > secs(Canonical(a))
    ensures var sys := Ranges(secs, backend);
      var w := Run(sys, start, events);
      var (lo, hi) := Aligned(a.start, a.end);
      var fine, coarse := secs(Canonical(a)), secs(Effective(secs, a));
      0 < fine < coarse && lo < hi &&
      (AllSettle(src, lo, hi, fine, coarse, inclusive) <==>
       Serve(sys, w.store, w.now, faults, a).0 == Answer(Parsed(Render(Sampled(src, lo, hi, coarse, inclusive)))))
  {
    CanonicalStepDividesChunk(secs, a.end - a.start);
    ChunksTileAlignedWindow(a.start, a.end);
    LongAnswerSamplesAlignedWindow(secs, backend, start, events, a, faults, src, inclusive);
    var (lo, hi) := Aligned(a.start, a.end);
    SampledIsKeyed(secs, backend, a.scope, src, inclusive, lo, hi, Canonical(a));
    SampledIsKeyed(secs, backend, a.scope, src, inclusive, lo, hi, Effective(secs, a));
    DownsampledEqualsDirect(src, lo, hi, secs(Canonical(a)), secs(Effective(secs, a)), inclusive);
  }

  /**
   * A step no coarser than the canonical one: after any run the answer is exactly the direct
   * samples of the aligned window at the fetched step if and only if every signal keeps its grid.
   */
  lemma FineAnswerIsDirectSamples(secs: StepParser, backend: Backend, start: int, events: seq<RangeEvent>, a: RangeAsk,
                                  faults: Faults<RangeKey>, src: Signals, inclusive: bool)
    requires ReadsCanonicalSteps(secs) && LegalRun(Ranges(secs, backend), events)
    requires Long(a) && !faults.getFails && !faults.batchFails
    requires SamplesScope(secs, backend, a.scope, src, inclusive)
    requires secs(Effective(secs, a)) <= secs(Canonical(a))
    ensures var sys := Ranges(secs, backend);
      var w := Run(sys, start, events);
      var (lo, hi) := Aligned(a.start, a.end);
      var f := secs(Effective(secs, a));
      f > 0 &&
      (AllKeepGrid(src, ChunksOf(a.start, a.end), lo, hi, f, inclusive) <==>
       Serve(sys, w.store, w.now, faults, a).0 == Answer(Parsed(Render(Sampled(src, lo, hi, f, inclusive)))))
  {
    var sets := LongAnswer(secs, backend, start, events, a, faults, src, inclusive);
    MergedIsDirectIff(secs, backend, a, src, inclusive, sets);
  }

  lemma MergedIsDirectIff(secs: StepParser, backend: Backend, a: RangeAsk, src: Signals, inclusive: bool,
                          sets: seq<Payload>)
    requires Long(a) && SamplesScope(secs, backend, a.scope, src, inclusive) && secs(FetchedStep(secs, a)) > 0
    requires RepliesFaithful(sets, ChunksOf(a.start, a.end), src, secs(FetchedStep(secs, a)), inclusive)
    ensures var (lo, hi) := Aligned(a.start, a.end);
      var f := secs(FetchedStep(secs, a));
      Merged(sets) == Render(Sampled(src, lo, hi, f, inclusive)) <==>
        AllKeepGrid(src, ChunksOf(a.start, a.end), lo, hi, f, inclusive)
  {
    var (lo, hi) := Aligned(a.start, a.end);
    var f := secs(FetchedStep(secs, a));
    ChunksTileAlignedWindow(a.start, a.end);
    ChunkedIsDirectIff(sets, ChunksOf(a.start, a.end), lo, hi, src, f, inclusive);
    SampledIsKeyed(secs, backend, a.scope, src, inclusive, lo, hi, FetchedStep(secs, a));
    TableOfKeyed(Flat(sets));
    RenderInjective(TableOf(Flat(sets)), Sampled(src, lo, hi, f, inclusive));
  }

  /**
   * At the step asked for: after any run a query over more than 600 seconds is answered with the
   * direct samples of the aligned window, at the step asked for or, if that cannot be read, at 30,
   * 60 or 300 seconds by the length of the range, if and only if every signal settles, for a step
   * above these, or keeps its grid.
   */
  lemma AnswerAtStepAsked(secs: StepParser, backend: Backend, start: int, events: seq<RangeEvent>, a: RangeAsk,
                          faults: Faults<RangeKey>, src: Signals, inclusive: bool, step: int)
    requires ReadsCanonicalSteps(secs) && LegalRun(Ranges(secs, backend), events)
    requires 0 <= a.start && a.start + 600 < a.end && !faults.getFails && !faults.batchFails
    requires SamplesScope(secs, backend, a.scope, src, inclusive) && AsksFor(secs, a, step)
    ensures var sys := Ranges(secs, backend);
      var w := Run(sys, start, events);
      var (lo, hi) := Aligned(a.start, a.end);
      var usual := if a.end - a.start <= 3600 then 30 else if a.end - a.start <= 21600 then 60 else 300;
      step > 0 &&
      ((if step > usual then AllSettle(src, lo, hi, usual, step, inclusive)
        else AllKeepGrid(src, ChunksOf(a.start, a.end), lo, hi, step, inclusive)) <==>
       Serve(sys, w.store, w.now, faults, a).0 == Answer(Parsed(Render(Sampled(src, lo, hi, step, inclusive)))))
  {
    StepInUse(secs, a, step);
    if step > UsualStep(a.end - a.start) {
      CoarseAnswerIsCoarseSamples(secs, backend, start, events, a, faults, src, inclusive);
    } else {
      FineAnswerIsDirectSamples(secs, backend, start, events, a, faults, src, inclusive);
    }
  }

  /** For signals with a value at every second that is: a single chunk, or a step that divides the chunk size. */
  lemma FineStepMustDivide(secs: StepParser, backend: Backend, start: int, events: seq<RangeEvent>, a: RangeAsk,
                           faults: Faults<RangeKey>, src: Signals, inclusive: bool)
    requires ReadsCanonicalSteps(secs) && LegalRun(Ranges(secs, backend), events)
    requires Long(a) && !faults.getFails && !faults.batchFails
    requires SamplesScope(secs, backend, a.scope, src, inclusive) && Everywhere(src) && src != map[]
    requires secs(Effective(secs, a)) <= secs(Canonical(a))
    ensures var sys := Ranges(secs, backend);
      var w := Run(sys, start, events);
      var (lo, hi) := Aligned(a.start, a.end);
      var f := secs(Effective(secs, a));
      f > 0 &&
      (Serve(sys, w.store, w.now, faults, a).0 == Answer(Parsed(Render(Sampled(src, lo, hi, f, inclusive)))) <==>
       |ChunksOf(a.start, a.end)| == 1 || TierOf(a.start, a.end) % f == 0)
  {
    FineAnswerIsDirectSamples(secs, backend, start, events, a, faults, src, inclusive);
    WindowKeepsGrid(a, src, secs(Effective(secs, a)), inclusive);
  }

  lemma WindowKeepsGrid(a: RangeAsk, src: Signals, step: int, inclusive: bool)
    requires Long(a) && step > 0 && Everywhere(src) && src != map[]
    ensures var (lo, hi) := Aligned(a.start, a.end);
      AllKeepGrid(src, ChunksOf(a.start, a.end), lo, hi, step, inclusive) <==>
        |ChunksOf(a.start, a.end)| == 1 || TierOf(a.start, a.end) % step == 0
  {
    ChunksTileAlignedWindow(a.start, a.end);
    var (lo, hi) := Aligned(a.start, a.end);
    EverywhereKeepsGrid(src, ChunksOf(a.start, a.end), lo, hi, TierOf(a.start, a.end), step, inclusive);
  }

  // ---- a step that does not divide --------------------------------------------------------

  /** The hour from 0 on, at seven seconds: two chunks of 1800 seconds. */
  function HourBySevens(scope: Scope): RangeAsk {
    Ask(scope, 0, 3600, "7s")
  }

  lemma HourBySevensPlan(secs: StepParser, scope: Scope)
    requires ReadsCanonicalSteps(secs) && secs("7s") == 7
    ensures var a := HourBySevens(scope);
      && Long(a) && Aligned(a.start, a.end) == (0, 3600)
      && Canonical(a) == "30s" && Effective(secs, a) == "7s"
      && TierOf(a.start, a.end) == 1800 && |ChunksOf(a.start, a.end)| == 2
  {
    assert Trimmed("7s");
    TrimSpaceNormal("7s");
    assert Tiles(0, 3600, 1800) == [Chunk(0, 1800)] + Tiles(1800, 3600, 1800);
    assert Tiles(1800, 3600, 1800) == [Chunk(1800, 3600)] + Tiles(3600, 3600, 1800);
  }

  /** The failing request: whatever runs before, it is not answered with the direct samples. */
  lemma SevensAreShifted(secs: StepParser, backend: Backend, start: int, events: seq<RangeEvent>, scope: Scope,
                         faults: Faults<RangeKey>, src: Signals, inclusive: bool)
    requires ReadsCanonicalSteps(secs) && secs("7s") == 7
    requires LegalRun(Ranges(secs, backend), events) && !faults.getFails && !faults.batchFails
    requires SamplesScope(secs, backend, scope, src, inclusive) && Everywhere(src) && src != map[]
    ensures var sys := Ranges(secs, backend);
      var w := Run(sys, start, events);
      Serve(sys, w.store, w.now, faults, HourBySevens(scope)).0 !=
        Answer(Parsed(Render(Sampled(src, 0, 3600, 7, inclusive))))
  {
    HourBySevensPlan(secs, scope);
    FineStepMustDivide(secs, backend, start, events, HourBySevens(scope), faults, src, inclusive);
    assert 1800 % 7 == 1;
  }

  // ---- a gap that shows -----------------------------------------------------------------

  /** A signal with values at 30 and 90 seconds only. */
  function Gappy(): int -> Option<string> {
    t => if t == 30 || t == 90 then Some("1") else None
  }

  /** The half hour from 0 on, at one minute: a request that takes the chunked path. */
  function HalfHour(scope: Scope): RangeAsk {
    Ask(scope, 0, 1800, "1m")
  }

  lemma HalfHourPlan(secs: StepParser, scope: Scope)
    requires ReadsCanonicalSteps(secs)
    ensures var a := HalfHour(scope);
      && Long(a) && Aligned(a.start, a.end) == (0, 1800)
      && Canonical(a) == "30s" && Effective(secs, a) == "1m" && FetchedStep(secs, a) == "30s"
  {
    assert Trimmed("1m");
    TrimSpaceNormal("1m");
  }

  lemma GappyHasNoCoarse(t: int, inclusive: bool)
    ensures t !in Samples(Gappy(), 0, 1800, 60, inclusive)
  {
    SamplesAt(Gappy(), 0, 1800, 60, inclusive, t);
    assert 30 % 60 == 30 && 90 % 60 == 30;
  }

  lemma GappyHasFine(t: int, inclusive: bool)
    ensures var f := Samples(Gappy(), 0, 1800, 30, inclusive);
      (t in f <==> t == 30 || t == 90) && (t in f ==> f[t] == "1")
  {
    SamplesAt(Gappy(), 0, 1800, 30, inclusive, t);
    assert 30 % 30 == 0 && 90 % 30 == 0;
  }

  lemma GappySamples(inclusive: bool)
    ensures Samples(Gappy(), 0, 1800, 30, inclusive) == map[30 := "1", 90 := "1"]
    ensures Samples(Gappy(), 0, 1800, 60, inclusive) == map[]
  {
    var f, c := Samples(Gappy(), 0, 1800, 30, inclusive), Samples(Gappy(), 0, 1800, 60, inclusive);
    var two: map<int, string> := map[30 := "1", 90 := "1"];
    forall t | t in f ensures t in two && two[t] == f[t] {
      GappyHasFine(t, inclusive);
    }
    forall t | t in two ensures t in f {
      GappyHasFine(t, inclusive);
    }
    assert f.Keys == two.Keys;
    forall t | t in c ensures false {
      GappyHasNoCoarse(t, inclusive);
    }
    assert c.Keys == {};
  }

  lemma GappyKept(inclusive: bool)
    ensures Kept(PointList(Samples(Gappy(), 0, 1800, 30, inclusive)), 60) == [Point(30, "1"), Point(90, "1")]
  {
    GappySamples(inclusive);
    var m := map[30 := "1", 90 := "1"];
    assert Ascending([30, 90], IntLt) && Elems([30, 90]) == m.Keys;
    AscIntsIs([30, 90]);
    assert PointList(m) == [Point(30, "1"), Point(90, "1")];
    ThinFixed(PointList(m), 30, 60);
  }

  /**
   * The failure at a request the chunked path receives: values at 30 and 90 only are kept by the
   * thinning, although at one minute the direct answer is empty.
   */
  lemma GapsShiftDownsampling(secs: StepParser, backend: Backend, start: int, events: seq<RangeEvent>, scope: Scope,
                              faults: Faults<RangeKey>, inclusive: bool)
    requires ReadsCanonicalSteps(secs) && LegalRun(Ranges(secs, backend), events) && !faults.getFails &&
      !faults.batchFails
    requires SamplesScope(secs, backend, scope, map["" := Signal(map[], Gappy())], inclusive)
    ensures var sys := Ranges(secs, backend);
      var w := Run(sys, start, events);
      var src := map["" := Signal(map[], Gappy())];
      && Serve(sys, w.store, w.now, faults, HalfHour(scope)).0 ==
           Answer(Parsed([MatrixSeries(map[], [Point(30, "1"), Point(90, "1")])]))
      && Render(Sampled(src, 0, 1800, 60, inclusive)) == []
  {
    var src := map["" := Signal(map[], Gappy())];
    HalfHourPlan(secs, scope);
    LongAnswerSamplesAlignedWindow(secs, backend, start, events, HalfHour(scope), faults, src, inclusive);
    GappyReplies(src, inclusive);
  }

  lemma GappyReplies(src: Signals, inclusive: bool)
    requires src == map["" := Signal(map[], Gappy())]
    ensures Downsampled(Render(Sampled(src, 0, 1800, 30, inclusive)), 60) ==
      [MatrixSeries(map[], [Point(30, "1"), Point(90, "1")])]
    ensures Render(Sampled(src, 0, 1800, 60, inclusive)) == []
  {
    GappySamples(inclusive);
    GappyKept(inclusive);
    var f, c := Sampled(src, 0, 1800, 30, inclusive), Sampled(src, 0, 1800, 60, inclusive);
    assert f.Keys == {""} && c.Keys == {};
    assert Ascending([""], Before) && Elems([""]) == f.Keys;
    AscNamesIs([""]);
    AscNamesNoDup(c.Keys);
    ThinnedRow(f, 60, 0);
  }
}
