/** What a cached hits query answers, bucket by bucket, when the backend counts log events. */
module HitsMeaning {
  import opened Base
  import opened Sorting
  import opened Tiers
  import opened Hits
  import opened HitsLaws
  import opened CacheAside
  import opened Windows
  import opened WindowCache
  import opened HitsCache
  import Series

  /** A log line: the key of the fields it is counted under, and its second. */
  datatype LogEvent = LogEvent(key: string, at: int)

  /** How many events of a key fall in a window, at seconds that are selected. */
  function KeyCount(events: seq<LogEvent>, k: string, lo: int, hi: int, sel: int -> bool): nat {
    if events == [] then 0
    else
      var e := events[|events| - 1];
      KeyCount(events[..|events| - 1], k, lo, hi, sel) + if e.key == k && lo <= e.at < hi && sel(e.at) then 1 else 0
  }

  /**
   * For this scope the backend shows, per key and bucket, how many events of the window it is asked
   * about fall in it.
   */
  ghost predicate BucketsEvents(secs: StepParser, backend: Backend, scope: Scope, events: seq<LogEvent>) {
    forall t, s, e, step :: s < e && secs(step) > 0 ==>
      BucketReply(backend(scope, t, s, e, step), events, s, e, secs(step))
  }

  ghost predicate BucketReply(r: Reply<Payload>, events: seq<LogEvent>, s: int, e: int, step: int)
    requires step > 0
  {
    Usable(r) && CountsBuckets(r.raw.payload, events, s, e, step)
  }

  ghost predicate CountsBuckets(xs: Payload, events: seq<LogEvent>, s: int, e: int, step: int)
    requires step > 0
  {
    forall k, b :: Shown(xs, k, Exactly(b)) == KeyCount(events, k, s, e, Bucketed(Exactly(b), step)) as real
  }

  // ---- buckets determine every selection ------------------------------------------------

  /** The events of a key in a window, as hits at the start of their bucket. */
  function EventHits(events: seq<LogEvent>, k: string, lo: int, hi: int, step: int): seq<Hit>
    requires step > 0
  {
    if events == [] then []
    else
      var e := events[|events| - 1];
      EventHits(events[..|events| - 1], k, lo, hi, step) +
      if e.key == k && lo <= e.at < hi then [Hit(Floor(e.at, step), 1.0)] else []
  }

  lemma {:induction false} EventHitsCount(events: seq<LogEvent>, k: string, lo: int, hi: int, step: int,
                                          sel: int -> bool)
    requires step > 0
    ensures SumWhere(EventHits(events, k, lo, hi, step), sel) ==
      KeyCount(events, k, lo, hi, Bucketed(sel, step)) as real
  {
    if events != [] {
      var n := |events| - 1;
      EventHitsCount(events[..n], k, lo, hi, step, sel);
      var init, e := EventHits(events[..n], k, lo, hi, step), events[n];
      if e.key == k && lo <= e.at < hi {
        var h := Hit(Floor(e.at, step), 1.0);
        assert (init + [h])[..|init|] == init;
      } else {
        assert init + [] == init;
      }
    }
  }

  lemma {:induction false} SameSelection(hs: seq<Hit>, sel: int -> bool, alt: int -> bool)
    requires forall h :: h in hs ==> sel(h.ts) == alt(h.ts)
    ensures SumWhere(hs, sel) == SumWhere(hs, alt)
  {
    if hs != [] {
      var n := |hs| - 1;
      InitLast(hs);
      SameSelection(hs[..n], sel, alt);
    }
  }

  /** Adding up timestamp by timestamp. */
  ghost function AlongTimes(times: seq<int>, hs: seq<Hit>, sel: int -> bool): real {
    if times == [] then 0.0
    else
      var n := |times| - 1;
      AlongTimes(times[..n], hs, sel) + if sel(times[n]) then SumWhere(hs, Exactly(times[n])) else 0.0
  }

  lemma {:induction false} OneTimeMore(hs: seq<Hit>, sel: int -> bool, seen: seq<int>, t: int)
    requires t !in seen
    ensures SumWhere(hs, x => sel(x) && (x in seen || x == t)) ==
      SumWhere(hs, x => sel(x) && x in seen) + if sel(t) then SumWhere(hs, Exactly(t)) else 0.0
  {
    if hs != [] {
      OneTimeMore(hs[..|hs| - 1], sel, seen, t);
    }
  }

  lemma {:induction false} AlongSelected(times: seq<int>, hs: seq<Hit>, sel: int -> bool)
    requires NoDup(times)
    ensures AlongTimes(times, hs, sel) == SumWhere(hs, x => sel(x) && x in times)
  {
    if times == [] {
      SumNothing(hs, x => sel(x) && x in times);
    } else {
      var n := |times| - 1;
      var seen, t := times[..n], times[n];
      AlongSelected(seen, hs, sel);
      assert times == seen + [t];
      OneTimeMore(hs, sel, seen, t);
      SameSelection(hs, x => sel(x) && (x in seen || x == t), x => sel(x) && x in times);
    }
  }

  lemma {:induction false} SumNothing(hs: seq<Hit>, sel: int -> bool)
    requires forall t :: !sel(t)
    ensures SumWhere(hs, sel) == 0.0
  {
    if hs != [] {
      SumNothing(hs[..|hs| - 1], sel);
    }
  }

  lemma {:induction false} SameAlong(times: seq<int>, p: seq<Hit>, q: seq<Hit>, sel: int -> bool)
    requires forall t :: SumWhere(p, Exactly(t)) == SumWhere(q, Exactly(t))
    ensures AlongTimes(times, p, sel) == AlongTimes(times, q, sel)
  {
    if times != [] {
      SameAlong(times[..|times| - 1], p, q, sel);
    }
  }

  /** Lists of hits that agree at every single timestamp agree on every selection. */
  lemma TimesDetermine(p: seq<Hit>, q: seq<Hit>, sel: int -> bool)
    requires forall t :: SumWhere(p, Exactly(t)) == SumWhere(q, Exactly(t))
    ensures SumWhere(p, sel) == SumWhere(q, sel)
  {
    var times := AscInts(Times(p) + Times(q));
    AscIntsNoDup(Times(p) + Times(q));
    assert forall t :: t in times <==> t in Elems(times);
    AlongSelected(times, p, sel);
    AlongSelected(times, q, sel);
    SameSelection(p, sel, x => sel(x) && x in times);
    SameSelection(q, sel, x => sel(x) && x in times);
    SameAlong(times, p, q, sel);
  }

  /** A reply that counts every bucket counts every selection of buckets. */
  lemma BucketsDetermine(xs: Payload, events: seq<LogEvent>, s: int, e: int, step: int, k: string, sel: int -> bool)
    requires step > 0 && CountsBuckets(xs, events, s, e, step)
    ensures Shown(xs, k, sel) == KeyCount(events, k, s, e, Bucketed(sel, step)) as real
  {
    var hits := EventHits(events, k, s, e, step);
    forall b ensures SumWhere(Group(xs, k), Exactly(b)) == SumWhere(hits, Exactly(b)) {
      assert Shown(xs, k, Exactly(b)) == KeyCount(events, k, s, e, Bucketed(Exactly(b), step)) as real;
      EventHitsCount(events, k, s, e, step, Exactly(b));
    }
    TimesDetermine(Group(xs, k), hits, sel);
    EventHitsCount(events, k, s, e, step, sel);
  }

  lemma {:induction false} SameCount(events: seq<LogEvent>, k: string, lo: int, hi: int, sel: int -> bool,
                                     alt: int -> bool)
    requires forall t :: sel(t) == alt(t)
    ensures KeyCount(events, k, lo, hi, sel) == KeyCount(events, k, lo, hi, alt)
  {
    if events != [] {
      SameCount(events[..|events| - 1], k, lo, hi, sel, alt);
    }
  }

  // ---- merging and downsampling ------------------------------------------------------------

  lemma ShownOfLast(sets: seq<Payload>, k: string, sel: int -> bool)
    requires sets != []
    ensures var n := |sets| - 1;
      Shown(Series.Flat(sets), k, sel) == Shown(Series.Flat(sets[..n]), k, sel) + Shown(sets[n], k, sel)
  {
    var n := |sets| - 1;
    Series.FlatStep(sets, n);
    assert sets[..n + 1] == sets;
    ShownAppend(Series.Flat(sets[..n]), sets[n], k, sel);
  }

  lemma {:induction false} KeyCountSplits(events: seq<LogEvent>, k: string, lo: int, mid: int, hi: int,
                                          sel: int -> bool)
    requires lo <= mid <= hi
    ensures KeyCount(events, k, lo, hi, sel) == KeyCount(events, k, lo, mid, sel) + KeyCount(events, k, mid, hi, sel)
  {
    if events != [] {
      KeyCountSplits(events[..|events| - 1], k, lo, mid, hi, sel);
    }
  }

  lemma {:induction false} KeyCountNone(events: seq<LogEvent>, k: string, lo: int, sel: int -> bool)
    ensures KeyCount(events, k, lo, lo, sel) == 0
  {
    if events != [] {
      KeyCountNone(events[..|events| - 1], k, lo, sel);
    }
  }

  /** Replies that count their own chunk together count the window the chunks tile. */
  lemma {:induction false} ChunksAddUp(sets: seq<Payload>, cs: seq<Chunk>, lo: int, hi: int, size: int,
                                       events: seq<LogEvent>, step: int, k: string, sel: int -> bool)
    requires step > 0 && |sets| == |cs| && size > 0 && TilesExactly(cs, lo, hi, size)
    requires forall i :: 0 <= i < |cs| ==> CountsBuckets(sets[i], events, cs[i].start, cs[i].end, step)
    ensures lo <= hi &&
      Shown(Series.Flat(sets), k, sel) == KeyCount(events, k, lo, hi, Bucketed(sel, step)) as real
  {
    var bucketed := Bucketed(sel, step);
    if cs == [] {
      KeyCountNone(events, k, lo, bucketed);
    } else {
      var n := |cs| - 1;
      AllButLast(cs, lo, hi, size);
      ChunksAddUp(sets[..n], cs[..n], lo, cs[n].start, size, events, step, k, sel);
      ShownOfLast(sets, k, sel);
      BucketsDetermine(sets[n], events, cs[n].start, cs[n].end, step, k, sel);
      KeyCountSplits(events, k, lo, cs[n].start, hi, bucketed);
    }
  }

  /** Rows with different keys: a key shows what its one row holds. */
  lemma {:induction false} ListedShows(xs: Payload, ks: seq<string>, k: string, sel: int -> bool)
    requires NoDup(ks) && forall j :: j in ks ==> j in Keys(xs)
    ensures Shown(Listed(xs, ks), k, sel) == if k in ks then Shown(xs, k, sel) else 0.0
  {
    if ks != [] {
      var n := |ks| - 1;
      InitLast(ks);
      ListedShows(xs, ks[..n], k, sel);
      ListedLast(xs, ks);
      ShownSnoc(Listed(xs, ks[..n]), Written(RowFor(xs, ks[n])), k, sel);
      FirstFieldsKey(xs, ks[n]);
      RowIsGroup(RowFor(xs, ks[n]), Group(xs, ks[n]));
    }
  }

  lemma ListedLast(xs: Payload, ks: seq<string>)
    requires ks != []
    ensures var n := |ks| - 1; Listed(xs, ks) == Listed(xs, ks[..n]) + [Written(RowFor(xs, ks[n]))]
  {
  }

  /** Merging keeps what is shown under every key. */
  lemma MergedShows(sets: seq<Payload>, k: string, sel: int -> bool)
    ensures Shown(Merged(sets), k, sel) == Shown(Series.Flat(sets), k, sel)
  {
    var xs := Series.Flat(sets);
    var names := AscNames(Keys(xs));
    AscNamesNoDup(Keys(xs));
    assert forall j :: j in names <==> j in Elems(names);
    ListedShows(xs, names, k, sel);
    if k !in Keys(xs) {
      NoGroup(xs, k);
    }
  }

  /** Downsampling moves every hit to the start of its bucket. */
  lemma DownsampledShows(xs: Payload, step: int, k: string, sel: int -> bool)
    requires step > 0
    ensures Shown(Downsampled(xs, step), k, sel) == Shown(xs, k, Bucketed(sel, step))
  {
    GroupCoarse(xs, k, step);
    SumWhereRebucket(Group(xs, k), step, sel);
  }

  // ---- end to end ------------------------------------------------------------------------------

  /** The bucket of the answer an event at `t` is counted in: fetched first, then coarsened if need be. */
  function AnswerBucket(secs: StepParser, a: HitsAsk, t: int): int
    requires secs(FetchedStep(secs, a)) > 0
  {
    var fetched, asked := secs(FetchedStep(secs, a)), secs(Effective(secs, a));
    if asked > fetched then Floor(Floor(t, fetched), asked) else Floor(t, fetched)
  }

  /** The seconds whose events are counted in the selected buckets of the answer. */
  ghost function InAnswer(secs: StepParser, a: HitsAsk, sel: int -> bool): int -> bool
    requires secs(FetchedStep(secs, a)) > 0
  {
    t => sel(AnswerBucket(secs, a, t))
  }

  /** No key has two rows. */
  ghost predicate OneRowPerKey(out: Payload) {
    forall i, j :: 0 <= i < j < |out| ==> FieldsKey(out[i].fields) != FieldsKey(out[j].fields)
  }

  /**
   * After any run of harmless requests, with whatever mixture of cached and fetched chunks, an
   * answer shows per key and bucket exactly how many events of the key in the aligned window
   * fall in that bucket, and has one row per key.
   */
  lemma HitsCountBuckets(secs: StepParser, backend: Backend, start: int, run: seq<HitsEvent>, a: HitsAsk,
                         faults: Faults<HitsKey>, events: seq<LogEvent>)
    returns (out: Payload)
    requires ReadsCanonicalSteps(secs) && LegalRun(HitsSystem(secs, backend), run)
    requires Proper(a.start, a.end) && !faults.getFails && !faults.batchFails
    requires BucketsEvents(secs, backend, a.scope, events)
    ensures var sys := HitsSystem(secs, backend);
      var w := Run(sys, start, run);
      Serve(sys, w.store, w.now, faults, a).0 == Answer(Parsed(out))
    ensures secs(FetchedStep(secs, a)) > 0 && OneRowPerKey(out)
    ensures var (lo, hi) := Aligned(a.start, a.end);
      forall k, b :: Shown(out, k, Exactly(b)) ==
        KeyCount(events, k, lo, hi, InAnswer(secs, a, Exactly(b))) as real
  {
    FetchedStepIsPositive(secs, a);
    BucketsAreUsable(secs, backend, a.scope, events);
    var times, sets := AnswerOfReplies(secs, backend, HitsKind(secs), start, run, a, faults);
    out := Merge(secs, Effective(secs, a), FetchedStep(secs, a), sets);
    FetchedCountBuckets(secs, backend, a, events, times, sets);
    MergeHasOneRowPerKey(secs, Effective(secs, a), FetchedStep(secs, a), sets);
    var (lo, hi) := Aligned(a.start, a.end);
    forall k, b
      ensures Shown(out, k, Exactly(b)) == KeyCount(events, k, lo, hi, InAnswer(secs, a, Exactly(b))) as real
    {
      AnswerCounts(secs, a, events, sets, k, Exactly(b));
    }
  }

  lemma BucketsAreUsable(secs: StepParser, backend: Backend, scope: Scope, events: seq<LogEvent>)
    requires BucketsEvents(secs, backend, scope, events)
    ensures RepliesUsable(secs, backend, scope)
  {
    forall t, s, e, step | s < e && secs(step) > 0 ensures Usable(backend(scope, t, s, e, step)) {
      assert BucketReply(backend(scope, t, s, e, step), events, s, e, secs(step));
    }
  }

  /** Every chunk reply counts its own chunk. */
  ghost predicate ChunksCount(a: HitsAsk, sets: seq<Payload>, events: seq<LogEvent>, step: int)
    requires step > 0
  {
    var cs := ChunksOf(a.start, a.end);
    |sets| == |cs| && forall i :: 0 <= i < |cs| ==> CountsBuckets(sets[i], events, cs[i].start, cs[i].end, step)
  }

  lemma FetchedCountBuckets(secs: StepParser, backend: Backend, a: HitsAsk, events: seq<LogEvent>, times: seq<int>,
                            sets: seq<Payload>)
    requires secs(FetchedStep(secs, a)) > 0 && Proper(a.start, a.end) && BucketsEvents(secs, backend, a.scope, events)
    requires FetchedReplies(secs, backend, a, times, sets)
    ensures ChunksCount(a, sets, events, secs(FetchedStep(secs, a)))
  {
    var cs, f := ChunksOf(a.start, a.end), FetchedStep(secs, a);
    ChunksTileAlignedWindow(a.start, a.end);
    forall i | 0 <= i < |cs| ensures CountsBuckets(sets[i], events, cs[i].start, cs[i].end, secs(f)) {
      assert ReplyIs(secs, backend, a, cs[i], times[i], sets[i]);
      assert BucketReply(backend(a.scope, times[i], cs[i].start, cs[i].end, f), events, cs[i].start, cs[i].end,
        secs(f));
    }
  }

  /** The selection an answer's buckets make of the buckets fetched. */
  ghost function OfFetched(fetched: int, asked: int, sel: int -> bool): int -> bool
    requires fetched > 0
  {
    if asked > fetched then Bucketed(sel, asked) else sel
  }

  lemma OfFetchedIs(secs: StepParser, a: HitsAsk, sel: int -> bool, t: int)
    requires secs(FetchedStep(secs, a)) > 0
    ensures var fetched, asked := secs(FetchedStep(secs, a)), secs(Effective(secs, a));
      Bucketed(OfFetched(fetched, asked, sel), fetched)(t) == InAnswer(secs, a, sel)(t)
  {
    var fetched, asked := secs(FetchedStep(secs, a)), secs(Effective(secs, a));
    if asked > fetched {
      assert AnswerBucket(secs, a, t) == Floor(Floor(t, fetched), asked);
    } else {
      assert AnswerBucket(secs, a, t) == Floor(t, fetched);
      assert Bucketed(sel, fetched)(t) == sel(Floor(t, fetched));
    }
  }

  lemma MergeShows(secs: StepParser, effective: string, fetched: string, sets: seq<Payload>, k: string,
                   sel: int -> bool)
    requires secs(fetched) > 0
    ensures Shown(Merge(secs, effective, fetched, sets), k, sel) ==
      Shown(Merged(sets), k, OfFetched(secs(fetched), secs(effective), sel))
  {
    if secs(effective) > secs(fetched) {
      DownsampledShows(Merged(sets), secs(effective), k, sel);
    }
  }

  lemma AnswerCounts(secs: StepParser, a: HitsAsk, events: seq<LogEvent>, sets: seq<Payload>, k: string,
                     sel: int -> bool)
    requires secs(FetchedStep(secs, a)) > 0 && Proper(a.start, a.end)
    requires ChunksCount(a, sets, events, secs(FetchedStep(secs, a)))
    ensures var (lo, hi) := Aligned(a.start, a.end);
      Shown(Merge(secs, Effective(secs, a), FetchedStep(secs, a), sets), k, sel) ==
        KeyCount(events, k, lo, hi, InAnswer(secs, a, sel)) as real
  {
    var fetched, asked := secs(FetchedStep(secs, a)), secs(Effective(secs, a));
    var (lo, hi) := Aligned(a.start, a.end);
    var fine := OfFetched(fetched, asked, sel);
    MergeShows(secs, Effective(secs, a), FetchedStep(secs, a), sets, k, sel);
    MergedCounts(a, events, sets, fetched, k, fine);
    forall t ensures Bucketed(fine, fetched)(t) == InAnswer(secs, a, sel)(t) {
      OfFetchedIs(secs, a, sel, t);
    }
    SameCount(events, k, lo, hi, Bucketed(fine, fetched), InAnswer(secs, a, sel));
  }

  lemma MergedCounts(a: HitsAsk, events: seq<LogEvent>, sets: seq<Payload>, step: int, k: string, sel: int -> bool)
    requires step > 0 && Proper(a.start, a.end) && ChunksCount(a, sets, events, step)
    ensures var (lo, hi) := Aligned(a.start, a.end);
      Shown(Merged(sets), k, sel) == KeyCount(events, k, lo, hi, Bucketed(sel, step)) as real
  {
    var (lo, hi) := Aligned(a.start, a.end);
    ChunksTileAlignedWindow(a.start, a.end);
    MergedShows(sets, k, sel);
    ChunksAddUp(sets, ChunksOf(a.start, a.end), lo, hi, TierOf(a.start, a.end), events, step, k, sel);
  }

  lemma MergeHasOneRowPerKey(secs: StepParser, effective: string, fetched: string, sets: seq<Payload>)
    requires secs(fetched) > 0
    ensures OneRowPerKey(Merge(secs, effective, fetched, sets))
  {
    var merged := Merged(sets);
    forall i, j | 0 <= i < j < |merged| ensures FieldsKey(merged[i].fields) != FieldsKey(merged[j].fields) {
      MergedRow(sets, i);
      BeforeIrreflexive(FieldsKey(merged[i].fields));
    }
  }

  /**
   * The buckets of the answer are those of the step asked for, at every second, if and only if
   * that step is not above the usual one for the range, or a multiple of it.
   */
  lemma BucketsAreAsAskedIff(secs: StepParser, a: HitsAsk, step: int)
    requires ReadsCanonicalSteps(secs) && AsksFor(secs, a, step)
    ensures 0 < secs(FetchedStep(secs, a)) && step > 0
    ensures (forall t: int :: AnswerBucket(secs, a, t) == Floor(t, step))
        <==> step <= UsualStep(a.end - a.start) || step % UsualStep(a.end - a.start) == 0
  {
    FetchedStepIsPositive(secs, a);
    StepInUse(secs, a, step);
    var fetched, asked := secs(FetchedStep(secs, a)), secs(Effective(secs, a));
    if asked % fetched == 0 {
      forall t: int ensures AnswerBucket(secs, a, t) == Floor(t, asked) {
        FloorFloor(t, fetched, asked);
      }
    } else {
      TwiceIsEarlier(fetched, asked);
      assert AnswerBucket(secs, a, asked) != Floor(asked, asked);
    }
  }
}
