/**
 * What the chunked path means: a backend that samples functions of time on a grid,
 * asked chunk by chunk, merged and thinned, against one direct request.
 */
module Sampling {
  import opened Base
  import opened Sorting
  import opened Labels
  import opened Series
  import opened Thinning
  import opened Tiers

  /** A series as the backend knows it: a label map and a partial function of time. */
  datatype Signal = Signal(metric: LabelMap, at: int -> Option<string>)
  type Signals = map<string, Signal>

  /** Some range interfaces sample their end, some stop short of it; both are covered. */
  predicate InWindow(t: int, end: int, inclusive: bool) {
    t < end || (inclusive && t == end)
  }

  /** `t` is one of `start`, `start + step`, ... within the window. */
  predicate OnGrid(t: int, start: int, end: int, step: int, inclusive: bool)
    requires step > 0
  {
    start <= t && InWindow(t, end, inclusive) && (t - start) % step == 0
  }

  function Samples(at: int -> Option<string>, start: int, end: int, step: int, inclusive: bool): map<int, string>
    requires step > 0
  {
    map t | start <= t <= end && OnGrid(t, start, end, step, inclusive) && at(t).Some? :: at(t).value
  }

  /** What a range request should hold: every signal with a sample, with all its samples. */
  function Sampled(src: Signals, start: int, end: int, step: int, inclusive: bool): Table
    requires step > 0
  {
    map k | k in src && Samples(src[k].at, start, end, step, inclusive) != map[] ::
      Acc(src[k].metric, Samples(src[k].at, start, end, step, inclusive))
  }

  /** A signal without samples is left out of the reply. */
  function Entry(metric: LabelMap, points: map<int, string>): Option<Acc> {
    if points == map[] then None else Some(Acc(metric, points))
  }

  /** A reply lists, in any order and any split into rows, exactly what it should. */
  ghost predicate Faithful(reply: seq<MatrixSeries>, src: Signals, start: int, end: int, step: int, inclusive: bool)
    requires step > 0
  {
    TableOf(reply) == Sampled(src, start, end, step, inclusive)
  }

  /** Signals with a value at every second. */
  ghost predicate Everywhere(src: Signals) {
    forall k, t: int :: k in src ==> src[k].at(t).Some?
  }

  // ---- chunks of one grid ------------------------------------------------------

  lemma SamplesAt(at: int -> Option<string>, start: int, end: int, step: int, inclusive: bool, t: int)
    requires step > 0
    ensures t in Samples(at, start, end, step, inclusive)
        <==> OnGrid(t, start, end, step, inclusive) && at(t).Some?
    ensures t in Samples(at, start, end, step, inclusive) ==> Samples(at, start, end, step, inclusive)[t] == at(t).value
  {
  }

  lemma GridSplits(t: int, a: int, m: int, e: int, step: int, inclusive: bool)
    requires step > 0 && a <= m < e && (m - a) % step == 0
    ensures OnGrid(t, a, e, step, inclusive)
        <==> (OnGrid(t, a, m, step, inclusive) || OnGrid(t, m, e, step, inclusive))
  {
    ModAdd(t - m, m - a, step);
    assert t - m + (m - a) == t - a;
  }

  lemma OverEntries(metric: LabelMap, p: map<int, string>, q: map<int, string>)
    ensures Over(Entry(metric, p), Entry(metric, q)) == Entry(metric, p + q)
  {
    PlusEmpty(p, q);
    PlusEmpty(q, p);
  }

  lemma PlusEmpty(p: map<int, string>, q: map<int, string>)
    ensures p + q == map[] <==> p == map[] && q == map[]
    ensures p + map[] == p && map[] + p == p
  {
    if p + q == map[] {
      forall t ensures t !in p && t !in q {
        assert t !in p + q;
      }
      assert p.Keys == {} && q.Keys == {};
    }
    assert (p + map[]).Keys == p.Keys == (map[] + p).Keys;
  }

  /** One faithful reply per chunk. */
  ghost predicate RepliesFaithful(replies: seq<seq<MatrixSeries>>, cs: seq<Chunk>, src: Signals, step: int,
                                  inclusive: bool)
    requires step > 0
  {
    |replies| == |cs| && forall i :: 0 <= i < |cs| ==>
      Faithful(replies[i], src, cs[i].start, cs[i].end, step, inclusive)
  }

  lemma LastReply(replies: seq<seq<MatrixSeries>>)
    requires replies != []
    ensures var n := |replies| - 1;
      TableOf(Flat(replies)) == Overlay(TableOf(Flat(replies[..n])), TableOf(replies[n]))
    ensures |replies| == 1 ==> Flat(replies[..0]) == []
  {
    var n := |replies| - 1;
    TableOfAppend(Flat(replies[..n]), replies[n]);
  }

  /** What the chunks sample of a signal, taken together. */
  function ChunkSamples(at: int -> Option<string>, cs: seq<Chunk>, step: int, inclusive: bool): map<int, string>
    requires step > 0
  {
    if cs == [] then map[]
    else
      var n := |cs| - 1;
      ChunkSamples(at, cs[..n], step, inclusive) + Samples(at, cs[n].start, cs[n].end, step, inclusive)
  }

  /** `t` is on the grid of some chunk. */
  ghost predicate OnChunkGrid(t: int, cs: seq<Chunk>, step: int, inclusive: bool)
    requires step > 0
  {
    exists i :: 0 <= i < |cs| && OnGrid(t, cs[i].start, cs[i].end, step, inclusive)
  }

  lemma LastGrid(t: int, cs: seq<Chunk>, step: int, inclusive: bool)
    requires step > 0 && cs != []
    ensures var n := |cs| - 1;
      OnChunkGrid(t, cs, step, inclusive) <==>
        OnChunkGrid(t, cs[..n], step, inclusive) || OnGrid(t, cs[n].start, cs[n].end, step, inclusive)
  {
    var n := |cs| - 1;
    if OnChunkGrid(t, cs[..n], step, inclusive) {
      var i :| 0 <= i < n && OnGrid(t, cs[..n][i].start, cs[..n][i].end, step, inclusive);
      assert cs[..n][i] == cs[i];
    }
    if OnChunkGrid(t, cs, step, inclusive) {
      var i :| 0 <= i < |cs| && OnGrid(t, cs[i].start, cs[i].end, step, inclusive);
      if i < n {
        assert cs[..n][i] == cs[i];
      }
    }
  }

  lemma {:induction false} ChunkSamplesAt(at: int -> Option<string>, cs: seq<Chunk>, step: int, inclusive: bool, t: int)
    requires step > 0
    ensures var all := ChunkSamples(at, cs, step, inclusive);
      (t in all <==> OnChunkGrid(t, cs, step, inclusive) && at(t).Some?) && (t in all ==> all[t] == at(t).value)
  {
    if cs != [] {
      var n := |cs| - 1;
      ChunkSamplesAt(at, cs[..n], step, inclusive, t);
      SamplesAt(at, cs[n].start, cs[n].end, step, inclusive, t);
      LastGrid(t, cs, step, inclusive);
    }
  }

  /** The merge of faithful chunk replies shows of a signal what the chunks sample of it. */
  lemma {:induction false} MergedSignal(replies: seq<seq<MatrixSeries>>, cs: seq<Chunk>, src: Signals, step: int,
                                        inclusive: bool, k: string)
    requires step > 0 && RepliesFaithful(replies, cs, src, step, inclusive)
    ensures At(TableOf(Flat(replies)), k) ==
      if k in src then Entry(src[k].metric, ChunkSamples(src[k].at, cs, step, inclusive)) else None
    decreases |cs|
  {
    if cs != [] {
      var n := |cs| - 1;
      EarlierFaithful(replies, cs, src, step, inclusive);
      MergedSignal(replies[..n], cs[..n], src, step, inclusive, k);
      LastReply(replies);
      OverlayAt(TableOf(Flat(replies[..n])), TableOf(replies[n]), k);
      assert Faithful(replies[n], src, cs[n].start, cs[n].end, step, inclusive);
      if k in src {
        OverEntries(src[k].metric, ChunkSamples(src[k].at, cs[..n], step, inclusive),
                    Samples(src[k].at, cs[n].start, cs[n].end, step, inclusive));
      }
    }
  }

  /** Wherever the signal has a value, the chunks have a grid point exactly if the window has one. */
  ghost predicate KeepsGrid(at: int -> Option<string>, cs: seq<Chunk>, lo: int, hi: int, step: int, inclusive: bool)
    requires step > 0
  {
    forall t :: at(t).Some? ==> (OnChunkGrid(t, cs, step, inclusive) <==> OnGrid(t, lo, hi, step, inclusive))
  }

  ghost predicate AllKeepGrid(src: Signals, cs: seq<Chunk>, lo: int, hi: int, step: int, inclusive: bool)
    requires step > 0
  {
    forall k :: k in src ==> KeepsGrid(src[k].at, cs, lo, hi, step, inclusive)
  }

  lemma SameSamplesIff(at: int -> Option<string>, cs: seq<Chunk>, lo: int, hi: int, step: int, inclusive: bool)
    requires step > 0
    ensures ChunkSamples(at, cs, step, inclusive) == Samples(at, lo, hi, step, inclusive)
        <==> KeepsGrid(at, cs, lo, hi, step, inclusive)
  {
    var p, q := ChunkSamples(at, cs, step, inclusive), Samples(at, lo, hi, step, inclusive);
    forall t
      ensures (t in p <==> OnChunkGrid(t, cs, step, inclusive) && at(t).Some?) && (t in p ==> p[t] == at(t).value)
      ensures (t in q <==> OnGrid(t, lo, hi, step, inclusive) && at(t).Some?) && (t in q ==> q[t] == at(t).value)
    {
      ChunkSamplesAt(at, cs, step, inclusive, t);
      SamplesAt(at, lo, hi, step, inclusive, t);
    }
    if KeepsGrid(at, cs, lo, hi, step, inclusive) {
      forall t ensures SameAt(p, q, t) {
      }
      MapsEqual(p, q);
    }
  }

  lemma EntriesDiffer(metric: LabelMap, p: map<int, string>, q: map<int, string>)
    ensures Entry(metric, p) == Entry(metric, q) <==> p == q
  {
  }

  ghost predicate SignalAgrees(a: Table, b: Table, k: string) {
    At(a, k) == At(b, k)
  }

  lemma TablesAgreeIff(a: Table, b: Table)
    ensures a == b <==> forall k :: SignalAgrees(a, b, k)
  {
    if forall k :: SignalAgrees(a, b, k) {
      forall k ensures At(a, k) == At(b, k) {
        assert SignalAgrees(a, b, k);
      }
      SameTable(a, b);
    }
  }

  lemma SampledAt(src: Signals, start: int, end: int, step: int, inclusive: bool, k: string)
    requires step > 0
    ensures At(Sampled(src, start, end, step, inclusive), k) ==
      if k in src then Entry(src[k].metric, Samples(src[k].at, start, end, step, inclusive)) else None
  {
  }

  lemma SignalIff(replies: seq<seq<MatrixSeries>>, cs: seq<Chunk>, lo: int, hi: int, src: Signals, step: int,
                  inclusive: bool, k: string)
    requires step > 0 && RepliesFaithful(replies, cs, src, step, inclusive)
    ensures SignalAgrees(TableOf(Flat(replies)), Sampled(src, lo, hi, step, inclusive), k) <==>
      (k in src ==> KeepsGrid(src[k].at, cs, lo, hi, step, inclusive))
  {
    MergedSignal(replies, cs, src, step, inclusive, k);
    SampledAt(src, lo, hi, step, inclusive, k);
    if k in src {
      SameSamplesIff(src[k].at, cs, lo, hi, step, inclusive);
      EntriesDiffer(src[k].metric, ChunkSamples(src[k].at, cs, step, inclusive),
        Samples(src[k].at, lo, hi, step, inclusive));
    }
  }

  /**
   * Exactly when: for signals with or without gaps, chunks of any shape and any step, the merge of
   * faithful chunk replies holds what one faithful reply for the window would, if and only if every
   * signal keeps its grid.
   */
  lemma ChunkedIsDirectIff(replies: seq<seq<MatrixSeries>>, cs: seq<Chunk>, lo: int, hi: int, src: Signals, step: int,
                           inclusive: bool)
    requires step > 0 && RepliesFaithful(replies, cs, src, step, inclusive)
    ensures TableOf(Flat(replies)) == Sampled(src, lo, hi, step, inclusive) <==>
      AllKeepGrid(src, cs, lo, hi, step, inclusive)
  {
    var merged, direct := TableOf(Flat(replies)), Sampled(src, lo, hi, step, inclusive);
    forall k ensures SignalAgrees(merged, direct, k) <==>
      (k in src ==> KeepsGrid(src[k].at, cs, lo, hi, step, inclusive))
    {
      SignalIff(replies, cs, lo, hi, src, step, inclusive, k);
    }
    TablesAgreeIff(merged, direct);
  }

  /** If the step divides the chunk size, the chunks have the grid of the window. */
  lemma {:induction false} GridOfTiles(t: int, cs: seq<Chunk>, lo: int, hi: int, size: int, step: int, inclusive: bool)
    requires step > 0 && size > 0 && size % step == 0
    requires TilesExactly(cs, lo, hi, size) && cs != []
    ensures OnChunkGrid(t, cs, step, inclusive) <==> OnGrid(t, lo, hi, step, inclusive)
    decreases |cs|
  {
    var n := |cs| - 1;
    AllButLast(cs, lo, hi, size);
    LastGrid(t, cs, step, inclusive);
    if n > 0 {
      GridOfTiles(t, cs[..n], lo, cs[n].start, size, step, inclusive);
      LastStart(cs, lo, hi, size, step);
      GridSplits(t, lo, cs[n].start, hi, step, inclusive);
    }
  }

  lemma DividingKeepsGrid(src: Signals, cs: seq<Chunk>, lo: int, hi: int, size: int, step: int, inclusive: bool)
    requires step > 0 && size > 0 && size % step == 0
    requires TilesExactly(cs, lo, hi, size) && cs != []
    ensures AllKeepGrid(src, cs, lo, hi, step, inclusive)
  {
    forall t ensures OnChunkGrid(t, cs, step, inclusive) <==> OnGrid(t, lo, hi, step, inclusive) {
      GridOfTiles(t, cs, lo, hi, size, step, inclusive);
    }
  }

  lemma ChunksOverlay(replies: seq<seq<MatrixSeries>>, cs: seq<Chunk>, lo: int, hi: int, size: int, src: Signals,
                      step: int, inclusive: bool)
    requires step > 0 && size > 0 && size % step == 0
    requires TilesExactly(cs, lo, hi, size) && cs != []
    requires RepliesFaithful(replies, cs, src, step, inclusive)
    ensures TableOf(Flat(replies)) == Sampled(src, lo, hi, step, inclusive)
  {
    DividingKeepsGrid(src, cs, lo, hi, size, step, inclusive);
    ChunkedIsDirectIff(replies, cs, lo, hi, src, step, inclusive);
  }

  lemma EarlierFaithful(replies: seq<seq<MatrixSeries>>, cs: seq<Chunk>, src: Signals, step: int, inclusive: bool)
    requires step > 0 && cs != [] && RepliesFaithful(replies, cs, src, step, inclusive)
    ensures RepliesFaithful(replies[..|cs| - 1], cs[..|cs| - 1], src, step, inclusive)
  {
    forall i | 0 <= i < |cs| - 1
      ensures Faithful(replies[..|cs| - 1][i], src, cs[i].start, cs[i].end, step, inclusive)
    {
      assert Faithful(replies[i], src, cs[i].start, cs[i].end, step, inclusive);
    }
  }

  lemma LastStart(cs: seq<Chunk>, lo: int, hi: int, size: int, step: int)
    requires step > 0 && size > 0 && size % step == 0
    requires TilesExactly(cs, lo, hi, size) && cs != []
    ensures var mid := cs[|cs| - 1].start; lo <= mid < hi && (mid - lo) % step == 0
  {
    var n := |cs| - 1;
    ChunkStarts(cs, lo, hi, size);
    MultipleOfDivisor(n, size, step);
  }

  /**
   * The chunked path preserves meaning: if the step divides the chunk size, merging
   * faithful replies for all chunks gives what merging one faithful direct reply over
   * the aligned window gives.
   */
  lemma ChunkedEqualsDirect(replies: seq<seq<MatrixSeries>>, direct: seq<MatrixSeries>, startSec: int, endSec: int,
                            src: Signals, step: int, inclusive: bool)
    requires Proper(startSec, endSec) && step > 0 && TierOf(startSec, endSec) % step == 0
    requires RepliesFaithful(replies, ChunksOf(startSec, endSec), src, step, inclusive)
    requires var (lo, hi) := Aligned(startSec, endSec); Faithful(direct, src, lo, hi, step, inclusive)
    ensures Merged(replies) == Merged([direct])
    ensures var (lo, hi) := Aligned(startSec, endSec); Merged(replies) == Render(Sampled(src, lo, hi, step, inclusive))
  {
    var (lo, hi) := Aligned(startSec, endSec);
    ChunksTileAlignedWindow(startSec, endSec);
    ChunksOverlay(replies, ChunksOf(startSec, endSec), lo, hi, TierOf(startSec, endSec), src, step, inclusive);
    FlatOne(direct);
  }

  lemma FlatOne<T>(xs: seq<T>)
    ensures Flat([xs]) == xs
  {
    assert [xs][..0] == [];
    assert Flat([xs]) == Flat([xs][..0]) + xs;
  }

  /** For signals that have a value at every second: a single chunk, or a step that divides the chunk size. */
  lemma EverywhereKeepsGrid(src: Signals, cs: seq<Chunk>, lo: int, hi: int, size: int, step: int, inclusive: bool)
    requires step > 0 && size > 0 && TilesExactly(cs, lo, hi, size) && cs != []
    requires Everywhere(src) && src != map[]
    ensures AllKeepGrid(src, cs, lo, hi, step, inclusive) <==> |cs| == 1 || size % step == 0
  {
    if |cs| == 1 {
      forall t ensures OnChunkGrid(t, cs, step, inclusive) <==> OnGrid(t, lo, hi, step, inclusive) {
        assert cs[0] == Chunk(lo, hi);
      }
    } else if size % step == 0 {
      DividingKeepsGrid(src, cs, lo, hi, size, step, inclusive);
    } else {
      var k :| k in src;
      assert cs[0].end == cs[1].start;
      BoundaryPoint(lo, size, cs[1].end, hi, step, inclusive);
      assert OnGrid(lo + size, cs[1].start, cs[1].end, step, inclusive);
      assert src[k].at(lo + size).Some?;
    }
  }

  /** So for such signals the chunked answer holds the direct one exactly in these two cases. */
  lemma ChunkedEqualsDirectIff(replies: seq<seq<MatrixSeries>>, cs: seq<Chunk>, lo: int, hi: int, size: int,
                               src: Signals, step: int, inclusive: bool)
    requires step > 0 && size > 0 && TilesExactly(cs, lo, hi, size) && cs != []
    requires RepliesFaithful(replies, cs, src, step, inclusive)
    requires Everywhere(src) && src != map[]
    ensures TableOf(Flat(replies)) == Sampled(src, lo, hi, step, inclusive) <==> |cs| == 1 || size % step == 0
  {
    ChunkedIsDirectIff(replies, cs, lo, hi, src, step, inclusive);
    EverywhereKeepsGrid(src, cs, lo, hi, size, step, inclusive);
  }

  lemma BoundaryPoint(lo: int, size: int, next: int, hi: int, step: int, inclusive: bool)
    requires step > 0 && size > 0 && size % step != 0 && lo + size < next
    ensures OnGrid(lo + size, lo + size, next, step, inclusive)
    ensures !OnGrid(lo + size, lo, hi, step, inclusive)
  {
    ModIs(0, 0, 0, step);
    assert lo + size - lo == size;
  }

  // ---- thinning fine samples to coarse ones ---------------------------------------------

  ghost predicate Total(at: int -> Option<string>) {
    forall t: int :: at(t).Some?
  }

  /** The point of the coarse grid from `lo` on that `t` falls to. */
  function CoarsePoint(t: int, lo: int, coarse: int): int
    requires coarse > 0
  {
    lo + (t - lo) / coarse * coarse
  }

  lemma CoarseBounds(t: int, lo: int, coarse: int)
    requires coarse > 0
    ensures CoarsePoint(t, lo, coarse) <= t < CoarsePoint(t, lo, coarse) + coarse
    ensures (CoarsePoint(t, lo, coarse) - lo) % coarse == 0
    ensures t >= lo ==> CoarsePoint(t, lo, coarse) >= lo
  {
    MultipleMod((t - lo) / coarse, coarse);
    if t >= lo {
      assert (t - lo) / coarse >= 0;
      assert (t - lo) / coarse * coarse >= 0;
    }
  }

  lemma CoarseIs(x: int, t: int, lo: int, coarse: int)
    requires coarse > 0 && (x - lo) % coarse == 0 && x <= t < x + coarse
    ensures CoarsePoint(t, lo, coarse) == x
  {
    var q := (x - lo) / coarse;
    assert x - lo == q * coarse;
    ModIs(t - lo, q, t - x, coarse);
  }

  /**
   * Every coarse sample is a fine one, and whenever there is a fine sample there is also one at
   * the point of the coarse grid it falls to.
   */
  ghost predicate Settles(at: int -> Option<string>, lo: int, hi: int, fine: int, coarse: int, inclusive: bool)
    requires fine > 0 && coarse > 0
  {
    var f, c := Samples(at, lo, hi, fine, inclusive), Samples(at, lo, hi, coarse, inclusive);
    && (forall t :: t in c ==> t in f)
    && (forall t :: t in f ==> CoarsePoint(t, lo, coarse) in f)
  }

  function TimesOf(vs: seq<Point>): (r: seq<int>)
    ensures |r| == |vs| && forall i :: 0 <= i < |r| ==> r[i] == vs[i].ts
  {
    seq(|vs|, i requires 0 <= i < |vs| => vs[i].ts)
  }

  /** An increasing list of exactly the points of a map is its listing. */
  lemma ListingIs(vs: seq<Point>, m: map<int, string>)
    requires Increasing(vs) && forall p :: p in vs <==> p.ts in m && m[p.ts] == p.value
    ensures vs == PointList(m)
  {
    var times := TimesOf(vs);
    forall t ensures t in Elems(times) <==> t in m {
      if t in times {
        var i :| 0 <= i < |times| && times[i] == t;
        assert vs[i] in vs;
      }
      if t in m {
        var p := Point(t, m[t]);
        assert p in vs;
        var i :| 0 <= i < |vs| && vs[i] == p;
        assert times[i] == t;
      }
    }
    assert Elems(times) == m.Keys;
    AscIntsIs(times);
    forall i | 0 <= i < |vs| ensures vs[i] == PointList(m)[i] {
      assert vs[i] in vs && AscInts(m.Keys)[i] == times[i];
    }
  }

  lemma {:induction false} GapBetween(vs: seq<Point>, step: int, i: nat, j: nat)
    requires step > 0 && Gapped(vs, step) && i < j < |vs|
    ensures vs[i].ts + step <= vs[j].ts
  {
    if i < j - 1 {
      GapBetween(vs, step, i, j - 1);
    }
    assert vs[j - 1].ts + step <= vs[j - 1 + 1].ts;
  }

  /** What is kept is from the list, with gaps. */
  lemma KeptShape(vs: seq<Point>, step: int)
    requires step > 0
    ensures Gapped(Kept(vs, step), step) && forall p :: p in Kept(vs, step) ==> p in vs
  {
    if vs != [] {
      ThinShape(vs, vs[0].ts, step);
    }
  }

  lemma GappedIncreases(vs: seq<Point>, step: int)
    requires step > 0 && Gapped(vs, step)
    ensures Increasing(vs)
  {
    forall i, j | 0 <= i < j < |vs| ensures vs[i].ts < vs[j].ts {
      GapBetween(vs, step, i, j);
    }
  }

  /** The kept point that covers a point of the map. */
  lemma Cover(f: map<int, string>, coarse: int, t: int) returns (j: nat)
    requires coarse > 0 && t in f
    ensures var kept := Kept(PointList(f), coarse);
      j < |kept| && kept[j].ts <= t < kept[j].ts + coarse
  {
    var list, p := PointList(f), Point(t, f[t]);
    ListedPoint(f, p);
    var q := CoveredBy(list, coarse, p);
    j :| 0 <= j < |Kept(list, coarse)| && Kept(list, coarse)[j] == q;
  }

  lemma CoveredBy(vs: seq<Point>, step: int, p: Point) returns (q: Point)
    requires step > 0 && Increasing(vs) && p in vs
    ensures q in Kept(vs, step) && q.ts <= p.ts < q.ts + step
  {
    Covered(vs, step, p);
    q :| q in Kept(vs, step) && q.ts <= p.ts < q.ts + step;
  }

  /** If every sample has one at its coarse point, only coarse points are kept. */
  lemma {:induction false} KeptAreCoarse(f: map<int, string>, lo: int, coarse: int, i: nat)
    requires coarse > 0 && i < |Kept(PointList(f), coarse)|
    requires forall t :: t in f ==> CoarsePoint(t, lo, coarse) in f
    ensures var p := Kept(PointList(f), coarse)[i]; p in PointList(f) && p.ts == CoarsePoint(p.ts, lo, coarse)
    decreases i
  {
    var list := PointList(f);
    var kept := Kept(list, coarse);
    var p := kept[i];
    KeptShape(list, coarse);
    ListedPoint(f, p);
    var c := CoarsePoint(p.ts, lo, coarse);
    CoarseBounds(p.ts, lo, coarse);
    var j := Cover(f, coarse, c);
    if c < p.ts {
      if j < i {
        KeptAreCoarse(f, lo, coarse, j);
        CoarseBounds(kept[j].ts, lo, coarse);
        CoarseIs(kept[j].ts, c, lo, coarse);
        CoarseIs(c, c, lo, coarse);
        GapBetween(kept, coarse, j, i);
      } else if i < j {
        GapBetween(kept, coarse, i, j);
      }
    }
  }

  /** If the signal settles, thinning keeps exactly the coarse samples. */
  lemma SettledIsCoarse(at: int -> Option<string>, lo: int, hi: int, fine: int, coarse: int, inclusive: bool)
    requires fine > 0 && coarse > 0 && Settles(at, lo, hi, fine, coarse, inclusive)
    ensures Kept(PointList(Samples(at, lo, hi, fine, inclusive)), coarse) ==
      PointList(Samples(at, lo, hi, coarse, inclusive))
  {
    var f, c := Samples(at, lo, hi, fine, inclusive), Samples(at, lo, hi, coarse, inclusive);
    var kept := Kept(PointList(f), coarse);
    KeptShape(PointList(f), coarse);
    GappedIncreases(kept, coarse);
    forall p | p in kept ensures p.ts in c && c[p.ts] == p.value {
      var i :| 0 <= i < |kept| && kept[i] == p;
      KeptAreCoarse(f, lo, coarse, i);
      ListedPoint(f, p);
      CoarseBounds(p.ts, lo, coarse);
      SamplesAt(at, lo, hi, fine, inclusive, p.ts);
      SamplesAt(at, lo, hi, coarse, inclusive, p.ts);
    }
    forall p: Point | p.ts in c && c[p.ts] == p.value ensures p in kept {
      CoarseSampleKept(at, lo, hi, fine, coarse, inclusive, p);
    }
    ListingIs(kept, c);
  }

  lemma CoarseSampleKept(at: int -> Option<string>, lo: int, hi: int, fine: int, coarse: int, inclusive: bool, p: Point)
    requires fine > 0 && coarse > 0 && Settles(at, lo, hi, fine, coarse, inclusive)
    requires var c := Samples(at, lo, hi, coarse, inclusive); p.ts in c && c[p.ts] == p.value
    ensures p in Kept(PointList(Samples(at, lo, hi, fine, inclusive)), coarse)
  {
    var f := Samples(at, lo, hi, fine, inclusive);
    var kept := Kept(PointList(f), coarse);
    SamplesAt(at, lo, hi, coarse, inclusive, p.ts);
    SamplesAt(at, lo, hi, fine, inclusive, p.ts);
    var j := Cover(f, coarse, p.ts);
    KeptAreCoarse(f, lo, coarse, j);
    CoarseBounds(kept[j].ts, lo, coarse);
    CoarseIs(kept[j].ts, p.ts, lo, coarse);
    CoarseIs(p.ts, p.ts, lo, coarse);
    KeptShape(PointList(f), coarse);
    ListedPoint(f, kept[j]);
  }

  /** If thinning keeps exactly the coarse samples, the signal settles. */
  lemma CoarseIsSettled(at: int -> Option<string>, lo: int, hi: int, fine: int, coarse: int, inclusive: bool)
    requires fine > 0 && coarse > 0
    requires Kept(PointList(Samples(at, lo, hi, fine, inclusive)), coarse) ==
      PointList(Samples(at, lo, hi, coarse, inclusive))
    ensures Settles(at, lo, hi, fine, coarse, inclusive)
  {
    var f, c := Samples(at, lo, hi, fine, inclusive), Samples(at, lo, hi, coarse, inclusive);
    forall t | t in c ensures t in f {
      ListedBoth(f, c, coarse, Point(t, c[t]));
    }
    forall t | t in f ensures CoarsePoint(t, lo, coarse) in f {
      CoarsePointSampled(at, lo, hi, fine, coarse, inclusive, t);
    }
  }

  lemma CoarsePointSampled(at: int -> Option<string>, lo: int, hi: int, fine: int, coarse: int, inclusive: bool, t: int)
    requires fine > 0 && coarse > 0 && t in Samples(at, lo, hi, fine, inclusive)
    requires Kept(PointList(Samples(at, lo, hi, fine, inclusive)), coarse) ==
      PointList(Samples(at, lo, hi, coarse, inclusive))
    ensures CoarsePoint(t, lo, coarse) in Samples(at, lo, hi, fine, inclusive)
  {
    var f, c := Samples(at, lo, hi, fine, inclusive), Samples(at, lo, hi, coarse, inclusive);
    var j := Cover(f, coarse, t);
    var q := PointList(c)[j];
    ListedBoth(f, c, coarse, q);
    SamplesAt(at, lo, hi, coarse, inclusive, q.ts);
    CoarseIs(q.ts, t, lo, coarse);
  }

  lemma ListedBoth(f: map<int, string>, c: map<int, string>, coarse: int, p: Point)
    requires coarse > 0 && Kept(PointList(f), coarse) == PointList(c)
    ensures p in PointList(c) <==> p.ts in c && c[p.ts] == p.value
    ensures p in PointList(c) ==> p.ts in f
  {
    KeptShape(PointList(f), coarse);
    ListedPoint(c, p);
    ListedPoint(f, p);
  }

  /**
   * For every signal, with or without gaps, and any two steps: thinning the fine samples gives
   * the coarse ones if and only if the signal settles.
   */
  lemma ThinSignal(at: int -> Option<string>, lo: int, hi: int, fine: int, coarse: int, inclusive: bool)
    requires fine > 0 && coarse > 0
    ensures Settles(at, lo, hi, fine, coarse, inclusive) <==>
      Kept(PointList(Samples(at, lo, hi, fine, inclusive)), coarse) == PointList(Samples(at, lo, hi, coarse, inclusive))
  {
    if Settles(at, lo, hi, fine, coarse, inclusive) {
      SettledIsCoarse(at, lo, hi, fine, coarse, inclusive);
    }
    if Kept(PointList(Samples(at, lo, hi, fine, inclusive)), coarse) ==
      PointList(Samples(at, lo, hi, coarse, inclusive)) {
      CoarseIsSettled(at, lo, hi, fine, coarse, inclusive);
    }
  }

  /** If the fine step divides the coarse one, the first half of settling always holds. */
  lemma CoarseWithinFine(at: int -> Option<string>, lo: int, hi: int, fine: int, coarse: int, inclusive: bool, t: int)
    requires fine > 0 && coarse > 0 && coarse % fine == 0 && t in Samples(at, lo, hi, coarse, inclusive)
    ensures t in Samples(at, lo, hi, fine, inclusive)
  {
    SamplesAt(at, lo, hi, coarse, inclusive, t);
    FineMultiple(t - lo, fine, coarse);
    SamplesAt(at, lo, hi, fine, inclusive, t);
  }

  lemma FineMultiple(d: int, fine: int, coarse: int)
    requires fine > 0 && coarse > 0 && coarse % fine == 0 && d >= 0 && d % coarse == 0
    ensures d % fine == 0
  {
    assert d == (d / coarse) * coarse;
    MultipleOfDivisor(d / coarse, coarse, fine);
  }

  lemma SettlesIfDivides(at: int -> Option<string>, lo: int, hi: int, fine: int, coarse: int, inclusive: bool)
    requires fine > 0 && coarse > 0 && coarse % fine == 0
    ensures Settles(at, lo, hi, fine, coarse, inclusive) <==>
      forall t :: t in Samples(at, lo, hi, fine, inclusive) ==>
        CoarsePoint(t, lo, coarse) in Samples(at, lo, hi, fine, inclusive)
  {
    forall t | t in Samples(at, lo, hi, coarse, inclusive) ensures t in Samples(at, lo, hi, fine, inclusive) {
      CoarseWithinFine(at, lo, hi, fine, coarse, inclusive, t);
    }
  }

  // ---- whole replies ---------------------------------------------------------------------

  ghost predicate AllSettle(src: Signals, lo: int, hi: int, fine: int, coarse: int, inclusive: bool)
    requires fine > 0 && coarse > 0
  {
    forall k :: k in src ==> Settles(src[k].at, lo, hi, fine, coarse, inclusive)
  }

  /** A signal that settles has fine samples exactly if it has coarse ones. */
  lemma SettledShows(at: int -> Option<string>, lo: int, hi: int, fine: int, coarse: int, inclusive: bool)
    requires fine > 0 && coarse > 0 && Settles(at, lo, hi, fine, coarse, inclusive)
    ensures Samples(at, lo, hi, fine, inclusive) == map[] <==> Samples(at, lo, hi, coarse, inclusive) == map[]
  {
    var f, c := Samples(at, lo, hi, fine, inclusive), Samples(at, lo, hi, coarse, inclusive);
    if c != map[] {
      var t :| t in c.Keys;
      assert t in f;
    }
    if f != map[] {
      var t :| t in f.Keys;
      var x := CoarsePoint(t, lo, coarse);
      CoarseBounds(t, lo, coarse);
      SamplesAt(at, lo, hi, fine, inclusive, x);
      SamplesAt(at, lo, hi, coarse, inclusive, x);
    }
  }

  /** The row of a thinned table. */
  lemma ThinnedRow(t: Table, coarse: int, i: nat)
    requires coarse > 0 && i < |Render(t)|
    ensures var k := AscNames(t.Keys)[i];
      k in t && Downsampled(Render(t), coarse)[i] == MatrixSeries(t[k].metric, Kept(PointList(t[k].points), coarse))
  {
  }

  lemma AllSettledIsDirect(src: Signals, lo: int, hi: int, fine: int, coarse: int, inclusive: bool)
    requires fine > 0 && coarse > 0 && AllSettle(src, lo, hi, fine, coarse, inclusive)
    ensures Downsampled(Render(Sampled(src, lo, hi, fine, inclusive)), coarse) ==
      Render(Sampled(src, lo, hi, coarse, inclusive))
  {
    var f, c := Sampled(src, lo, hi, fine, inclusive), Sampled(src, lo, hi, coarse, inclusive);
    forall k ensures k in f <==> k in c {
      if k in src {
        SettledShows(src[k].at, lo, hi, fine, coarse, inclusive);
      }
    }
    assert f.Keys == c.Keys;
    forall i | 0 <= i < |Render(f)| ensures Downsampled(Render(f), coarse)[i] == Render(c)[i] {
      ThinnedRow(f, coarse, i);
      ThinSignal(src[AscNames(f.Keys)[i]].at, lo, hi, fine, coarse, inclusive);
    }
  }

  /** Equal replies show the same keys, and the same points under each. */
  lemma SameRow(f: Table, c: Table, coarse: int, k: string)
    requires coarse > 0 && Keyed(f) && Keyed(c) && Downsampled(Render(f), coarse) == Render(c)
    ensures k in f <==> k in c
    ensures k in f ==> Kept(PointList(f[k].points), coarse) == PointList(c[k].points)
  {
    var l, r := Downsampled(Render(f), coarse), Render(c);
    if k in f {
      assert k in Elems(AscNames(f.Keys));
      var i :| 0 <= i < |l| && AscNames(f.Keys)[i] == k;
      ThinnedRow(f, coarse, i);
      assert AscNames(c.Keys)[i] == KeyOf(r[i].metric) == KeyOf(l[i].metric) == k;
    }
    if k in c {
      assert k in Elems(AscNames(c.Keys));
      var i :| 0 <= i < |r| && AscNames(c.Keys)[i] == k;
      ThinnedRow(f, coarse, i);
      assert AscNames(f.Keys)[i] == KeyOf(l[i].metric) == KeyOf(r[i].metric) == k;
    }
  }

  lemma DirectIsSettled(src: Signals, lo: int, hi: int, fine: int, coarse: int, inclusive: bool, k: string)
    requires fine > 0 && coarse > 0 && k in src
    requires Keyed(Sampled(src, lo, hi, fine, inclusive)) && Keyed(Sampled(src, lo, hi, coarse, inclusive))
    requires Downsampled(Render(Sampled(src, lo, hi, fine, inclusive)), coarse) ==
      Render(Sampled(src, lo, hi, coarse, inclusive))
    ensures Settles(src[k].at, lo, hi, fine, coarse, inclusive)
  {
    var f, c := Sampled(src, lo, hi, fine, inclusive), Sampled(src, lo, hi, coarse, inclusive);
    SameRow(f, c, coarse, k);
    if k in f {
      ThinSignal(src[k].at, lo, hi, fine, coarse, inclusive);
    } else {
      assert Samples(src[k].at, lo, hi, fine, inclusive) == map[] == Samples(src[k].at, lo, hi, coarse, inclusive);
    }
  }

  /**
   * Thinning the merged fine samples gives the direct coarse reply if and only if every signal
   * settles: whatever gaps the signals have, and whatever the two steps.
   */
  lemma DownsampledEqualsDirect(src: Signals, lo: int, hi: int, fine: int, coarse: int, inclusive: bool)
    requires fine > 0 && coarse > 0
    requires Keyed(Sampled(src, lo, hi, fine, inclusive)) && Keyed(Sampled(src, lo, hi, coarse, inclusive))
    ensures AllSettle(src, lo, hi, fine, coarse, inclusive) <==>
      Downsampled(Render(Sampled(src, lo, hi, fine, inclusive)), coarse) ==
        Render(Sampled(src, lo, hi, coarse, inclusive))
  {
    if AllSettle(src, lo, hi, fine, coarse, inclusive) {
      AllSettledIsDirect(src, lo, hi, fine, coarse, inclusive);
    }
    if Downsampled(Render(Sampled(src, lo, hi, fine, inclusive)), coarse) ==
      Render(Sampled(src, lo, hi, coarse, inclusive)) {
      forall k | k in src ensures Settles(src[k].at, lo, hi, fine, coarse, inclusive) {
        DirectIsSettled(src, lo, hi, fine, coarse, inclusive, k);
      }
    }
  }

  /** The coarse step is a multiple of the fine one, or the window has no second coarse point. */
  predicate CoarseFits(lo: int, hi: int, fine: int, coarse: int, inclusive: bool)
    requires fine > 0
  {
    coarse % fine == 0 || !InWindow(lo + coarse, hi, inclusive)
  }

  lemma TotalSettles(at: int -> Option<string>, lo: int, hi: int, fine: int, coarse: int, inclusive: bool)
    requires 0 < fine < coarse && lo < hi && Total(at)
    ensures Settles(at, lo, hi, fine, coarse, inclusive) <==> CoarseFits(lo, hi, fine, coarse, inclusive)
  {
    var f, c := Samples(at, lo, hi, fine, inclusive), Samples(at, lo, hi, coarse, inclusive);
    if CoarseFits(lo, hi, fine, coarse, inclusive) {
      forall t | t in f ensures CoarsePoint(t, lo, coarse) in f {
        FittingPoint(at, lo, hi, fine, coarse, inclusive, t, CoarsePoint(t, lo, coarse));
      }
      forall t | t in c ensures t in f {
        SamplesAt(at, lo, hi, coarse, inclusive, t);
        CoarseIs(t, t, lo, coarse);
        FittingPoint(at, lo, hi, fine, coarse, inclusive, t, t);
      }
    } else {
      var t := lo + coarse;
      ModIs(coarse, 1, 0, coarse);
      SamplesAt(at, lo, hi, coarse, inclusive, t);
      SamplesAt(at, lo, hi, fine, inclusive, t);
    }
  }

  /** A coarse point in the window is on the fine grid. */
  lemma FittingPoint(at: int -> Option<string>, lo: int, hi: int, fine: int, coarse: int, inclusive: bool, t: int,
                     x: int)
    requires 0 < fine < coarse && lo < hi && Total(at) && CoarseFits(lo, hi, fine, coarse, inclusive)
    requires t in Samples(at, lo, hi, fine, inclusive) || t in Samples(at, lo, hi, coarse, inclusive)
    requires x == CoarsePoint(t, lo, coarse)
    ensures x in Samples(at, lo, hi, fine, inclusive)
  {
    SamplesAt(at, lo, hi, fine, inclusive, t);
    SamplesAt(at, lo, hi, coarse, inclusive, t);
    CoarseBounds(t, lo, coarse);
    if coarse % fine == 0 {
      FineMultiple(x - lo, fine, coarse);
    } else {
      CoarseIs(lo, t, lo, coarse);
    }
    SamplesAt(at, lo, hi, fine, inclusive, x);
  }

  /** Signals with a value at every second settle exactly if the steps fit. */
  lemma EverywhereSettles(src: Signals, lo: int, hi: int, fine: int, coarse: int, inclusive: bool)
    requires 0 < fine < coarse && lo < hi && Everywhere(src) && src != map[]
    ensures AllSettle(src, lo, hi, fine, coarse, inclusive) <==> CoarseFits(lo, hi, fine, coarse, inclusive)
  {
    forall k | k in src
      ensures Settles(src[k].at, lo, hi, fine, coarse, inclusive) <==> CoarseFits(lo, hi, fine, coarse, inclusive)
    {
      TotalSettles(src[k].at, lo, hi, fine, coarse, inclusive);
    }
    var k :| k in src.Keys;
  }
}
