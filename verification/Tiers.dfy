/** Chunk tiers, canonical steps, aligned windows and chunk lists (step.go, parse.go, chunk.go). */
module Tiers {
  import opened Base
  import opened Text

  const SHORT_RANGE := 600

  datatype Chunk = Chunk(start: int, end: int)

  function ChunkSizeForRange(rangeSec: int): int {
    if rangeSec <= 600 then 60
    else if rangeSec <= 3600 then 1800
    else if rangeSec <= 21600 then 7200
    else if rangeSec <= 86400 then 21600
    else if rangeSec <= 172800 then 43200
    else 86400
  }

  function CanonicalStepForChunkSize(chunkSec: int): string {
    if chunkSec <= 300 then "15s"
    else if chunkSec <= 1800 then "30s"
    else if chunkSec <= 7200 then "1m"
    else "5m"
  }

  /** The aligned window a request is keyed by. */
  function AlignRangeForKey(startSec: int, endSec: int, chunkSec: int): (int, int) {
    if chunkSec <= 0 then (startSec, endSec)
    else
      var aStart := Quot(startSec, chunkSec) * chunkSec;
      var aEnd := if endSec - Quot(endSec, chunkSec) * chunkSec != 0
                  then (Quot(endSec, chunkSec) + 1) * chunkSec else endSec;
      (aStart, aEnd)
  }

  /** A step text with its seconds, as the step parser reads it; non-positive means it is refused. */
  type StepParser = string -> int

  /** What the parser must make of the four canonical step texts. */
  ghost predicate ReadsCanonicalSteps(secs: StepParser) {
    secs("15s") == 15 && secs("30s") == 30 && secs("1m") == 60 && secs("5m") == 300
  }

  /** `parseStepOrDefault` with its caller's fallback to the canonical step on an error. */
  function EffectiveStep(secs: StepParser, userStep: string, canonical: string): string {
    var s := if TrimSpace(userStep) == "" then canonical else TrimSpace(userStep);
    if secs(s) <= 0 then canonical else s
  }

  /** Chunks are fetched no coarser than the canonical step. */
  function FetchStep(secs: StepParser, effective: string, canonical: string): string {
    if secs(effective) > secs(canonical) then canonical else effective
  }

  predicate Proper(startSec: int, endSec: int) {
    0 <= startSec < endSec
  }

  function TierOf(startSec: int, endSec: int): int {
    ChunkSizeForRange(endSec - startSec)
  }

  function Aligned(startSec: int, endSec: int): (int, int) {
    AlignRangeForKey(startSec, endSec, TierOf(startSec, endSec))
  }

  /** The list of back-to-back chunks of one size from `lo` up to `hi`. */
  function Tiles(lo: int, hi: int, size: int): (r: seq<Chunk>)
    requires size > 0
    decreases hi - lo
  {
    if lo >= hi then [] else [Chunk(lo, lo + size)] + Tiles(lo + size, hi, size)
  }

  /** `ComputeChunks` as a function of the request. */
  function ChunksOf(startSec: int, endSec: int): seq<Chunk> {
    if endSec <= startSec then []
    else
      var size := TierOf(startSec, endSec);
      Tiles(Quot(startSec, size) * size, endSec, size)
  }

  /** The cursor moves on by one chunk. */
  lemma TilesStep(done: seq<Chunk>, cursor: int, hi: int, size: int)
    requires size > 0 && cursor < hi
    ensures done + [Chunk(cursor, cursor + size)] + Tiles(cursor + size, hi, size) == done + Tiles(cursor, hi, size)
  {
    assert Tiles(cursor, hi, size) == [Chunk(cursor, cursor + size)] + Tiles(cursor + size, hi, size);
  }

  /** `ComputeChunks`: an aligned cursor stepping through the window. */
  method ComputeChunks(startSec: int, endSec: int) returns (chunks: seq<Chunk>)
    ensures chunks == ChunksOf(startSec, endSec)
  {
    if endSec <= startSec {
      return [];
    }
    var chunkSize := ChunkSizeForRange(endSec - startSec);
    var alignedStart := Quot(startSec, chunkSize) * chunkSize;
    chunks := [];
    var cursor := alignedStart;
    while cursor < endSec
      invariant chunks + Tiles(cursor, endSec, chunkSize) == Tiles(alignedStart, endSec, chunkSize)
      decreases endSec - cursor
    {
      TilesStep(chunks, cursor, endSec, chunkSize);
      chunks := chunks + [Chunk(cursor, cursor + chunkSize)];
      cursor := cursor + chunkSize;
    }
  }

  // ---- what the chunk list means -----------------------------------------

  /** The chunk that holds second `t`. */
  ghost predicate Holds(c: Chunk, t: int) {
    c.start <= t < c.end
  }

  /** Chunks run back to back from `lo` to `hi`, all of one size: no gap and no overlap. */
  ghost predicate TilesExactly(cs: seq<Chunk>, lo: int, hi: int, size: int) {
    && (forall i :: 0 <= i < |cs| ==> cs[i].end == cs[i].start + size)
    && (forall i :: 0 <= i < |cs| - 1 ==> cs[i].end == cs[i + 1].start)
    && (if cs == [] then lo == hi else cs[0].start == lo && cs[|cs| - 1].end == hi)
  }

  lemma {:induction false} TilesAreExact(lo: int, hi: int, size: int)
    requires size > 0 && lo <= hi && (hi - lo) % size == 0
    ensures TilesExactly(Tiles(lo, hi, size), lo, hi, size)
    decreases hi - lo
  {
    if lo < hi {
      Shift(hi - lo, size);
      TilesAreExact(lo + size, hi, size);
      var rest := Tiles(lo + size, hi, size);
      var all := Tiles(lo, hi, size);
      assert all == [Chunk(lo, lo + size)] + rest;
      assert forall i :: 0 < i < |all| ==> all[i] == rest[i - 1];
    }
  }

  /** Cutting the window short of a chunk boundary still yields the whole last chunk. */
  lemma {:induction false} TilesRoundUp(lo: int, hi: int, up: int, size: int)
    requires size > 0 && lo <= hi <= up < hi + size && (up - lo) % size == 0
    ensures Tiles(lo, hi, size) == Tiles(lo, up, size)
    decreases hi - lo
  {
    if lo < hi {
      Shift(up - lo, size);
      if lo + size <= hi {
        TilesRoundUp(lo + size, hi, up, size);
      } else {
        ModIs(up - lo - size, 0, up - lo - size, size);
      }
    } else if up > lo {
      Shift(up - lo, size);
    }
  }

  lemma AlignedBounds(startSec: int, endSec: int)
    requires 0 <= startSec && 0 <= endSec
    ensures var c := TierOf(startSec, endSec); var (lo, hi) := Aligned(startSec, endSec);
      && lo <= startSec < lo + c && endSec <= hi < endSec + c
      && lo % c == 0 && hi % c == 0 && (hi - lo) % c == 0
  {
    AlignBounds(startSec, endSec, TierOf(startSec, endSec));
  }

  lemma AlignBounds(startSec: int, endSec: int, c: int)
    requires 0 <= startSec && 0 <= endSec && c > 0
    ensures var (lo, hi) := AlignRangeForKey(startSec, endSec, c);
      && lo <= startSec < lo + c && endSec <= hi < endSec + c
      && lo % c == 0 && hi % c == 0 && (hi - lo) % c == 0
  {
    var (lo, hi) := AlignRangeForKey(startSec, endSec, c);
    FloorBounds(startSec, c);
    FloorBounds(endSec, c);
    var q := Quot(endSec, c);
    MultipleMod(q + 1, c);
    assert (q + 1) * c == q * c + c;
    ModAdd(hi - lo, lo, c);
  }

  /** `ComputeChunks` tiles exactly the aligned window the cache keys use. */
  lemma ChunksTileAlignedWindow(startSec: int, endSec: int)
    requires Proper(startSec, endSec)
    ensures var (lo, hi) := Aligned(startSec, endSec);
      && lo <= startSec < lo + TierOf(startSec, endSec) && endSec <= hi < endSec + TierOf(startSec, endSec) && lo < hi
      && ChunksOf(startSec, endSec) == Tiles(lo, hi, TierOf(startSec, endSec))
      && TilesExactly(ChunksOf(startSec, endSec), lo, hi, TierOf(startSec, endSec))
      && ChunksOf(startSec, endSec) != []
  {
    AlignedBounds(startSec, endSec);
    var c := TierOf(startSec, endSec); var (lo, hi) := Aligned(startSec, endSec);
    TilesRoundUp(lo, endSec, hi, c);
    TilesAreExact(lo, hi, c);
  }

  /** Every second of the aligned window is in exactly one chunk, and no other second is in any. */
  lemma {:induction false} EachSecondOnce(cs: seq<Chunk>, lo: int, hi: int, size: int, t: int)
    requires size > 0 && TilesExactly(cs, lo, hi, size)
    ensures lo <= t < hi <==> exists i :: 0 <= i < |cs| && Holds(cs[i], t)
    ensures forall i, j :: 0 <= i < j < |cs| && Holds(cs[i], t) ==> !Holds(cs[j], t)
  {
    ChunkStarts(cs, lo, hi, size);
    forall i, j | 0 <= i < j < |cs| ensures cs[i].end <= cs[j].start {
      Spread(i, j, size);
    }
    if lo <= t < hi {
      var i := Locate(cs, lo, hi, size, t);
    }
    forall i | 0 <= i < |cs| && Holds(cs[i], t) ensures lo <= t < hi {
      Spread(i, |cs|, size);
      Spread(0, i + 1, size);
    }
  }

  lemma {:induction false} Spread(i: int, j: int, size: int)
    requires i < j && size > 0
    ensures i * size + size <= j * size
    decreases j - i
  {
    assert j * size == (j - 1) * size + size;
    if i < j - 1 {
      Spread(i, j - 1, size);
    }
  }

  /** All chunks but the last tile the window up to the last. */
  lemma AllButLast(cs: seq<Chunk>, lo: int, hi: int, size: int)
    requires TilesExactly(cs, lo, hi, size) && cs != []
    ensures var n := |cs| - 1;
      TilesExactly(cs[..n], lo, cs[n].start, size) && cs[n].start + size == cs[n].end == hi
  {
    var n := |cs| - 1;
    if n > 0 {
      assert cs[..n][n - 1] == cs[n - 1];
    }
  }

  lemma {:induction false} ChunkStarts(cs: seq<Chunk>, lo: int, hi: int, size: int)
    requires TilesExactly(cs, lo, hi, size)
    ensures forall i :: 0 <= i < |cs| ==> cs[i].start == lo + i * size && cs[i].end == lo + (i + 1) * size
    ensures hi == lo + |cs| * size
  {
    if cs != [] {
      var n := |cs| - 1;
      AllButLast(cs, lo, hi, size);
      ChunkStarts(cs[..n], lo, cs[n].start, size);
      OneTimeMore(n, size);
      forall i | 0 <= i < |cs|
        ensures cs[i].start == lo + i * size && cs[i].end == lo + (i + 1) * size
      {
        if i < n { assert cs[..n][i] == cs[i]; }
      }
    }
  }

  lemma Locate(cs: seq<Chunk>, lo: int, hi: int, size: int, t: int) returns (k: nat)
    requires TilesExactly(cs, lo, hi, size) && lo <= t < hi
    ensures k < |cs| && Holds(cs[k], t)
  {
    k := 0;
    while t >= cs[k].end
      invariant k < |cs| && cs[k].start <= t
      decreases |cs| - k
    {
      k := k + 1;
    }
  }

  // ---- the aligned window determines the tier ------------------------------

  /** The spans the aligned windows of one tier can have. */
  ghost predicate SpanOfTier(size: int, span: int) {
    match size
    case 60 => span <= 660
    case 1800 => 1800 <= span <= 5400
    case 7200 => 7200 <= span <= 28800
    case 21600 => 43200 <= span <= 108000
    case 43200 => 129600 <= span <= 216000
    case _ => size == 86400 && 259200 <= span
  }

  /** A multiple of the chunk size that rounds a range up at both ends. */
  lemma SpanOf(range: int, span: int, c: int)
    requires c == ChunkSizeForRange(range) && span % c == 0
    requires -c < span && range <= span < range + 2 * c
    ensures SpanOfTier(c, span)
  {
    if c == 60 {
      assert span == 60 * (span / 60);
    } else if c == 1800 {
      assert span == 1800 * (span / 1800);
    } else if c == 7200 {
      assert span == 7200 * (span / 7200);
    } else if c == 21600 {
      assert span == 21600 * (span / 21600);
    } else if c == 43200 {
      assert span == 43200 * (span / 43200);
    } else {
      assert span == 86400 * (span / 86400);
    }
  }

  /** Aligned spans of different tiers lie in disjoint intervals. */
  lemma TierSpans(startSec: int, endSec: int)
    requires 0 <= startSec && 0 <= endSec
    ensures var (lo, hi) := Aligned(startSec, endSec);
      SpanOfTier(TierOf(startSec, endSec), hi - lo)
  {
    AlignedBounds(startSec, endSec);
    var (lo, hi) := Aligned(startSec, endSec);
    var c := TierOf(startSec, endSec);
    if endSec - startSec > 600 {
      SpanOf(endSec - startSec, hi - lo, c);
    }
  }

  /**
   * Although the cache key leaves the chunk size out, two requests with the same
   * aligned window have the same tier, hence the same canonical step and the same chunks.
   */
  lemma AlignedWindowDeterminesTier(s: int, e: int, s': int, e': int)
    requires 0 <= s && 0 <= e && 0 <= s' && 0 <= e'
    requires Aligned(s, e) == Aligned(s', e')
    ensures TierOf(s, e) == TierOf(s', e')
    ensures s < e && s' < e' ==> ChunksOf(s, e) == ChunksOf(s', e')
  {
    TierSpans(s, e);
    TierSpans(s', e');
    if s < e && s' < e' {
      ChunksTileAlignedWindow(s, e);
      ChunksTileAlignedWindow(s', e');
    }
  }

  /** Chunk sizes by the length of the range. */
  lemma ChunkSizes(startSec: int, endSec: int)
    ensures var range := endSec - startSec;
      TierOf(startSec, endSec) ==
        if range <= 600 then 60 else if range <= 3600 then 1800 else if range <= 21600 then 7200
        else if range <= 86400 then 21600 else if range <= 172800 then 43200 else 86400
  {
  }

  /** The canonical step of every tier divides its chunk size. */
  lemma CanonicalStepDividesChunk(secs: StepParser, rangeSec: int)
    requires ReadsCanonicalSteps(secs)
    ensures var c := ChunkSizeForRange(rangeSec);
      var f := secs(CanonicalStepForChunkSize(c));
      0 < f < c && c % f == 0
  {
  }

  /** The canonical steps in seconds, by the length of the range. */
  lemma CanonicalSeconds(secs: StepParser, rangeSec: int)
    requires ReadsCanonicalSteps(secs)
    ensures secs(CanonicalStepForChunkSize(ChunkSizeForRange(rangeSec))) ==
      if rangeSec <= 600 then 15 else if rangeSec <= 3600 then 30 else if rangeSec <= 21600 then 60 else 300
  {
  }

  /** Fetching never uses a step above the canonical one, and steps are always positive. */
  lemma StepsArePositive(secs: StepParser, userStep: string, rangeSec: int)
    requires ReadsCanonicalSteps(secs)
    ensures var canonical := CanonicalStepForChunkSize(ChunkSizeForRange(rangeSec));
      var effective := EffectiveStep(secs, userStep, canonical);
      0 < secs(FetchStep(secs, effective, canonical)) <= secs(canonical)
      && secs(FetchStep(secs, effective, canonical)) <= secs(effective)
  {
  }
}
