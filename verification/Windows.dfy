/** What a windowed query is asked, and the keys it is cached under (rangecache.go, logscache.go). */
module Windows {
  import opened Base
  import opened Sorting
  import opened Text
  import opened Tiers
  import CacheAside

  /** A query over a window; the scope holds everything else the answer depends on. */
  datatype Ask<+S> = Ask(scope: S, start: int, end: int, step: string)

  /** Key of a full result, by its aligned window, and of one chunk. */
  datatype Key<+S> =
    | Result(scope: S, alignedStart: int, alignedEnd: int, step: string)
    | ChunkKey(scope: S, start: int, end: int, step: string)

  function Canonical<S>(a: Ask<S>): string {
    CanonicalStepForChunkSize(TierOf(a.start, a.end))
  }

  function Effective<S>(secs: StepParser, a: Ask<S>): string {
    EffectiveStep(secs, a.step, Canonical(a))
  }

  function FetchedStep<S>(secs: StepParser, a: Ask<S>): string {
    FetchStep(secs, Effective(secs, a), Canonical(a))
  }

  lemma FetchedStepIsPositive<S>(secs: StepParser, a: Ask<S>)
    requires ReadsCanonicalSteps(secs)
    ensures 0 < secs(FetchedStep(secs, a)) <= secs(Effective(secs, a))
    ensures secs(FetchedStep(secs, a)) <= secs(Canonical(a))
  {
    StepsArePositive(secs, a.step, a.end - a.start);
  }

  /**
   * The step a request is answered at: the one asked for if it can be read as a positive number of
   * seconds, or else the usual one for the length of the range.
   */
  predicate UsesStep<S>(secs: StepParser, a: Ask<S>, step: string) {
    var asked, range := TrimSpace(a.step), a.end - a.start;
    if asked != "" && secs(asked) > 0 then step == asked
    else step == if range <= 600 then "15s" else if range <= 3600 then "30s" else if range <= 21600 then "1m" else "5m"
  }

  /** The same in seconds. */
  predicate AsksFor<S>(secs: StepParser, a: Ask<S>, seconds: int) {
    var asked := TrimSpace(a.step);
    if asked != "" && secs(asked) > 0 then seconds == secs(asked) else seconds == UsualStep(a.end - a.start)
  }

  function UsualStep(range: int): int {
    if range <= 600 then 15 else if range <= 3600 then 30 else if range <= 21600 then 60 else 300
  }

  /** The effective step is the one asked for, and chunks are fetched at it or at the usual one, whichever is finer. */
  lemma StepInUse<S>(secs: StepParser, a: Ask<S>, seconds: int)
    requires ReadsCanonicalSteps(secs) && AsksFor(secs, a, seconds)
    ensures UsesStep(secs, a, Effective(secs, a)) && seconds > 0 && secs(Effective(secs, a)) == seconds
    ensures secs(Canonical(a)) == UsualStep(a.end - a.start)
    ensures secs(FetchedStep(secs, a)) == if seconds > secs(Canonical(a)) then secs(Canonical(a)) else seconds
  {
    CanonicalSeconds(secs, a.end - a.start);
  }

  function FullKey<S>(secs: StepParser, a: Ask<S>): Key<S> {
    var (lo, hi) := Aligned(a.start, a.end);
    Result(a.scope, lo, hi, Effective(secs, a))
  }

  function KeyOfChunk<S>(secs: StepParser, a: Ask<S>, c: Chunk): Key<S> {
    ChunkKey(a.scope, c.start, c.end, FetchedStep(secs, a))
  }

  function ChunkKeys<S>(secs: StepParser, a: Ask<S>): (r: seq<Key<S>>)
    ensures |r| == |ChunksOf(a.start, a.end)|
    ensures forall i :: 0 <= i < |r| ==> r[i] == KeyOfChunk(secs, a, ChunksOf(a.start, a.end)[i])
  {
    seq(|ChunksOf(a.start, a.end)|, i requires 0 <= i < |ChunksOf(a.start, a.end)| =>
      KeyOfChunk(secs, a, ChunksOf(a.start, a.end)[i]))
  }

  /** The steps and the full key of a request. */
  method Resolve<S>(secs: StepParser, a: Ask<S>) returns (effectiveStep: string, fetchStep: string, fullKey: Key<S>)
    ensures effectiveStep == Effective(secs, a) && fetchStep == FetchedStep(secs, a) && fullKey == FullKey(secs, a)
  {
    var chunkSizeSec := ChunkSizeForRange(a.end - a.start);
    var canonicalStep := CanonicalStepForChunkSize(chunkSizeSec);
    effectiveStep := EffectiveStep(secs, a.step, canonicalStep);
    fetchStep := FetchStep(secs, effectiveStep, canonicalStep);
    var (aStart, aEnd) := AlignRangeForKey(a.start, a.end, chunkSizeSec);
    fullKey := Result(a.scope, aStart, aEnd, effectiveStep);
  }

  method ListKeys<S>(secs: StepParser, a: Ask<S>, fetchStep: string) returns (keys: seq<Key<S>>)
    requires fetchStep == FetchedStep(secs, a)
    ensures keys == ChunkKeys(secs, a)
  {
    var chunks := ComputeChunks(a.start, a.end);
    keys := [];
    for i := 0 to |chunks|
      invariant |keys| == i
      invariant forall j :: 0 <= j < i ==> keys[j] == KeyOfChunk(secs, a, chunks[j])
    {
      keys := keys + [ChunkKey(a.scope, chunks[i].start, chunks[i].end, fetchStep)];
    }
  }

  /** `TieredChunkTTL`, with the clock read as a parameter. */
  function TieredChunkTTL(chunkEnd: int, now: int): int {
    var age := now - chunkEnd;
    if age < 60 then 15 else if age < 300 then 120 else 3600
  }

  function TtlFor<S>(k: Key<S>, now: int): int {
    match k
    case ChunkKey(_, _, end, _) => TieredChunkTTL(end, now)
    case Result(_, _, _, _) => CacheAside.FULL_RESULT_TTL
  }

  /** How old a chunk may be when served, by its age when it was fetched. */
  function MaxStaleness(chunkEnd: int, fetchedAt: int): int {
    if fetchedAt - chunkEnd < 60 then 135 else if fetchedAt - chunkEnd < 300 then 240 else 3720
  }

  lemma {:induction false} TilesAscend(lo: int, hi: int, size: int)
    requires size > 0
    ensures forall i :: 0 <= i < |Tiles(lo, hi, size)| ==> Tiles(lo, hi, size)[i].start >= lo
    ensures forall i, j :: 0 <= i < j < |Tiles(lo, hi, size)| ==>
      Tiles(lo, hi, size)[i].start < Tiles(lo, hi, size)[j].start
    decreases hi - lo
  {
    if lo < hi {
      TilesAscend(lo + size, hi, size);
      var rest := Tiles(lo + size, hi, size);
      assert forall i :: 0 < i < |Tiles(lo, hi, size)| ==> Tiles(lo, hi, size)[i] == rest[i - 1];
    }
  }

  lemma ChunkKeysDiffer<S>(secs: StepParser, a: Ask<S>)
    ensures NoDup(ChunkKeys(secs, a))
  {
    var cs := ChunksOf(a.start, a.end);
    if a.start < a.end {
      var size := TierOf(a.start, a.end);
      TilesAscend(Quot(a.start, size) * size, a.end, size);
    }
    forall i, j | 0 <= i < j < |cs| ensures ChunkKeys(secs, a)[i] != ChunkKeys(secs, a)[j] {
      assert cs[i].start < cs[j].start;
    }
  }

  // ---- empty windows ------------------------------------------------------------------

  /**
   * A proper window, or an empty one whose end does not lie above the minute its start is in.
   * Any other empty window shares its full key with a proper one.
   */
  predicate Harmless<S>(a: Ask<S>) {
    0 <= a.start && 0 <= a.end && (a.start < a.end || a.end <= Floor(a.start, 60))
  }

  /** The aligned window of a proper request is never empty, that of a harmless empty one always is. */
  lemma EmptyAligned<S>(a: Ask<S>)
    requires 0 <= a.start && 0 <= a.end
    ensures var (lo, hi) := Aligned(a.start, a.end);
      lo < hi <==> (a.start < a.end || Floor(a.start, 60) < a.end)
  {
    var (lo, hi) := Aligned(a.start, a.end);
    AlignedBounds(a.start, a.end);
    if a.end <= a.start {
      assert lo == Floor(a.start, 60);
      if lo < hi {
        Shift(hi - lo, 60);
      }
    }
  }

  /** The minute-long proper request whose full key an empty one shares. */
  function Shadowed<S>(a: Ask<S>): Ask<S> {
    Ask(a.scope, Floor(a.start, 60), Floor(a.start, 60) + 60, a.step)
  }

  lemma ShadowedKey<S>(secs: StepParser, a: Ask<S>)
    requires 0 <= a.start && Floor(a.start, 60) < a.end <= a.start
    ensures Proper(Shadowed(a).start, Shadowed(a).end) && Shadowed(a).end - Shadowed(a).start <= SHORT_RANGE
    ensures FullKey(secs, Shadowed(a)) == FullKey(secs, a)
  {
    var f := Floor(a.start, 60);
    var b := Shadowed(a);
    AlignedBounds(a.start, a.end);
    AlignedBounds(b.start, b.end);
    EmptyAligned(a);
    var (lo, hi) := Aligned(a.start, a.end);
    Shift(hi - lo, 60);
    var (lo', hi') := Aligned(b.start, b.end);
    Shift(hi' - lo', 60);
    assert lo == f && hi == f + 60;
    assert Quot(f, 60) * 60 == f;
    assert lo' == f && hi' == f + 60;
  }

  /**
   * Requests on non-negative times with one full key have one tier and the same steps, and the same
   * chunks if harmless.
   */
  lemma FullKeyDeterminesPlan<S>(secs: StepParser, a: Ask<S>, b: Ask<S>)
    requires 0 <= a.start && 0 <= a.end && 0 <= b.start && 0 <= b.end
    requires FullKey(secs, a) == FullKey(secs, b)
    ensures a.scope == b.scope && TierOf(a.start, a.end) == TierOf(b.start, b.end)
    ensures Effective(secs, a) == Effective(secs, b) && FetchedStep(secs, a) == FetchedStep(secs, b)
    ensures Harmless(a) && Harmless(b) ==>
      (a.start < a.end <==> b.start < b.end) && ChunkKeys(secs, a) == ChunkKeys(secs, b)
  {
    AlignedWindowDeterminesTier(a.start, a.end, b.start, b.end);
    EmptyAligned(a);
    EmptyAligned(b);
  }
}
