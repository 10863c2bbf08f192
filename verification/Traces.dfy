/** Trace buckets and the merge of bucket replies: `ComputeTraceBuckets`, `MergeTracesByID` (chunk.go). */
module Traces {
  import opened Base
  import opened Sorting
  import opened Text
  import opened Tiers
  import Series

  const MAX_TRACE_BUCKETS := 120

  /** A field of a trace, as far as the merge tells fields apart. */
  datatype Value = Str(text: string) | Other(json: string)

  type Trace = map<string, Value>

  predicate Names(t: Trace, field: string) {
    field in t && t[field].Str? && TrimSpace(t[field].text) != ""
  }

  /** `traceID`: the first spelling of the field that holds a non-blank text, untrimmed. */
  function Id(t: Trace): (id: string)
    ensures id == "" <==> !Names(t, "traceID") && !Names(t, "traceId")
  {
    if Names(t, "traceID") then t["traceID"].text
    else if Names(t, "traceId") then t["traceId"].text
    else ""
  }

  function Ids(xs: seq<Trace>): (r: seq<string>)
    ensures |r| == |xs| && forall i :: 0 <= i < |r| ==> r[i] == Id(xs[i])
  {
    seq(|xs|, i requires 0 <= i < |xs| => Id(xs[i]))
  }

  function IdSet(xs: seq<Trace>): set<string> {
    set t | t in xs :: Id(t)
  }

  /** Keeps a trace if its id is not blank and not yet kept. */
  function Keep(kept: seq<Trace>, t: Trace): seq<Trace> {
    if Id(t) == "" || Id(t) in IdSet(kept) then kept else kept + [t]
  }

  function Dedup(xs: seq<Trace>): seq<Trace> {
    if xs == [] then [] else Keep(Dedup(xs[..|xs| - 1]), xs[|xs| - 1])
  }

  lemma IdSetSnoc(xs: seq<Trace>, t: Trace)
    ensures IdSet(xs + [t]) == IdSet(xs) + {Id(t)}
  {
    assert t in xs + [t];
  }

  lemma IdSetAppend(xs: seq<Trace>, ys: seq<Trace>)
    ensures IdSet(xs + ys) == IdSet(xs) + IdSet(ys)
  {
    forall t | t in xs ensures t in xs + ys {
    }
    forall t | t in ys ensures t in xs + ys {
    }
  }

  lemma DedupSnoc(xs: seq<Trace>, t: Trace)
    ensures Dedup(xs + [t]) == Keep(Dedup(xs), t)
  {
    assert (xs + [t])[..|xs|] == xs;
  }

  function Merged(sets: seq<seq<Trace>>): seq<Trace> {
    Dedup(Series.Flat(sets))
  }

  // ---- the merge, declaratively --------------------------------------------------------

  /** Position `i` holds the first trace with its id. */
  predicate First(xs: seq<Trace>, i: int)
    requires 0 <= i < |xs|
  {
    Id(xs[i]) != "" && forall j :: 0 <= j < i ==> Id(xs[j]) != Id(xs[i])
  }

  function Firsts(xs: seq<Trace>): set<int> {
    set i | 0 <= i < |xs| && First(xs, i)
  }

  ghost function At(xs: seq<Trace>, positions: seq<int>): (r: seq<Trace>)
    requires forall i :: i in positions ==> 0 <= i < |xs|
    ensures |r| == |positions| && forall i :: 0 <= i < |r| ==> positions[i] in positions && r[i] == xs[positions[i]]
  {
    seq(|positions|, i requires 0 <= i < |positions| => assert positions[i] in positions; xs[positions[i]])
  }

  ghost predicate Distinct(xs: seq<Trace>) {
    "" !in IdSet(xs) && forall i, j :: 0 <= i < j < |xs| ==> Id(xs[i]) != Id(xs[j])
  }

  lemma IdIn(xs: seq<Trace>, i: nat)
    requires i < |xs|
    ensures Id(xs[i]) in IdSet(xs)
  {
    assert xs[i] in xs;
  }

  lemma KeepIds(kept: seq<Trace>, t: Trace)
    requires Distinct(kept)
    ensures Distinct(Keep(kept, t))
    ensures IdSet(Keep(kept, t)) == IdSet(kept) + {Id(t)} - {""}
  {
    IdSetSnoc(kept, t);
    forall i | 0 <= i < |kept| ensures Id(kept[i]) in IdSet(kept) {
      IdIn(kept, i);
    }
  }

  /** Each non-blank id is kept exactly once. */
  lemma {:induction false} DedupIds(xs: seq<Trace>)
    ensures Distinct(Dedup(xs))
    ensures IdSet(Dedup(xs)) == IdSet(xs) - {""}
  {
    if xs != [] {
      var n := |xs| - 1;
      InitLast(xs);
      DedupIds(xs[..n]);
      KeepIds(Dedup(xs[..n]), xs[n]);
      IdSetSnoc(xs[..n], xs[n]);
    }
  }

  lemma FirstsSnoc(xs: seq<Trace>, t: Trace)
    ensures Firsts(xs + [t]) == Firsts(xs) + if Id(t) != "" && Id(t) !in IdSet(xs) then {|xs|} else {}
  {
    var ys := xs + [t];
    forall i | 0 <= i < |xs| ensures First(ys, i) <==> First(xs, i) {
      assert forall j :: 0 <= j <= i ==> ys[j] == xs[j];
    }
    if Id(t) in IdSet(xs) {
      var u :| u in xs && Id(u) == Id(t);
      var j :| 0 <= j < |xs| && xs[j] == u;
      assert !First(ys, |xs|) by { assert Id(ys[j]) == Id(ys[|xs|]); }
    } else {
      forall j | 0 <= j < |xs| ensures Id(ys[j]) != Id(t) {
        IdIn(xs, j);
      }
    }
  }

  /**
   * The merge keeps exactly the traces that are the first with their id, in the order they
   * come in: every non-blank id once, with its first payload, in first-occurrence order.
   */
  lemma {:induction false} MergeKeepsFirsts(xs: seq<Trace>)
    ensures forall i :: i in AscInts(Firsts(xs)) ==> 0 <= i < |xs|
    ensures Dedup(xs) == At(xs, AscInts(Firsts(xs)))
  {
    forall i | i in AscInts(Firsts(xs)) ensures 0 <= i < |xs| {
      assert i in Elems(AscInts(Firsts(xs)));
    }
    if xs == [] {
      NoFirsts();
    } else {
      var n := |xs| - 1;
      var t := xs[n];
      assert xs == xs[..n] + [t];
      MergeKeepsFirsts(xs[..n]);
      FirstsSnoc(xs[..n], t);
      DedupIds(xs[..n]);
      var was := AscInts(Firsts(xs[..n]));
      if Id(t) != "" && Id(t) !in IdSet(xs[..n]) {
        OneMoreFirst(Firsts(xs[..n]), n);
        assert At(xs, was + [n]) == At(xs[..n], was) + [t];
      } else {
        assert Firsts(xs) == Firsts(xs[..n]);
        assert At(xs, was) == At(xs[..n], was);
      }
    }
  }

  lemma NoFirsts()
    ensures AscInts(Firsts([])) == []
  {
    AscIntsNoDup(Firsts([]));
  }

  lemma OneMoreFirst(s: set<int>, n: int)
    requires forall i :: i in s ==> i < n
    ensures AscInts(s + {n}) == AscInts(s) + [n]
  {
    var q := AscInts(s);
    forall i | i in q ensures i < n {
      assert i in Elems(q);
    }
    forall i, j | 0 <= i < j < |q + [n]| ensures IntLt((q + [n])[i], (q + [n])[j]) {
      assert j < |q| ==> IntLt(q[i], q[j]);
      assert q[i] in q;
    }
    assert Elems(q + [n]) == s + {n} by {
      assert forall i :: i in q + [n] <==> i in q || i == n;
      assert forall i :: i in q <==> i in Elems(q);
    }
    AscIntsIs(q + [n]);
  }

  // ---- ids by the fields alone ---------------------------------------------------------

  /** Not only white space. */
  predicate NonBlank(x: string) {
    exists c :: c in x && c !in SPACES
  }

  predicate TextAt(t: Trace, field: string, x: string) {
    field in t && t[field] == Str(x)
  }

  /** `x` is the text at `traceID`, or at `traceId` if the other holds no text that is not blank. */
  ghost predicate HoldsId(t: Trace, x: string) {
    NonBlank(x) &&
    (TextAt(t, "traceID", x) || (TextAt(t, "traceId", x) && forall y :: TextAt(t, "traceID", y) ==> !NonBlank(y)))
  }

  lemma NamesIff(t: Trace, field: string)
    ensures Names(t, field) <==> exists y :: TextAt(t, field, y) && NonBlank(y)
  {
    if field in t && t[field].Str? {
      BlankIff(t[field].text);
      assert TextAt(t, field, t[field].text);
    }
  }

  /** The id of a trace is the text it holds. */
  lemma IdIff(t: Trace, x: string)
    ensures HoldsId(t, x) <==> x != "" && Id(t) == x
  {
    NamesIff(t, "traceID");
    NamesIff(t, "traceId");
    BlankIff(x);
    if Names(t, "traceID") {
      assert TextAt(t, "traceID", t["traceID"].text);
    }
    BlankIff(Id(t));
  }

  lemma SomeId(t: Trace)
    ensures Id(t) != "" <==> exists x :: HoldsId(t, x)
  {
    IdIff(t, Id(t));
    forall x | HoldsId(t, x) ensures Id(t) != "" {
      IdIff(t, x);
    }
  }

  /** Position `i` holds a text that no earlier one holds. */
  ghost predicate FirstHolder(xs: seq<Trace>, i: int)
    requires 0 <= i < |xs|
  {
    exists x :: HoldsId(xs[i], x) && forall j :: 0 <= j < i ==> !HoldsId(xs[j], x)
  }

  lemma FirstIff(xs: seq<Trace>, i: nat)
    requires i < |xs|
    ensures First(xs, i) <==> FirstHolder(xs, i)
  {
    forall j, x | 0 <= j < |xs| ensures HoldsId(xs[j], x) <==> x != "" && Id(xs[j]) == x {
      IdIff(xs[j], x);
    }
    if First(xs, i) {
      assert HoldsId(xs[i], Id(xs[i]));
    }
  }

  /**
   * By the fields alone: the merge keeps, in their order, exactly the traces that hold a text no
   * earlier trace holds.
   */
  lemma MergeDropsHeldIds(sets: seq<seq<Trace>>) returns (kept: seq<int>)
    ensures Ascending(kept, IntLt)
    ensures forall i :: i in kept <==> 0 <= i < |Series.Flat(sets)| && FirstHolder(Series.Flat(sets), i)
    ensures Merged(sets) == At(Series.Flat(sets), kept)
  {
    var xs := Series.Flat(sets);
    MergeKeepsFirsts(xs);
    kept := AscInts(Firsts(xs));
    forall i ensures i in kept <==> 0 <= i < |xs| && FirstHolder(xs, i) {
      assert i in kept <==> i in Elems(kept);
      if 0 <= i < |xs| {
        FirstIff(xs, i);
      }
    }
  }

  /** Some trace holds the text. */
  ghost predicate Shows(xs: seq<Trace>, x: string) {
    exists i :: 0 <= i < |xs| && HoldsId(xs[i], x)
  }

  lemma ShowsIff(xs: seq<Trace>, x: string)
    ensures Shows(xs, x) <==> x != "" && x in IdSet(xs)
  {
    forall i | 0 <= i < |xs| ensures HoldsId(xs[i], x) <==> x != "" && Id(xs[i]) == x {
      IdIff(xs[i], x);
    }
    if x != "" && x in IdSet(xs) {
      var t :| t in xs && Id(t) == x;
      var i :| 0 <= i < |xs| && xs[i] == t;
      assert HoldsId(xs[i], x);
    }
    if Shows(xs, x) {
      var i :| 0 <= i < |xs| && HoldsId(xs[i], x);
      IdIn(xs, i);
    }
  }

  /** Every trace holds a text, and no two hold the same. */
  ghost predicate OneEach(xs: seq<Trace>) {
    && (forall i :: 0 <= i < |xs| ==> HoldsSome(xs[i]))
    && forall i, j :: 0 <= i < j < |xs| ==> HoldApart(xs[i], xs[j])
  }

  ghost predicate HoldsSome(t: Trace) {
    exists x :: HoldsId(t, x)
  }

  ghost predicate HoldApart(t: Trace, u: Trace) {
    forall x :: HoldsId(t, x) ==> !HoldsId(u, x)
  }

  lemma DistinctIff(xs: seq<Trace>)
    ensures Distinct(xs) <==> OneEach(xs)
  {
    if Distinct(xs) {
      forall i | 0 <= i < |xs| ensures HoldsSome(xs[i]) {
        IdIn(xs, i);
        IdIff(xs[i], Id(xs[i]));
      }
      forall i, j | 0 <= i < j < |xs| ensures HoldApart(xs[i], xs[j]) {
        forall x | HoldsId(xs[i], x) ensures !HoldsId(xs[j], x) {
          IdIff(xs[i], x);
          IdIff(xs[j], x);
        }
      }
    }
    if OneEach(xs) {
      HeldIsDistinct(xs);
    }
  }

  lemma HeldIsDistinct(xs: seq<Trace>)
    requires OneEach(xs)
    ensures Distinct(xs)
  {
    forall i | 0 <= i < |xs| ensures HoldsId(xs[i], Id(xs[i])) && Id(xs[i]) != "" {
      assert HoldsSome(xs[i]);
      SomeId(xs[i]);
      IdIff(xs[i], Id(xs[i]));
    }
    assert "" !in IdSet(xs);
    forall i, j | 0 <= i < j < |xs| ensures Id(xs[i]) != Id(xs[j]) {
      assert HoldsId(xs[i], Id(xs[i])) && HoldApart(xs[i], xs[j]);
    }
  }

  // ---- regrouping ---------------------------------------------------------------------

  /** A list with distinct non-blank ids is kept as it is. */
  lemma {:induction false} DedupFixed(xs: seq<Trace>)
    requires Distinct(xs)
    ensures Dedup(xs) == xs
  {
    if xs != [] {
      LastIsNew(xs);
      DedupFixed(xs[..|xs| - 1]);
      InitLast(xs);
    }
  }

  lemma LastIsNew(xs: seq<Trace>)
    requires xs != [] && Distinct(xs)
    ensures var n := |xs| - 1;
      Distinct(xs[..n]) && Id(xs[n]) != "" && Id(xs[n]) !in IdSet(xs[..n])
  {
    var n := |xs| - 1;
    InitLast(xs);
    IdSetSnoc(xs[..n], xs[n]);
    IdIn(xs, n);
    forall t | t in xs[..n] ensures Id(t) != Id(xs[n]) {
      var i :| 0 <= i < n && xs[i] == t;
    }
  }

  lemma DedupTwice(xs: seq<Trace>)
    ensures Dedup(Dedup(xs)) == Dedup(xs)
  {
    DedupIds(xs);
    DedupFixed(Dedup(xs));
  }

  lemma DedupLast(xs: seq<Trace>, ys: seq<Trace>)
    requires ys != []
    ensures var n := |ys| - 1; Dedup(xs + ys) == Keep(Dedup(xs + ys[..n]), ys[n])
  {
    var n := |ys| - 1;
    SplitLast(xs, ys);
    DedupSnoc(xs + ys[..n], ys[n]);
  }

  lemma {:induction false} DedupBefore(xs: seq<Trace>, ys: seq<Trace>)
    ensures Dedup(Dedup(xs) + ys) == Dedup(xs + ys)
  {
    if ys == [] {
      assert Dedup(xs) + ys == Dedup(xs) && xs + ys == xs;
      DedupTwice(xs);
    } else {
      var n := |ys| - 1;
      DedupBefore(xs, ys[..n]);
      DedupLast(xs, ys);
      DedupLast(Dedup(xs), ys);
    }
  }

  lemma {:induction false} DedupAfter(xs: seq<Trace>, ys: seq<Trace>)
    ensures Dedup(xs + Dedup(ys)) == Dedup(xs + ys)
  {
    if ys != [] {
      var n := |ys| - 1;
      var kept, t := Dedup(ys[..n]), ys[n];
      assert ys == ys[..n] + [t];
      DedupAfter(xs, ys[..n]);
      DedupLast(xs, ys);
      if Keep(kept, t) == kept {
        DedupIds(xs + ys[..n]);
        DedupIds(ys[..n]);
        IdSetAppend(xs, ys[..n]);
      } else {
        assert xs + (kept + [t]) == (xs + kept) + [t];
        DedupSnoc(xs + kept, t);
      }
    }
  }

  /** Merging merged groups is merging everything at once: `MergeTracesByID` is associative. */
  lemma MergeRegroups(a: seq<seq<Trace>>, b: seq<seq<Trace>>)
    ensures Merged([Merged(a), Merged(b)]) == Merged(a + b)
    ensures Merged([Merged(a)]) == Merged(a)
  {
    var xs, ys := Series.Flat(a), Series.Flat(b);
    Series.FlatAppend(a, b);
    Series.FlatStep([Merged(a), Merged(b)], 1);
    Series.FlatStep([Merged(a)], 0);
    assert [Merged(a)][..0] == [];
    assert [Merged(a), Merged(b)][..1] == [Merged(a)] && [Merged(a), Merged(b)][..2] == [Merged(a), Merged(b)];
    assert [Merged(a)][..1] == [Merged(a)];
    assert Series.Flat([Merged(a)]) == Merged(a);
    DedupTwice(xs);
    DedupBefore(xs, Dedup(ys));
    DedupAfter(xs, ys);
  }

  /** `MergeTracesByID`: a table of the first trace per id, and the order of the ids. */
  method MergeTracesByID(sets: seq<seq<Trace>>) returns (out: seq<Trace>)
    ensures out == Merged(sets)
  {
    var byID: map<string, Trace> := map[];
    var order: seq<string> := [];
    for i := 0 to |sets|
      invariant Recorded(byID, order, Dedup(Series.Flat(sets[..i])))
    {
      Series.FlatStep(sets, i);
      byID, order := RecordSet(byID, order, sets[i], Series.Flat(sets[..i]));
    }
    assert sets[..|sets|] == sets;
    out := InOrder(byID, order, Merged(sets));
  }

  method InOrder(byID: map<string, Trace>, order: seq<string>, ghost kept: seq<Trace>) returns (out: seq<Trace>)
    requires Recorded(byID, order, kept)
    ensures out == kept
  {
    out := [];
    for i := 0 to |order|
      invariant out == kept[..i]
    {
      out := out + [byID[order[i]]];
    }
  }

  /** Table and order show the traces kept so far. */
  ghost predicate Recorded(byID: map<string, Trace>, order: seq<string>, kept: seq<Trace>) {
    && order == Ids(kept)
    && byID.Keys == IdSet(kept)
    && forall i :: 0 <= i < |kept| ==> Id(kept[i]) in byID && byID[Id(kept[i])] == kept[i]
  }

  method RecordSet(byID: map<string, Trace>, order: seq<string>, batch: seq<Trace>, ghost xs: seq<Trace>)
    returns (table: map<string, Trace>, ids: seq<string>)
    requires Recorded(byID, order, Dedup(xs))
    ensures Recorded(table, ids, Dedup(xs + batch))
  {
    table, ids := byID, order;
    assert xs + batch[..0] == xs;
    for i := 0 to |batch|
      invariant Recorded(table, ids, Dedup(xs + batch[..i]))
    {
      DedupStep(xs, batch, i);
      table, ids := Record(table, ids, batch[i], Dedup(xs + batch[..i]));
    }
    assert batch[..|batch|] == batch;
  }

  lemma DedupStep(xs: seq<Trace>, batch: seq<Trace>, i: nat)
    requires i < |batch|
    ensures Dedup(xs + batch[..i + 1]) == Keep(Dedup(xs + batch[..i]), batch[i])
  {
    assert xs + batch[..i + 1] == (xs + batch[..i]) + [batch[i]];
    DedupSnoc(xs + batch[..i], batch[i]);
  }

  lemma RecordOne(byID: map<string, Trace>, order: seq<string>, t: Trace, kept: seq<Trace>)
    requires Recorded(byID, order, kept) && Id(t) !in byID
    ensures Recorded(byID[Id(t) := t], order + [Id(t)], kept + [t])
  {
    IdSetSnoc(kept, t);
    assert Ids(kept + [t]) == Ids(kept) + [Id(t)];
    forall i | 0 <= i < |kept| ensures Id(kept[i]) != Id(t) {
      IdIn(kept, i);
    }
  }

  method Record(byID: map<string, Trace>, order: seq<string>, t: Trace, ghost kept: seq<Trace>)
    returns (table: map<string, Trace>, ids: seq<string>)
    requires Recorded(byID, order, kept)
    ensures Recorded(table, ids, Keep(kept, t))
  {
    table, ids := byID, order;
    var id := Id(t);
    if id == "" {
      return;
    }
    if id in table {
      return;
    }
    RecordOne(byID, order, t, kept);
    table, ids := table[id := t], ids + [id];
  }

  // ---- buckets -----------------------------------------------------------------------------

  function Ceil(a: int, b: int): int
    requires b > 0
  {
    (a + b - 1) / b
  }

  function AutoTraceBucketSizeMs(rangeMs: int): int {
    if rangeMs <= 5 * 60 * 1000 then 60 * 1000
    else if rangeMs <= 30 * 60 * 1000 then 5 * 60 * 1000
    else if rangeMs <= 2 * 60 * 60 * 1000 then 15 * 60 * 1000
    else if rangeMs <= 6 * 60 * 60 * 1000 then 30 * 60 * 1000
    else if rangeMs <= 24 * 60 * 60 * 1000 then 2 * 60 * 60 * 1000
    else 6 * 60 * 60 * 1000
  }

  /** The bucket size used: the one asked for, or a wider one if that makes too many buckets. */
  function EffectiveBucketMs(rangeMs: int, bucketMs: int): (r: int)
    requires rangeMs > 0
    ensures r > 0
  {
    var wanted := if bucketMs <= 0 then AutoTraceBucketSizeMs(rangeMs) else bucketMs;
    if Ceil(rangeMs, wanted) > MAX_TRACE_BUCKETS then Ceil(rangeMs, MAX_TRACE_BUCKETS) else wanted
  }

  function RangeMs(startUs: int, endUs: int): int {
    Quot(endUs - startUs, 1000)
  }

  function BucketUs(startUs: int, endUs: int, bucketMs: int): (r: int)
    requires RangeMs(startUs, endUs) > 0
    ensures r > 0
  {
    EffectiveBucketMs(RangeMs(startUs, endUs), bucketMs) * 1000
  }

  function BucketsOf(startUs: int, endUs: int, bucketMs: int): seq<Chunk> {
    if RangeMs(startUs, endUs) <= 0 then []
    else Tiles(Floor(startUs, BucketUs(startUs, endUs, bucketMs)), endUs, BucketUs(startUs, endUs, bucketMs))
  }

  /** `ComputeTraceBuckets`. */
  method ComputeTraceBuckets(startUs: int, endUs: int, bucketMs: int) returns (out: seq<Chunk>)
    ensures out == BucketsOf(startUs, endUs, bucketMs)
  {
    if endUs <= startUs {
      return [];
    }
    var rangeMs := Quot(endUs - startUs, 1000);
    if rangeMs <= 0 {
      return [];
    }
    var effectiveBucketMs := bucketMs;
    if effectiveBucketMs <= 0 {
      effectiveBucketMs := AutoTraceBucketSizeMs(rangeMs);
    }
    var count := Ceil(rangeMs, effectiveBucketMs);
    if count > MAX_TRACE_BUCKETS {
      effectiveBucketMs := Ceil(rangeMs, MAX_TRACE_BUCKETS);
    }
    var bucketUs := effectiveBucketMs * 1000;
    var alignedStart := Quot(startUs, bucketUs) * bucketUs;
    out := [];
    var cursor := alignedStart;
    while cursor < endUs
      invariant out + Tiles(cursor, endUs, bucketUs) == Tiles(alignedStart, endUs, bucketUs)
      decreases endUs - cursor
    {
      TilesStep(out, cursor, endUs, bucketUs);
      out := out + [Chunk(cursor, cursor + bucketUs)];
      cursor := cursor + bucketUs;
    }
  }

  /** The window the buckets cover. */
  function BucketedEnd(startUs: int, endUs: int, bucketMs: int): int
    requires RangeMs(startUs, endUs) > 0
  {
    var b := BucketUs(startUs, endUs, bucketMs);
    Floor(startUs, b) + Ceil(endUs - Floor(startUs, b), b) * b
  }

  lemma CeilBounds(a: int, b: int)
    requires b > 0
    ensures a <= Ceil(a, b) * b < a + b
  {
  }

  /**
   * For every range of at least a millisecond on non-negative times, the buckets are back to
   * back, equal in size, aligned to it, and cover the range; a shorter one has none.
   */
  lemma BucketsTileRange(startUs: int, endUs: int, bucketMs: int)
    requires 0 <= startUs
    ensures BucketsOf(startUs, endUs, bucketMs) == [] <==> endUs < startUs + 1000
    ensures startUs + 1000 <= endUs ==>
      var b := BucketUs(startUs, endUs, bucketMs);
      var lo, hi := Floor(startUs, b), BucketedEnd(startUs, endUs, bucketMs);
      && lo <= startUs < lo + b && endUs <= hi < endUs + b
      && lo % b == 0 && hi % b == 0
      && TilesExactly(BucketsOf(startUs, endUs, bucketMs), lo, hi, b)
  {
    if startUs + 1000 <= endUs {
      var b := BucketUs(startUs, endUs, bucketMs);
      var lo, hi := Floor(startUs, b), BucketedEnd(startUs, endUs, bucketMs);
      CeilBounds(endUs - lo, b);
      MultipleMod(Ceil(endUs - lo, b), b);
      ModAdd(Ceil(endUs - lo, b) * b, lo, b);
      TilesRoundUp(lo, endUs, hi, b);
      TilesAreExact(lo, hi, b);
    }
  }

  /** The size in use gives at most 120 buckets' worth of whole milliseconds. */
  lemma SizeSuffices(rangeMs: int, bucketMs: int)
    requires rangeMs > 0
    ensures rangeMs <= 120 * EffectiveBucketMs(rangeMs, bucketMs)
  {
    var wanted := if bucketMs <= 0 then AutoTraceBucketSizeMs(rangeMs) else bucketMs;
    CeilBounds(rangeMs, wanted);
    CeilBounds(rangeMs, MAX_TRACE_BUCKETS);
    if Ceil(rangeMs, wanted) <= MAX_TRACE_BUCKETS {
      AtMostTimes(Ceil(rangeMs, wanted), MAX_TRACE_BUCKETS, wanted);
    }
  }

  lemma AtMostTimes(n: int, m: int, b: int)
    requires n <= m && b > 0
    ensures n * b <= m * b
  {
  }

  /** A size is used instead of the one asked for only if it must be, and then the least that does. */
  lemma WidensAsLittleAsPossible(rangeMs: int, bucketMs: int, other: int)
    requires rangeMs > 0 && bucketMs > 0
    ensures EffectiveBucketMs(rangeMs, bucketMs) == bucketMs <==> rangeMs <= 120 * bucketMs
    ensures EffectiveBucketMs(rangeMs, bucketMs) >= bucketMs
    ensures other >= bucketMs && rangeMs <= 120 * other ==> other >= EffectiveBucketMs(rangeMs, bucketMs)
  {
    CeilBounds(rangeMs, bucketMs);
    CeilBounds(rangeMs, MAX_TRACE_BUCKETS);
    SizeSuffices(rangeMs, bucketMs);
    if Ceil(rangeMs, bucketMs) > MAX_TRACE_BUCKETS {
      AtMostTimes(MAX_TRACE_BUCKETS, Ceil(rangeMs, bucketMs) - 1, bucketMs);
      assert (Ceil(rangeMs, bucketMs) - 1) * bucketMs == Ceil(rangeMs, bucketMs) * bucketMs - bucketMs;
    }
  }

  /** The size wanted: the one asked for, or else one by the length of the range in milliseconds. */
  function WantedMs(rangeMs: int, bucketMs: int): int {
    if bucketMs > 0 then bucketMs
    else if rangeMs <= 300_000 then 60_000
    else if rangeMs <= 1_800_000 then 300_000
    else if rangeMs <= 7_200_000 then 900_000
    else if rangeMs <= 21_600_000 then 1_800_000
    else if rangeMs <= 86_400_000 then 7_200_000
    else 21_600_000
  }

  lemma EffectiveIs(rangeMs: int, bucketMs: int)
    requires rangeMs > 0
    ensures EffectiveBucketMs(rangeMs, bucketMs) == EffectiveBucketMs(rangeMs, WantedMs(rangeMs, bucketMs))
  {
  }

  lemma WidenedMs(rangeMs: int, wanted: int)
    requires rangeMs > 120 * wanted > 0
    ensures 0 <= 120 * EffectiveBucketMs(rangeMs, wanted) - rangeMs < 120
  {
    WidensAsLittleAsPossible(rangeMs, wanted, wanted);
    CeilBounds(rangeMs, MAX_TRACE_BUCKETS);
  }

  lemma InMicroseconds(rangeMs: int, ms: int)
    ensures (ms * 1000) % 1000 == 0
    ensures 0 <= 120 * ms - rangeMs < 120 ==> 1000 * rangeMs <= 120 * (ms * 1000) < 1000 * rangeMs + 120_000
  {
  }

  /** How wide the buckets are: as wanted, unless 120 of these would not do; then the least that does. */
  lemma BucketWidth(startUs: int, endUs: int, bucketMs: int, i: nat)
    requires 0 <= startUs && startUs + 1000 <= endUs && i < |BucketsOf(startUs, endUs, bucketMs)|
    ensures var c := BucketsOf(startUs, endUs, bucketMs)[i];
      var range := (endUs - startUs) / 1000;
      var wanted := WantedMs(range, bucketMs);
      && (range <= 120 * wanted ==> c.end - c.start == 1000 * wanted)
      && (range > 120 * wanted ==> 1000 * range <= 120 * (c.end - c.start) < 1000 * range + 120_000)
      && (c.end - c.start) % 1000 == 0
  {
    var range := (endUs - startUs) / 1000;
    var wanted := WantedMs(range, bucketMs);
    var ms := EffectiveBucketMs(range, wanted);
    BucketIsWide(startUs, endUs, bucketMs, i);
    WidensAsLittleAsPossible(range, wanted, wanted);
    if range > 120 * wanted {
      WidenedMs(range, wanted);
    }
    InMicroseconds(range, ms);
  }

  lemma BucketIsWide(startUs: int, endUs: int, bucketMs: int, i: nat)
    requires 0 <= startUs && startUs + 1000 <= endUs && i < |BucketsOf(startUs, endUs, bucketMs)|
    ensures var c := BucketsOf(startUs, endUs, bucketMs)[i];
      var range := (endUs - startUs) / 1000;
      range > 0 && c.end - c.start == EffectiveBucketMs(range, WantedMs(range, bucketMs)) * 1000
  {
    BucketsTileRange(startUs, endUs, bucketMs);
    EffectiveIs((endUs - startUs) / 1000, bucketMs);
  }

  /**
   * However fine the size asked for, there are at most two buckets more than the limit; no more
   * than the limit exactly if the range ends within 120 buckets of its aligned start, which it
   * does if the start is aligned and the range is whole milliseconds.
   */
  lemma BucketCount(startUs: int, endUs: int, bucketMs: int)
    requires 0 <= startUs
    ensures |BucketsOf(startUs, endUs, bucketMs)| <= 122
    ensures startUs + 1000 <= endUs ==>
      startUs % BucketUs(startUs, endUs, bucketMs) == 0 && (endUs - startUs) % 1000 == 0 ==>
        |BucketsOf(startUs, endUs, bucketMs)| <= 120
    ensures startUs + 1000 <= endUs ==>
      var b := BucketUs(startUs, endUs, bucketMs);
      |BucketsOf(startUs, endUs, bucketMs)| <= 120 <==> endUs <= Floor(startUs, b) + 120 * b
  {
    if startUs + 1000 <= endUs {
      var b := BucketUs(startUs, endUs, bucketMs);
      BucketSpan(startUs, endUs, bucketMs, MAX_TRACE_BUCKETS);
      BucketSpan(startUs, endUs, bucketMs, MAX_TRACE_BUCKETS + 2);
      SpanWithin(startUs, endUs, bucketMs);
      if startUs % b == 0 {
        FloorOfAligned(startUs, b);
      }
    } else {
      BucketsTileRange(startUs, endUs, bucketMs);
    }
  }

  /** There are at most `m` buckets exactly if the range ends within `m` buckets of its aligned start. */
  lemma BucketSpan(startUs: int, endUs: int, bucketMs: int, m: nat)
    requires 0 <= startUs && startUs + 1000 <= endUs
    ensures var b := BucketUs(startUs, endUs, bucketMs);
      |BucketsOf(startUs, endUs, bucketMs)| <= m <==> endUs <= Floor(startUs, b) + m * b
  {
    var b := BucketUs(startUs, endUs, bucketMs);
    var lo, hi := Floor(startUs, b), BucketedEnd(startUs, endUs, bucketMs);
    var cs := BucketsOf(startUs, endUs, bucketMs);
    BucketsTileRange(startUs, endUs, bucketMs);
    ChunkStarts(cs, lo, hi, b);
    CountWithin(|cs|, m, b, hi - lo, endUs - lo);
  }

  /** How far the range reaches, in buckets of the size in use. */
  lemma SpanWithin(startUs: int, endUs: int, bucketMs: int)
    requires 0 <= startUs && startUs + 1000 <= endUs
    ensures var b := BucketUs(startUs, endUs, bucketMs);
      && endUs <= Floor(startUs, b) + (122) * b
      && ((endUs - startUs) % 1000 == 0 ==> endUs <= startUs + 120 * b)
  {
    SizeSuffices(RangeMs(startUs, endUs), bucketMs);
  }

  lemma FloorOfAligned(x: int, b: int)
    requires b > 0 && x >= 0 && x % b == 0
    ensures Floor(x, b) == x
  {
    assert x == (x / b) * b;
  }

  /** Pieces of size `b` that reach `need` with less than one to spare number at most `m` if `m` pieces do. */
  lemma CountWithin(n: nat, m: nat, b: int, span: int, need: int)
    requires b > 0 && n * b == span && need <= span < need + b
    ensures n <= m <==> need <= m * b
  {
    if n <= m {
      AtMostTimes(n, m, b);
    } else {
      assert (m + 1) * b == m * b + b;
      AtMostTimes(m + 1, n, b);
    }
  }

  /** The two extra buckets do occur, so the bound cannot be lowered. */
  lemma BucketCountIsTight()
    ensures |BucketsOf(999, 121998, 1)| == 122
  {
    assert RangeMs(999, 121998) == 120 && BucketUs(999, 121998, 1) == 1000 && Floor(999, 1000) == 0;
    BucketSpan(999, 121998, 1, MAX_TRACE_BUCKETS + 1);
    BucketSpan(999, 121998, 1, MAX_TRACE_BUCKETS + 2);
  }
}
