/** Hit counts by the `fields` values themselves: which rows are added up, and what a row counts. */
module HitsFields {
  import opened Base
  import opened Sorting
  import opened Labels
  import opened Tiers
  import opened Hits
  import opened HitsLaws
  import opened CacheAside
  import opened Windows
  import opened WindowCache
  import opened HitsCache
  import opened HitsMeaning
  import Series

  // ---- which rows belong together -----------------------------------------------------------

  function Raw(f: Fields): string
    requires !f.Object?
  {
    if f.Text? then f.text else f.encoded
  }

  /** The same text or the same labels; an object is the same as a text that spells its labels. */
  ghost predicate Same(f: Fields, g: Fields) {
    if f.Object? && g.Object? then f.members == g.members
    else if f.Object? then KeyOf(f.members) == Raw(g)
    else if g.Object? then Raw(f) == KeyOf(g.members)
    else Raw(f) == Raw(g)
  }

  ghost predicate PlainFields(f: Fields) {
    f.Object? ==> PlainNames(f.members) && PlainValues(f.members)
  }

  ghost predicate PlainRows(xs: Payload) {
    forall s :: s in xs ==> PlainFields(s.fields)
  }

  /** On plain fields the key tells apart exactly what is not the same. */
  lemma FieldsKeyIff(f: Fields, g: Fields)
    requires PlainFields(f) && PlainFields(g)
    ensures FieldsKey(f) == FieldsKey(g) <==> Same(f, g)
  {
    if f.Object? && g.Object? {
      SeriesKeyInjective(f.members, g.members);
    }
  }

  // ---- what a row counts ----------------------------------------------------------------------

  /** The values at selected timestamps among the first `n` of a row. */
  function Tally(s: HitsSeries, sel: int -> bool, n: nat): real
    requires n <= |s.stamps| && n <= |s.values|
  {
    if n == 0 then 0.0
    else
      Tally(s, sel, n - 1) + if s.stamps[n - 1].Sec? && sel(s.stamps[n - 1].seconds) then s.values[n - 1] else 0.0
  }

  /** A row counts as far as both its lists reach. */
  function Counted(s: HitsSeries, sel: int -> bool): real {
    Tally(s, sel, if |s.stamps| <= |s.values| then |s.stamps| else |s.values|)
  }

  ghost predicate Lists(s: HitsSeries, t: int) {
    exists j :: 0 <= j < |s.stamps| && j < |s.values| && s.stamps[j] == Sec(t)
  }

  lemma {:induction false} TallyIs(s: HitsSeries, sel: int -> bool, n: nat)
    requires n <= |s.stamps| && n <= |s.values|
    ensures Tally(s, sel, n) == SumWhere(Pairs(s.stamps[..n], s.values[..n]), sel)
  {
    if n > 0 {
      TallyIs(s, sel, n - 1);
      PairsSnoc(s.stamps, s.values, n - 1);
      var before := Pairs(s.stamps[..n - 1], s.values[..n - 1]);
      if s.stamps[n - 1].Sec? {
        SumWhereAppend(before, [Hit(s.stamps[n - 1].seconds, s.values[n - 1])], sel);
      } else {
        assert before + [] == before;
      }
    }
  }

  lemma CountedIs(s: HitsSeries, sel: int -> bool)
    ensures Counted(s, sel) == SumWhere(HitsOf(s), sel)
  {
    var n := if |s.stamps| <= |s.values| then |s.stamps| else |s.values|;
    TallyIs(s, sel, n);
    PairsShorter(s.stamps, s.values, n);
  }

  lemma {:induction false} PairsTimes(stamps: seq<Stamp>, values: seq<real>, t: int)
    ensures t in Times(Pairs(stamps, values)) <==>
      exists j :: 0 <= j < |stamps| && j < |values| && stamps[j] == Sec(t)
  {
    if stamps != [] && values != [] {
      PairsTimes(stamps[1..], values[1..], t);
      var first := if stamps[0].Sec? then [Hit(stamps[0].seconds, values[0])] else [];
      TimesAppend(first, Pairs(stamps[1..], values[1..]));
      if exists j :: 0 <= j < |stamps| && j < |values| && stamps[j] == Sec(t) {
        var j :| 0 <= j < |stamps| && j < |values| && stamps[j] == Sec(t);
        if j == 0 {
          assert first[0].ts == t;
        } else {
          assert stamps[1..][j - 1] == Sec(t);
        }
      }
      if t in Times(Pairs(stamps[1..], values[1..])) {
        var j :| 0 <= j < |stamps[1..]| && j < |values[1..]| && stamps[1..][j] == Sec(t);
        assert stamps[j + 1] == Sec(t);
      }
    }
  }

  lemma ListsIff(s: HitsSeries, t: int)
    ensures Lists(s, t) <==> t in Times(HitsOf(s))
  {
    PairsTimes(s.stamps, s.values, t);
  }

  /** What is given for a `fields` value, at selected timestamps. */
  ghost function FieldsCounted(xs: Payload, f: Fields, sel: int -> bool): real {
    if xs == [] then 0.0
    else
      FieldsCounted(xs[..|xs| - 1], f, sel) +
      if Same(xs[|xs| - 1].fields, f) then Counted(xs[|xs| - 1], sel) else 0.0
  }

  lemma {:induction false} FieldsCountedIs(xs: Payload, f: Fields, sel: int -> bool)
    requires PlainRows(xs) && PlainFields(f)
    ensures FieldsCounted(xs, f, sel) == Shown(xs, FieldsKey(f), sel)
  {
    if xs != [] {
      var n := |xs| - 1;
      InitLast(xs);
      FieldsCountedIs(xs[..n], f, sel);
      ShownSnoc(xs[..n], xs[n], FieldsKey(f), sel);
      FieldsKeyIff(xs[n].fields, f);
      CountedIs(xs[n], sel);
    }
  }

  lemma {:induction false} GroupTimes(xs: Payload, f: Fields, t: int)
    requires PlainRows(xs) && PlainFields(f)
    ensures t in Times(Group(xs, FieldsKey(f))) <==> exists s :: s in xs && Same(s.fields, f) && Lists(s, t)
  {
    if xs != [] {
      var n := |xs| - 1;
      InitLast(xs);
      GroupTimes(xs[..n], f, t);
      FieldsKeyIff(xs[n].fields, f);
      ListsIff(xs[n], t);
      TimesAppend(Group(xs[..n], FieldsKey(f)), if Same(xs[n].fields, f) then HitsOf(xs[n]) else []);
    }
  }

  // ---- the merge ---------------------------------------------------------------------------------

  /** The first of the rows that belong together. */
  ghost predicate FirstOf(xs: Payload, f: Fields, j: int) {
    0 <= j < |xs| && xs[j].fields == f && forall p :: 0 <= p < j ==> !Same(xs[p].fields, f)
  }

  lemma {:induction false} FirstFieldsAt(xs: Payload, k: string) returns (j: nat)
    requires k in Keys(xs)
    ensures j < |xs| && FirstFields(xs, k) == xs[j].fields && FieldsKey(xs[j].fields) == k
    ensures forall p :: 0 <= p < j ==> FieldsKey(xs[p].fields) != k
  {
    if FieldsKey(xs[0].fields) == k {
      j := 0;
    } else {
      assert xs == [xs[0]] + xs[1..];
      j := FirstFieldsAt(xs[1..], k);
      forall p | 0 <= p < j + 1 ensures FieldsKey(xs[p].fields) != k {
        assert p > 0 ==> xs[p] == xs[1..][p - 1];
      }
      j := j + 1;
    }
  }

  /** The stamps of a row can all be read, and ascend; there is one value each. */
  predicate AscendingStamps(s: HitsSeries) {
    && |s.stamps| == |s.values| && (forall i :: 0 <= i < |s.stamps| ==> s.stamps[i].Sec?)
    && forall i, j :: 0 <= i < j < |s.stamps| ==> s.stamps[i].seconds < s.stamps[j].seconds
  }

  /** Texts are listed in ascending order, and so are objects by their series keys. */
  ghost predicate InOrder(f: Fields, g: Fields) {
    if f.Object? && g.Object? then Before(KeyOf(f.members), KeyOf(g.members))
    else !f.Object? && !g.Object? ==> Before(Raw(f), Raw(g))
  }

  /** A row of the merge: the fields of the first row given of its kind, and what all of them count. */
  ghost predicate AddsUp(xs: Payload, row: HitsSeries) {
    && (exists j :: FirstOf(xs, row.fields, j))
    && AscendingStamps(row)
    && (forall t :: Lists(row, t) <==> exists s :: s in xs && Same(s.fields, row.fields) && Lists(s, t))
    && (forall sel :: Counted(row, sel) == FieldsCounted(xs, row.fields, sel))
    && row.total == FieldsCounted(xs, row.fields, (t: int) => true)
  }

  lemma WrittenStamps(r: Row)
    ensures AscendingStamps(Written(r))
  {
    var times := AscInts(r.cells.Keys);
    forall i, j | 0 <= i < j < |times| ensures times[i] < times[j] {
      assert IntLt(times[i], times[j]);
    }
  }

  lemma {:induction false} SelectsAll(hs: seq<Hit>)
    ensures SumWhere(hs, Everything) == SumWhere(hs, (t: int) => true)
  {
    if hs != [] {
      SelectsAll(hs[..|hs| - 1]);
    }
  }

  lemma RowAddsUp(sets: seq<Payload>, i: nat)
    requires PlainRows(Series.Flat(sets)) && i < |Merged(sets)|
    ensures PlainFields(Merged(sets)[i].fields) && AddsUp(Series.Flat(sets), Merged(sets)[i])
  {
    var xs, row := Series.Flat(sets), Merged(sets)[i];
    var f, k := row.fields, FieldsKey(row.fields);
    MergedRow(sets, i);
    var j := FirstFieldsAt(xs, k);
    assert xs[j] in xs;
    forall p | 0 <= p < j ensures !Same(xs[p].fields, f) {
      assert xs[p] in xs;
      FieldsKeyIff(xs[p].fields, f);
    }
    assert FirstOf(xs, f, j);
    RowLists(xs, row);
    RowCounts(xs, row);
    RowIsWritten(sets, i);
    FieldsCountedIs(xs, f, (t: int) => true);
    SelectsAll(Group(xs, k));
  }

  lemma RowIsWritten(sets: seq<Payload>, i: nat)
    requires i < |Merged(sets)|
    ensures var xs, row := Series.Flat(sets), Merged(sets)[i];
      AscendingStamps(row) && row.total == SumWhere(Group(xs, FieldsKey(row.fields)), Everything)
  {
    var xs := Series.Flat(sets);
    var names := AscNames(Keys(xs));
    assert names[i] in Elems(names);
    FirstFieldsKey(xs, names[i]);
    WrittenStamps(RowFor(xs, names[i]));
    WrittenMass(RowFor(xs, names[i]), Group(xs, names[i]));
  }

  lemma RowLists(xs: Payload, row: HitsSeries)
    requires PlainRows(xs) && PlainFields(row.fields) && Alike(HitsOf(row), Group(xs, FieldsKey(row.fields)))
    ensures forall t :: Lists(row, t) <==> exists s :: s in xs && Same(s.fields, row.fields) && Lists(s, t)
  {
    forall t ensures Lists(row, t) <==> exists s :: s in xs && Same(s.fields, row.fields) && Lists(s, t) {
      ListsIff(row, t);
      GroupTimes(xs, row.fields, t);
    }
  }

  lemma RowCounts(xs: Payload, row: HitsSeries)
    requires PlainRows(xs) && PlainFields(row.fields) && Alike(HitsOf(row), Group(xs, FieldsKey(row.fields)))
    ensures forall sel :: Counted(row, sel) == FieldsCounted(xs, row.fields, sel)
  {
    forall sel ensures Counted(row, sel) == FieldsCounted(xs, row.fields, sel) {
      CountedIs(row, sel);
      FieldsCountedIs(xs, row.fields, sel);
    }
  }

  /** No two rows of the same fields, and rows in order. */
  ghost predicate KeptApart(out: Payload) {
    forall i, j :: 0 <= i < j < |out| ==>
      !Same(out[i].fields, out[j].fields) && InOrder(out[i].fields, out[j].fields)
  }

  ghost predicate HasRow(out: Payload, f: Fields) {
    exists i :: 0 <= i < |out| && Same(out[i].fields, f)
  }

  /**
   * The merge by the fields given, for objects with plain labels: one row for all that are the
   * same, and none for others; each row adds up all that is given for its fields.
   */
  lemma MergeKeepsFieldsApart(sets: seq<Payload>)
    requires PlainRows(Series.Flat(sets))
    ensures var xs, out := Series.Flat(sets), Merged(sets);
      && KeptApart(out) && PlainRows(out)
      && (forall row :: row in out ==> AddsUp(xs, row))
      && forall s :: s in xs ==> HasRow(out, s.fields)
  {
    var xs, out := Series.Flat(sets), Merged(sets);
    forall row | row in out ensures PlainFields(row.fields) && AddsUp(xs, row) {
      var i :| 0 <= i < |out| && out[i] == row;
      RowAddsUp(sets, i);
    }
    forall i, j | 0 <= i < j < |out|
      ensures !Same(out[i].fields, out[j].fields) && InOrder(out[i].fields, out[j].fields)
    {
      MergedRow(sets, i);
      BeforeIrreflexive(FieldsKey(out[i].fields));
      RowAddsUp(sets, i);
      RowAddsUp(sets, j);
      FieldsKeyIff(out[i].fields, out[j].fields);
    }
    forall s | s in xs ensures HasRow(out, s.fields) {
      RowOf(sets, s);
    }
  }

  lemma RowOf(sets: seq<Payload>, s: HitsSeries)
    requires PlainRows(Series.Flat(sets)) && s in Series.Flat(sets)
    ensures HasRow(Merged(sets), s.fields)
  {
    var xs, k := Series.Flat(sets), FieldsKey(s.fields);
    var names := AscNames(Keys(xs));
    assert k in Elems(names);
    var i :| 0 <= i < |names| && names[i] == k;
    FirstFieldsKey(xs, k);
    RowAddsUp(sets, i);
    FieldsKeyIff(Merged(sets)[i].fields, s.fields);
  }

  /** Two rows given share a row of the merge if and only if their fields are the same. */
  lemma ShareRowIff(sets: seq<Payload>, s: HitsSeries, u: HitsSeries)
    requires PlainRows(Series.Flat(sets)) && s in Series.Flat(sets) && u in Series.Flat(sets)
    ensures Same(s.fields, u.fields) <==>
      exists row :: row in Merged(sets) && Same(row.fields, s.fields) && Same(row.fields, u.fields)
  {
    var out := Merged(sets);
    MergeKeepsFieldsApart(sets);
    FieldsKeyIff(s.fields, u.fields);
    forall row | row in out
      ensures Same(row.fields, s.fields) <==> FieldsKey(row.fields) == FieldsKey(s.fields)
      ensures Same(row.fields, u.fields) <==> FieldsKey(row.fields) == FieldsKey(u.fields)
    {
      FieldsKeyIff(row.fields, s.fields);
      FieldsKeyIff(row.fields, u.fields);
    }
    var i :| 0 <= i < |out| && Same(out[i].fields, s.fields);
    assert out[i] in out;
  }

  // ---- downsampling ----------------------------------------------------------------------------------

  /** The seconds of a bucket, those before 1970 by the end nearer to it. */
  function InBucket(b: int, step: int): int -> bool
    requires step > 0
  {
    t => b % step == 0 && if t >= 0 then b <= t < b + step else b - step < t <= b
  }

  lemma InBucketIff(t: int, b: int, step: int)
    requires step > 0
    ensures InBucket(b, step)(t) <==> Floor(t, step) == b
  {
    if t >= 0 {
      NatBucketIff(t, b, step);
    } else {
      NatBucketIff(-t, -b, step);
      MirrorFloor(-t, step);
      MirrorMod(b, step);
    }
  }

  lemma MirrorMod(b: int, step: int)
    requires step > 0
    ensures b % step == 0 <==> (-b) % step == 0
  {
    if b % step == 0 {
      ModIs(-b, -(b / step), 0, step);
    }
    if (-b) % step == 0 {
      ModIs(b, -((-b) / step), 0, step);
    }
  }

  lemma NatBucketIff(t: int, b: int, step: int)
    requires step > 0 && t >= 0
    ensures b % step == 0 && b <= t < b + step <==> Floor(t, step) == b
  {
    var q := t / step;
    assert t == q * step + t % step;
    if Floor(t, step) == b {
      ModIs(b, q, 0, step);
    }
    if b % step == 0 && b <= t < b + step {
      ModIs(t, b / step, t - b, step);
    }
  }

  /** A row downsampled: in each bucket what the row counts there, and a total of everything. */
  lemma DownsampledCounts(xs: Payload, i: nat, step: int, b: int)
    requires i < |xs| && step > 0
    ensures var row := Downsampled(xs, step)[i];
      && row.fields == xs[i].fields && AscendingStamps(row)
      && Counted(row, t => t == b) == Counted(xs[i], InBucket(b, step))
      && (Lists(row, b) <==> exists t :: Lists(xs[i], t) && InBucket(b, step)(t))
      && row.total == Counted(xs[i], (t: int) => true)
  {
    var row, hits := Downsampled(xs, step)[i], HitsOf(xs[i]);
    DownsampledRow(xs, i, step, b);
    CountedIs(row, t => t == b);
    SameSelection(HitsOf(row), Exactly(b), t => t == b);
    CountedIs(xs[i], InBucket(b, step));
    forall t ensures InBucket(b, step)(t) <==> Floor(t, step) == b {
      InBucketIff(t, b, step);
    }
    SameSelection(hits, Bucketed(Exactly(b), step), InBucket(b, step));
    ListsIff(row, b);
    forall t ensures Lists(xs[i], t) <==> t in Times(hits) {
      ListsIff(xs[i], t);
    }
    WrittenStamps(Row(xs[i].fields, CellsOf(Rebucket(hits, step))));
    CoarseMass(xs[i], step);
    CountedIs(xs[i], (t: int) => true);
    SelectsAll(hits);
  }

  // ---- end to end ------------------------------------------------------------------------------------

  /** A log line: the fields it is counted under, and its second. */
  datatype Line = Line(fields: Fields, at: int)

  /** How many lines of the same fields fall in a window, at seconds that are selected. */
  ghost function LinesOf(lines: seq<Line>, f: Fields, lo: int, hi: int, sel: int -> bool): nat {
    if lines == [] then 0
    else
      var l := lines[|lines| - 1];
      LinesOf(lines[..|lines| - 1], f, lo, hi, sel) + if Same(l.fields, f) && lo <= l.at < hi && sel(l.at) then 1 else 0
  }

  ghost predicate PlainLines(lines: seq<Line>) {
    forall l :: l in lines ==> PlainFields(l.fields)
  }

  /**
   * For this scope the backend reports, for each `fields` value and bucket, how many lines of the
   * window it is asked about fall in it.
   */
  ghost predicate CountsLines(secs: StepParser, backend: Backend, scope: Scope, lines: seq<Line>) {
    forall t, s, e, step :: s < e && secs(step) > 0 ==>
      LineReply(backend(scope, t, s, e, step), lines, s, e, secs(step))
  }

  ghost predicate LineReply(r: Reply<Payload>, lines: seq<Line>, s: int, e: int, step: int)
    requires step > 0
  {
    Usable(r) && PlainRows(r.raw.payload) && RowsCount(r.raw.payload, lines, s, e, step)
  }

  ghost predicate RowsCount(xs: Payload, lines: seq<Line>, s: int, e: int, step: int)
    requires step > 0
  {
    forall f, b :: PlainFields(f) ==> CountsIn(xs, lines, f, b, s, e, step)
  }

  ghost predicate CountsIn(xs: Payload, lines: seq<Line>, f: Fields, b: int, s: int, e: int, step: int)
    requires step > 0
  {
    FieldsCounted(xs, f, Exactly(b)) == LinesOf(lines, f, s, e, InBucket(b, step)) as real
  }

  /** The lines by the key of their fields. */
  ghost function KeyedLines(lines: seq<Line>): (r: seq<LogEvent>)
    ensures |r| == |lines|
    ensures forall i :: 0 <= i < |r| ==> r[i] == LogEvent(FieldsKey(lines[i].fields), lines[i].at)
  {
    seq(|lines|, i requires 0 <= i < |lines| => LogEvent(FieldsKey(lines[i].fields), lines[i].at))
  }

  lemma {:induction false} LinesKeyed(lines: seq<Line>, f: Fields, lo: int, hi: int, sel: int -> bool, alt: int -> bool)
    requires PlainLines(lines) && PlainFields(f) && forall t :: sel(t) == alt(t)
    ensures LinesOf(lines, f, lo, hi, sel) == KeyCount(KeyedLines(lines), FieldsKey(f), lo, hi, alt)
  {
    if lines != [] {
      var n := |lines| - 1;
      InitLast(lines);
      LinesKeyed(lines[..n], f, lo, hi, sel, alt);
      assert KeyedLines(lines)[..n] == KeyedLines(lines[..n]);
      FieldsKeyIff(lines[n].fields, f);
    }
  }

  /** A reply that counts by fields counts by keys. */
  lemma RowsCountKeys(xs: Payload, lines: seq<Line>, s: int, e: int, step: int)
    requires step > 0 && PlainRows(xs) && PlainLines(lines) && RowsCount(xs, lines, s, e, step)
    ensures CountsBuckets(xs, KeyedLines(lines), s, e, step)
  {
    forall k, b
      ensures Shown(xs, k, Exactly(b)) == KeyCount(KeyedLines(lines), k, s, e, Bucketed(Exactly(b), step)) as real
    {
      var f := Text(k);
      assert CountsIn(xs, lines, f, b, s, e, step);
      FieldsCountedIs(xs, f, Exactly(b));
      forall t ensures InBucket(b, step)(t) == Bucketed(Exactly(b), step)(t) {
        InBucketIff(t, b, step);
      }
      LinesKeyed(lines, f, s, e, InBucket(b, step), Bucketed(Exactly(b), step));
    }
  }

  lemma CountsKeys(secs: StepParser, backend: Backend, scope: Scope, lines: seq<Line>)
    requires PlainLines(lines) && CountsLines(secs, backend, scope, lines)
    ensures BucketsEvents(secs, backend, scope, KeyedLines(lines))
  {
    forall t, s, e, step | s < e && secs(step) > 0
      ensures BucketReply(backend(scope, t, s, e, step), KeyedLines(lines), s, e, secs(step))
    {
      var r := backend(scope, t, s, e, step);
      assert LineReply(r, lines, s, e, secs(step));
      RowsCountKeys(r.raw.payload, lines, s, e, secs(step));
    }
  }

  /** A key with one row shows what the row counts. */
  lemma {:induction false} OneRowShows(xs: Payload, i: nat, sel: int -> bool)
    requires OneRowPerKey(xs) && i < |xs|
    ensures Shown(xs, FieldsKey(xs[i].fields), sel) == Counted(xs[i], sel)
  {
    var n, k := |xs| - 1, FieldsKey(xs[i].fields);
    InitLast(xs);
    ShownSnoc(xs[..n], xs[n], k, sel);
    CountedIs(xs[i], sel);
    if i == n {
      forall s | s in xs[..n] ensures FieldsKey(s.fields) != k {
        var j :| 0 <= j < n && xs[j] == s;
      }
      NoGroup(xs[..n], k);
    } else {
      OneRowShows(xs[..n], i, sel);
    }
  }

  lemma ShownHasRow(xs: Payload, f: Fields, sel: int -> bool)
    requires PlainRows(xs) && PlainFields(f) && Shown(xs, FieldsKey(f), sel) != 0.0
    ensures HasRow(xs, f)
  {
    if FieldsKey(f) !in Keys(xs) {
      NoGroup(xs, FieldsKey(f));
    }
    var i :| 0 <= i < |xs| && FieldsKey(xs[i].fields) == FieldsKey(f);
    FieldsKeyIff(xs[i].fields, f);
  }

  /** The rows of an answer: plain and apart, with totals. */
  ghost predicate WellFormed(out: Payload) {
    PlainRows(out) && KeptApart(out) && forall row :: row in out ==> HasTotal(row)
  }

  ghost predicate HasTotal(row: HitsSeries) {
    AscendingStamps(row) && row.total == Counted(row, (t: int) => true)
  }

  lemma WrittenTotal(r: Row, hs: seq<Hit>)
    requires r.cells == CellsOf(hs)
    ensures HasTotal(Written(r))
  {
    WrittenStamps(r);
    WrittenMass(r, hs);
    CountedIs(Written(r), (t: int) => true);
    SelectsAll(HitsOf(Written(r)));
  }

  lemma MergeIsWellFormed(secs: StepParser, effective: string, fetched: string, sets: seq<Payload>)
    requires secs(fetched) > 0 && PlainRows(Series.Flat(sets))
    ensures WellFormed(Merge(secs, effective, fetched, sets))
  {
    var xs, merged, out := Series.Flat(sets), Merged(sets), Merge(secs, effective, fetched, sets);
    MergeKeepsFieldsApart(sets);
    forall row | row in out ensures PlainFields(row.fields) && HasTotal(row) {
      var i :| 0 <= i < |out| && out[i] == row;
      assert merged[i] in merged;
      if secs(effective) > secs(fetched) {
        var hs := Rebucket(HitsOf(merged[i]), secs(effective));
        WrittenTotal(Row(merged[i].fields, CellsOf(hs)), hs);
      } else {
        var k := AscNames(Keys(xs))[i];
        WrittenTotal(RowFor(xs, k), Group(xs, k));
      }
    }
  }

  lemma {:induction false} FlatIsPlain(sets: seq<Payload>)
    requires forall i :: 0 <= i < |sets| ==> PlainRows(sets[i])
    ensures PlainRows(Series.Flat(sets))
  {
    if sets != [] {
      var n := |sets| - 1;
      FlatIsPlain(sets[..n]);
      Series.FlatStep(sets, n);
      assert sets[..n + 1] == sets;
    }
  }

  lemma FetchedArePlain(secs: StepParser, backend: Backend, a: HitsAsk, lines: seq<Line>, times: seq<int>,
                        sets: seq<Payload>)
    requires secs(FetchedStep(secs, a)) > 0 && Proper(a.start, a.end) && CountsLines(secs, backend, a.scope, lines)
    requires FetchedReplies(secs, backend, a, times, sets)
    ensures PlainRows(Series.Flat(sets))
  {
    var cs, f := ChunksOf(a.start, a.end), FetchedStep(secs, a);
    ChunksTileAlignedWindow(a.start, a.end);
    forall i | 0 <= i < |sets| ensures PlainRows(sets[i]) {
      assert ReplyIs(secs, backend, a, cs[i], times[i], sets[i]);
      assert LineReply(backend(a.scope, times[i], cs[i].start, cs[i].end, f), lines, cs[i].start, cs[i].end, secs(f));
    }
    FlatIsPlain(sets);
  }

  /** Steps above the usual one are reached in two passes. */
  ghost predicate FallsIn(t: int, b: int, usual: int, step: int)
    requires usual > 0 && step > 0
  {
    if step > usual then exists c :: InBucket(c, usual)(t) && InBucket(b, step)(c) else InBucket(b, step)(t)
  }

  /** The seconds counted in bucket `b` of an answer. */
  ghost function Falling(b: int, usual: int, step: int): int -> bool
    requires usual > 0 && step > 0
  {
    t => FallsIn(t, b, usual, step)
  }

  lemma FallsInIs(secs: StepParser, a: HitsAsk, step: int, t: int, b: int)
    requires ReadsCanonicalSteps(secs) && AsksFor(secs, a, step)
    ensures step > 0 && secs(FetchedStep(secs, a)) > 0
    ensures FallsIn(t, b, UsualStep(a.end - a.start), step) <==> AnswerBucket(secs, a, t) == b
  {
    StepInUse(secs, a, step);
    FetchedStepIsPositive(secs, a);
    var usual := UsualStep(a.end - a.start);
    if step > usual {
      InBucketIff(t, Floor(t, usual), usual);
      InBucketIff(Floor(t, usual), b, step);
      forall c | InBucket(c, usual)(t) && InBucket(b, step)(c) ensures Floor(Floor(t, usual), step) == b {
        InBucketIff(t, c, usual);
      }
    } else {
      InBucketIff(t, b, step);
    }
  }

  /** The two passes put every second in its bucket exactly for multiples of the usual step. */
  lemma FallsInAsAskedIff(usual: int, step: int)
    requires usual > 0 && step > 0
    ensures (forall t, b :: FallsIn(t, b, usual, step) <==> InBucket(b, step)(t)) <==>
      step <= usual || step % usual == 0
  {
    if step > usual {
      if step % usual == 0 {
        forall t, b ensures FallsIn(t, b, usual, step) <==> InBucket(b, step)(t) {
          TwoPasses(t, b, usual, step);
          FloorFloor(t, usual, step);
        }
      } else {
        TwiceIsEarlier(usual, step);
        TwoPasses(step, 0, usual, step);
        assert FallsIn(step, 0, usual, step) && !InBucket(0, step)(step);
      }
    }
  }

  lemma TwoPasses(t: int, b: int, usual: int, step: int)
    requires 0 < usual < step
    ensures FallsIn(t, b, usual, step) <==> Floor(Floor(t, usual), step) == b
    ensures InBucket(b, step)(t) <==> Floor(t, step) == b
  {
    InBucketIff(t, b, step);
    InBucketIff(t, Floor(t, usual), usual);
    InBucketIff(Floor(t, usual), b, step);
    forall c | InBucket(c, usual)(t) && InBucket(b, step)(c) ensures Floor(Floor(t, usual), step) == b {
      InBucketIff(t, c, usual);
    }
  }

  /** A row counts, bucket by bucket and as its total, the lines of a window whose fields are its own. */
  ghost predicate CountsOwn(row: HitsSeries, lines: seq<Line>, lo: int, hi: int, usual: int, step: int)
    requires usual > 0 && step > 0
  {
    && (forall b :: Counted(row, Exactly(b)) == LinesOf(lines, row.fields, lo, hi, Falling(b, usual, step)) as real)
    && row.total == LinesOf(lines, row.fields, lo, hi, (t: int) => true) as real
  }

  /**
   * After any run of harmless requests an answer has one row for all lines of the aligned window
   * with the same fields, and each row counts exactly the lines with its fields, in buckets of the
   * step asked for, or of 15, 30, 60 or 300 seconds if none can be read.
   */
  lemma HitsCountLines(secs: StepParser, backend: Backend, start: int, run: seq<HitsEvent>, a: HitsAsk,
                       faults: Faults<HitsKey>, lines: seq<Line>, step: int)
    returns (out: Payload)
    requires ReadsCanonicalSteps(secs) && LegalRun(HitsSystem(secs, backend), run)
    requires Proper(a.start, a.end) && !faults.getFails && !faults.batchFails
    requires PlainLines(lines) && CountsLines(secs, backend, a.scope, lines) && AsksFor(secs, a, step)
    ensures var sys := HitsSystem(secs, backend);
      var w := Run(sys, start, run);
      Serve(sys, w.store, w.now, faults, a).0 == Answer(Parsed(out))
    ensures step > 0 && WellFormed(out)
    ensures var (lo, hi) := Aligned(a.start, a.end);
      && (forall row :: row in out ==> CountsOwn(row, lines, lo, hi, UsualStep(a.end - a.start), step))
      && forall l :: l in lines && lo <= l.at < hi ==> HasRow(out, l.fields)
  {
    var events, f := KeyedLines(lines), FetchedStep(secs, a);
    FetchedStepIsPositive(secs, a);
    StepInUse(secs, a, step);
    CountsKeys(secs, backend, a.scope, lines);
    BucketsAreUsable(secs, backend, a.scope, events);
    var times, sets := AnswerOfReplies(secs, backend, HitsKind(secs), start, run, a, faults);
    out := Merge(secs, Effective(secs, a), f, sets);
    FetchedCountBuckets(secs, backend, a, events, times, sets);
    FetchedArePlain(secs, backend, a, lines, times, sets);
    MergeHasOneRowPerKey(secs, Effective(secs, a), f, sets);
    MergeIsWellFormed(secs, Effective(secs, a), f, sets);
    AnswerShowsLines(secs, a, lines, sets, step);
    var (lo, hi) := Aligned(a.start, a.end);
    RowsCountOwn(out, lines, lo, hi, UsualStep(a.end - a.start), step);
  }

  lemma {:induction false} CountsALine(lines: seq<Line>, l: Line, lo: int, hi: int)
    requires l in lines && lo <= l.at < hi
    ensures LinesOf(lines, l.fields, lo, hi, (t: int) => true) > 0
  {
    var n := |lines| - 1;
    InitLast(lines);
    if lines[n] != l {
      CountsALine(lines[..n], l, lo, hi);
    }
  }

  lemma AnswerShows(secs: StepParser, a: HitsAsk, lines: seq<Line>, sets: seq<Payload>, f: Fields, sel: int -> bool,
                    alt: int -> bool)
    requires secs(FetchedStep(secs, a)) > 0 && Proper(a.start, a.end) && PlainLines(lines) && PlainFields(f)
    requires ChunksCount(a, sets, KeyedLines(lines), secs(FetchedStep(secs, a)))
    requires forall t :: alt(t) == InAnswer(secs, a, sel)(t)
    ensures var (lo, hi) := Aligned(a.start, a.end);
      Shown(Merge(secs, Effective(secs, a), FetchedStep(secs, a), sets), FieldsKey(f), sel) ==
        LinesOf(lines, f, lo, hi, alt) as real
  {
    var (lo, hi) := Aligned(a.start, a.end);
    AnswerCounts(secs, a, KeyedLines(lines), sets, FieldsKey(f), sel);
    LinesKeyed(lines, f, lo, hi, alt, InAnswer(secs, a, sel));
  }

  /** What is shown for some fields is the lines of a window with these fields. */
  ghost predicate ShowsLines(out: Payload, f: Fields, sel: int -> bool, lines: seq<Line>, lo: int, hi: int,
                             alt: int -> bool) {
    Shown(out, FieldsKey(f), sel) == LinesOf(lines, f, lo, hi, alt) as real
  }

  ghost predicate ShowsAllLines(out: Payload, lines: seq<Line>, lo: int, hi: int, usual: int, step: int)
    requires usual > 0 && step > 0
  {
    forall f :: PlainFields(f) ==>
      && (forall b :: ShowsLines(out, f, Exactly(b), lines, lo, hi, Falling(b, usual, step)))
      && ShowsLines(out, f, (t: int) => true, lines, lo, hi, (t: int) => true)
  }

  lemma AnswerShowsLines(secs: StepParser, a: HitsAsk, lines: seq<Line>, sets: seq<Payload>, step: int)
    requires ReadsCanonicalSteps(secs) && Proper(a.start, a.end) && PlainLines(lines) && AsksFor(secs, a, step)
    requires secs(FetchedStep(secs, a)) > 0 && step > 0
    requires ChunksCount(a, sets, KeyedLines(lines), secs(FetchedStep(secs, a)))
    ensures var (lo, hi) := Aligned(a.start, a.end);
      ShowsAllLines(Merge(secs, Effective(secs, a), FetchedStep(secs, a), sets), lines, lo, hi,
        UsualStep(a.end - a.start), step)
  {
    var out, usual := Merge(secs, Effective(secs, a), FetchedStep(secs, a), sets), UsualStep(a.end - a.start);
    var (lo, hi) := Aligned(a.start, a.end);
    forall f | PlainFields(f)
      ensures forall b :: ShowsLines(out, f, Exactly(b), lines, lo, hi, Falling(b, usual, step))
      ensures ShowsLines(out, f, (t: int) => true, lines, lo, hi, (t: int) => true)
    {
      forall b ensures ShowsLines(out, f, Exactly(b), lines, lo, hi, Falling(b, usual, step)) {
        forall t ensures Falling(b, usual, step)(t) == InAnswer(secs, a, Exactly(b))(t) {
          FallsInIs(secs, a, step, t, b);
        }
        AnswerShows(secs, a, lines, sets, f, Exactly(b), Falling(b, usual, step));
      }
      AnswerShows(secs, a, lines, sets, f, (t: int) => true, (t: int) => true);
    }
  }

  lemma RowCountsOwn(out: Payload, i: nat, lines: seq<Line>, lo: int, hi: int, usual: int, step: int)
    requires usual > 0 && step > 0 && OneRowPerKey(out) && i < |out|
    requires PlainFields(out[i].fields) && HasTotal(out[i]) && ShowsAllLines(out, lines, lo, hi, usual, step)
    ensures CountsOwn(out[i], lines, lo, hi, usual, step)
  {
    var row := out[i];
    forall b ensures Counted(row, Exactly(b)) == LinesOf(lines, row.fields, lo, hi, Falling(b, usual, step)) as real {
      OneRowShows(out, i, Exactly(b));
      assert ShowsLines(out, row.fields, Exactly(b), lines, lo, hi, Falling(b, usual, step));
    }
    OneRowShows(out, i, (t: int) => true);
  }

  lemma RowsCountOwn(out: Payload, lines: seq<Line>, lo: int, hi: int, usual: int, step: int)
    requires usual > 0 && step > 0 && OneRowPerKey(out) && WellFormed(out)
    requires PlainLines(lines) && ShowsAllLines(out, lines, lo, hi, usual, step)
    ensures forall row :: row in out ==> CountsOwn(row, lines, lo, hi, usual, step)
    ensures forall l :: l in lines && lo <= l.at < hi ==> HasRow(out, l.fields)
  {
    forall row | row in out ensures CountsOwn(row, lines, lo, hi, usual, step) {
      var i :| 0 <= i < |out| && out[i] == row;
      RowCountsOwn(out, i, lines, lo, hi, usual, step);
    }
    forall l | l in lines && lo <= l.at < hi ensures HasRow(out, l.fields) {
      CountsALine(lines, l, lo, hi);
      ShownHasRow(out, l.fields, (t: int) => true);
    }
  }

  /** For a step that is not above the usual one, or a multiple of it, a row counts its lines bucket by bucket. */
  lemma BucketsOfStep(row: HitsSeries, lines: seq<Line>, lo: int, hi: int, usual: int, step: int, b: int)
    requires usual > 0 && step > 0 && CountsOwn(row, lines, lo, hi, usual, step)
    requires step <= usual || step % usual == 0
    ensures Counted(row, Exactly(b)) == LinesOf(lines, row.fields, lo, hi, InBucket(b, step)) as real
  {
    FallsInAsAskedIff(usual, step);
    SameLines(lines, row.fields, lo, hi, Falling(b, usual, step), InBucket(b, step));
  }

  lemma {:induction false} SameLines(lines: seq<Line>, f: Fields, lo: int, hi: int, sel: int -> bool, alt: int -> bool)
    requires forall t :: sel(t) == alt(t)
    ensures LinesOf(lines, f, lo, hi, sel) == LinesOf(lines, f, lo, hi, alt)
  {
    if lines != [] {
      SameLines(lines[..|lines| - 1], f, lo, hi, sel, alt);
    }
  }
}
