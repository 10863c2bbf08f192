/** Hit counts: `MergeHits` and `DownsampleHits` (chunk.go), with exact sums. */
module Hits {
  import opened Base
  import opened Sorting
  import opened Labels
  import opened Sums
  import Series

  /** The `fields` value of a row: a text, an object, or anything else by its JSON text. */
  datatype Fields = Text(text: string) | Object(members: LabelMap) | Json(encoded: string)

  /** A timestamp text as read in epoch seconds, if it can be read. */
  datatype Stamp = Sec(seconds: int) | Unreadable

  datatype HitsSeries = HitsSeries(fields: Fields, stamps: seq<Stamp>, values: seq<real>, total: real)

  datatype Hit = Hit(ts: int, count: real)
  type Cells = map<int, real>

  datatype Row = Row(fields: Fields, cells: Cells)

  /** `hitsSeriesKey`. */
  ghost function FieldsKey(f: Fields): string {
    match f
    case Text(text) => text
    case Object(members) => KeyOf(members)
    case Json(encoded) => encoded
  }

  method HitsSeriesKey(f: Fields) returns (key: string)
    ensures key == FieldsKey(f)
  {
    match f
    case Text(text) => key := text;
    case Object(members) => key := SeriesKey(members);
    case Json(encoded) => key := encoded;
  }

  /** The usable pairs of a row: as far as both lists reach, unreadable timestamps skipped. */
  function Pairs(stamps: seq<Stamp>, values: seq<real>): seq<Hit> {
    if stamps == [] || values == [] then []
    else (if stamps[0].Sec? then [Hit(stamps[0].seconds, values[0])] else []) + Pairs(stamps[1..], values[1..])
  }

  function HitsOf(s: HitsSeries): seq<Hit> {
    Pairs(s.stamps, s.values)
  }

  function Val(m: Cells, t: int): real {
    if t in m then m[t] else 0.0
  }

  function AddHit(m: Cells, h: Hit): Cells {
    m[h.ts := Val(m, h.ts) + h.count]
  }

  function AddHits(m: Cells, hs: seq<Hit>): Cells {
    if hs == [] then m else AddHit(AddHits(m, hs[..|hs| - 1]), hs[|hs| - 1])
  }

  /** The counts of a list of hits by timestamp. */
  function CellsOf(hs: seq<Hit>): Cells {
    AddHits(map[], hs)
  }

  ghost function Weight(sel: int -> bool): (int, real) -> real {
    (t, v) => if sel(t) then v else 0.0
  }

  /** The sum of the hits whose timestamp is selected. */
  function SumWhere(hs: seq<Hit>, sel: int -> bool): real {
    if hs == [] then 0.0
    else SumWhere(hs[..|hs| - 1], sel) + if sel(hs[|hs| - 1].ts) then hs[|hs| - 1].count else 0.0
  }

  predicate Everything(t: int) { true }

  ghost function CellTotal(m: Cells): real {
    MapSum(m, Weight(Everything))
  }

  /** The cells as an ascending list of hits. */
  ghost function CellList(m: Cells): (r: seq<Hit>)
    ensures |r| == |AscInts(m.Keys)|
    ensures forall i :: 0 <= i < |r| ==>
      AscInts(m.Keys)[i] in m && r[i] == Hit(AscInts(m.Keys)[i], m[AscInts(m.Keys)[i]])
  {
    var times := AscInts(m.Keys);
    assert forall t :: t in times ==> t in Elems(times);
    seq(|times|, i requires 0 <= i < |times| => assert times[i] in times; Hit(times[i], m[times[i]]))
  }

  function Stamps(hs: seq<Hit>): (r: seq<Stamp>)
    ensures |r| == |hs| && forall i :: 0 <= i < |r| ==> r[i] == Sec(hs[i].ts)
  {
    seq(|hs|, i requires 0 <= i < |hs| => Sec(hs[i].ts))
  }

  function Counts(hs: seq<Hit>): (r: seq<real>)
    ensures |r| == |hs| && forall i :: 0 <= i < |r| ==> r[i] == hs[i].count
  {
    seq(|hs|, i requires 0 <= i < |hs| => hs[i].count)
  }

  /** A row written out, its total included. */
  ghost function Written(r: Row): HitsSeries {
    HitsSeries(r.fields, Stamps(CellList(r.cells)), Counts(CellList(r.cells)), CellTotal(r.cells))
  }

  // ---- grouping by key ---------------------------------------------------------------

  ghost function Keys(xs: seq<HitsSeries>): set<string> {
    set s | s in xs :: FieldsKey(s.fields)
  }

  /** The fields shown for a key: those of the first series that has it. */
  ghost function FirstFields(xs: seq<HitsSeries>, k: string): Fields {
    if xs == [] then Json("") else if FieldsKey(xs[0].fields) == k then xs[0].fields else FirstFields(xs[1..], k)
  }

  /** All hits given for a key. */
  ghost function Group(xs: seq<HitsSeries>, k: string): seq<Hit> {
    if xs == [] then []
    else Group(xs[..|xs| - 1], k) + if FieldsKey(xs[|xs| - 1].fields) == k then HitsOf(xs[|xs| - 1]) else []
  }

  ghost function RowFor(xs: seq<HitsSeries>, k: string): Row {
    Row(FirstFields(xs, k), CellsOf(Group(xs, k)))
  }

  ghost function Listed(xs: seq<HitsSeries>, ks: seq<string>): (r: seq<HitsSeries>)
    ensures |r| == |ks| && forall i :: 0 <= i < |r| ==> r[i] == Written(RowFor(xs, ks[i]))
  {
    seq(|ks|, i requires 0 <= i < |ks| => Written(RowFor(xs, ks[i])))
  }

  /** `MergeHits` as a function: one row per key, in ascending order of the keys. */
  ghost function Merged(sets: seq<seq<HitsSeries>>): seq<HitsSeries> {
    var xs := Series.Flat(sets);
    Listed(xs, AscNames(Keys(xs)))
  }

  function Rebucket(hs: seq<Hit>, step: int): (r: seq<Hit>)
    requires step > 0
    ensures |r| == |hs| && forall i :: 0 <= i < |r| ==> r[i] == Hit(Floor(hs[i].ts, step), hs[i].count)
  {
    seq(|hs|, i requires 0 <= i < |hs| => Hit(Floor(hs[i].ts, step), hs[i].count))
  }

  ghost function Coarse(s: HitsSeries, step: int): HitsSeries
    requires step > 0
  {
    Written(Row(s.fields, CellsOf(Rebucket(HitsOf(s), step))))
  }

  /** `DownsampleHits` as a function: every row on its own. */
  ghost function Downsampled(xs: seq<HitsSeries>, step: int): (r: seq<HitsSeries>)
    ensures |r| == |xs|
    ensures forall i :: 0 <= i < |r| ==> r[i] == if step <= 0 then xs[i] else Coarse(xs[i], step)
  {
    if step <= 0 then xs else seq(|xs|, i requires 0 <= i < |xs| => Coarse(xs[i], step))
  }

  // ---- the methods -----------------------------------------------------------------------

  /** Reading one pair further. */
  lemma {:induction false} PairsSnoc(stamps: seq<Stamp>, values: seq<real>, i: nat)
    requires i < |stamps| && i < |values|
    ensures Pairs(stamps[..i + 1], values[..i + 1]) ==
      Pairs(stamps[..i], values[..i]) + if stamps[i].Sec? then [Hit(stamps[i].seconds, values[i])] else []
  {
    if i == 0 {
      assert Pairs(stamps[..1][1..], values[..1][1..]) == [];
    } else {
      PairsSnoc(stamps[1..], values[1..], i - 1);
      TailOfTake(stamps, i + 1);
      TailOfTake(stamps, i);
      TailOfTake(values, i + 1);
      TailOfTake(values, i);
      var first := if stamps[0].Sec? then [Hit(stamps[0].seconds, values[0])] else [];
      var last := if stamps[i].Sec? then [Hit(stamps[i].seconds, values[i])] else [];
      Regroup(first, Pairs(stamps[1..][..i - 1], values[1..][..i - 1]), last);
    }
  }

  lemma TailOfTake<T>(q: seq<T>, n: nat)
    requires 0 < n <= |q|
    ensures q[..n][1..] == q[1..][..n - 1]
  {
  }

  lemma {:induction false} PairsShorter(stamps: seq<Stamp>, values: seq<real>, n: nat)
    requires n <= |stamps| && n <= |values| && (n == |stamps| || n == |values|)
    ensures Pairs(stamps[..n], values[..n]) == Pairs(stamps, values)
  {
    if n > 0 {
      PairsShorter(stamps[1..], values[1..], n - 1);
      TailOfTake(stamps, n);
      TailOfTake(values, n);
    }
  }

  /** Adds the usable pairs of a row to the cells. */
  method AddRow(m: Cells, s: HitsSeries) returns (r: Cells)
    ensures r == AddHits(m, HitsOf(s))
  {
    r := m;
    var n := if |s.values| < |s.stamps| then |s.values| else |s.stamps|;
    for i := 0 to n
      invariant r == AddHits(m, Pairs(s.stamps[..i], s.values[..i]))
    {
      OnePairMore(m, s.stamps, s.values, i);
      if s.stamps[i].Sec? {
        r := AddHit(r, Hit(s.stamps[i].seconds, s.values[i]));
      }
    }
    PairsShorter(s.stamps, s.values, n);
  }

  /** What one more pair adds to the cells. */
  lemma OnePairMore(m: Cells, stamps: seq<Stamp>, values: seq<real>, i: nat)
    requires i < |stamps| && i < |values|
    ensures var before := AddHits(m, Pairs(stamps[..i], values[..i]));
      AddHits(m, Pairs(stamps[..i + 1], values[..i + 1])) ==
        if stamps[i].Sec? then AddHit(before, Hit(stamps[i].seconds, values[i])) else before
  {
    var hs := Pairs(stamps[..i], values[..i]);
    PairsSnoc(stamps, values, i);
    if stamps[i].Sec? {
      AddHitsSnoc(m, hs, Hit(stamps[i].seconds, values[i]));
    } else {
      assert hs + [] == hs;
    }
  }

  lemma AddHitsSnoc(m: Cells, hs: seq<Hit>, h: Hit)
    ensures AddHits(m, hs + [h]) == AddHit(AddHits(m, hs), h)
  {
    assert (hs + [h])[..|hs|] == hs;
  }

  lemma RebucketSnoc(hs: seq<Hit>, h: Hit, step: int)
    requires step > 0
    ensures Rebucket(hs + [h], step) == Rebucket(hs, step) + [Hit(Floor(h.ts, step), h.count)]
  {
  }

  /** Adds up the usable pairs of a row by the step each timestamp falls in. */
  method BucketRow(s: HitsSeries, step: int) returns (r: Cells)
    requires step > 0
    ensures r == CellsOf(Rebucket(HitsOf(s), step))
  {
    r := map[];
    var n := if |s.values| < |s.stamps| then |s.values| else |s.stamps|;
    for i := 0 to n
      invariant r == CellsOf(Rebucket(Pairs(s.stamps[..i], s.values[..i]), step))
    {
      OneBucketMore(s.stamps, s.values, i, step);
      if s.stamps[i].Sec? {
        r := AddHit(r, Hit(Floor(s.stamps[i].seconds, step), s.values[i]));
      }
    }
    PairsShorter(s.stamps, s.values, n);
  }

  /** What one more pair adds to the buckets. */
  lemma OneBucketMore(stamps: seq<Stamp>, values: seq<real>, i: nat, step: int)
    requires step > 0 && i < |stamps| && i < |values|
    ensures var before := CellsOf(Rebucket(Pairs(stamps[..i], values[..i]), step));
      CellsOf(Rebucket(Pairs(stamps[..i + 1], values[..i + 1]), step)) ==
        if stamps[i].Sec? then AddHit(before, Hit(Floor(stamps[i].seconds, step), values[i])) else before
  {
    var hs := Pairs(stamps[..i], values[..i]);
    PairsSnoc(stamps, values, i);
    if stamps[i].Sec? {
      var h := Hit(stamps[i].seconds, values[i]);
      RebucketSnoc(hs, h, step);
      AddHitsSnoc(map[], Rebucket(hs, step), Hit(Floor(h.ts, step), h.count));
    } else {
      assert hs + [] == hs;
    }
  }

  /** Sums the cells in whatever order the map yields them. */
  method SumCells(cells: Cells) returns (times: seq<int>, total: real)
    ensures NoDup(times) && Elems(times) == cells.Keys && total == CellTotal(cells)
  {
    times := KeysInAnyOrder(cells);
    assert forall t :: t in times <==> t in Elems(times);
    total := 0.0;
    for i := 0 to |times|
      invariant total == SumAlong(times[..i], cells, Weight(Everything))
    {
      assert times[..i + 1][..i] == times[..i];
      assert Weight(Everything)(times[i], cells[times[i]]) == cells[times[i]];
      total := total + cells[times[i]];
    }
    assert times[..|times|] == times;
    SumAlongAny(times, cells, Weight(Everything));
  }

  method ListCells(cells: Cells, times: seq<int>) returns (stamps: seq<Stamp>, values: seq<real>)
    requires times == AscInts(cells.Keys)
    ensures stamps == Stamps(CellList(cells)) && values == Counts(CellList(cells))
  {
    assert forall t :: t in times <==> t in Elems(times);
    stamps, values := [], [];
    for i := 0 to |times|
      invariant |stamps| == |values| == i
      invariant forall j :: 0 <= j < i ==> stamps[j] == Sec(times[j]) && values[j] == CellList(cells)[j].count
    {
      assert times[i] in times;
      stamps, values := stamps + [Sec(times[i])], values + [cells[times[i]]];
    }
  }

  /** Writes a row out: its cells in ascending order, its total summed in any order. */
  method WriteRow(fields: Fields, cells: Cells) returns (out: HitsSeries)
    ensures out == Written(Row(fields, cells))
  {
    var times, total := SumCells(cells);
    times := SortInts(times);
    var stamps, values := ListCells(cells, times);
    out := HitsSeries(fields, stamps, values, total);
  }

  /** The table the merge builds shows the row of every key. */
  ghost predicate Shows(byKey: map<string, Row>, xs: seq<HitsSeries>) {
    byKey.Keys == Keys(xs) && forall k :: k in byKey ==> byKey[k] == RowFor(xs, k)
  }

  /** `MergeHits`: add up per key and timestamp, then list both in ascending order. */
  method MergeHits(sets: seq<seq<HitsSeries>>) returns (out: seq<HitsSeries>)
    ensures out == Merged(sets)
  {
    var byKey: map<string, Row> := map[];
    for i := 0 to |sets|
      invariant Shows(byKey, Series.Flat(sets[..i]))
    {
      Series.FlatStep(sets, i);
      byKey := AddSet(byKey, sets[i], Series.Flat(sets[..i]));
    }
    assert sets[..|sets|] == sets;
    ShownRows(byKey, Series.Flat(sets));
    out := ListRows(byKey);
  }

  ghost function WrittenRows(byKey: map<string, Row>): (r: seq<HitsSeries>)
    ensures |r| == |AscNames(byKey.Keys)|
    ensures forall i :: 0 <= i < |r| ==>
      AscNames(byKey.Keys)[i] in byKey && r[i] == Written(byKey[AscNames(byKey.Keys)[i]])
  {
    var names := AscNames(byKey.Keys);
    assert forall n :: n in names ==> n in Elems(names);
    seq(|names|, i requires 0 <= i < |names| => assert names[i] in names; Written(byKey[names[i]]))
  }

  method ListRows(byKey: map<string, Row>) returns (out: seq<HitsSeries>)
    ensures out == WrittenRows(byKey)
  {
    var keys := KeysInAnyOrder(byKey);
    keys := SortNames(keys);
    assert forall j :: 0 <= j < |keys| ==> keys[j] in Elems(keys);
    out := RowsInOrder(byKey, keys);
    RowsAre(byKey, keys, out);
  }

  method RowsInOrder(byKey: map<string, Row>, keys: seq<string>) returns (out: seq<HitsSeries>)
    requires forall j :: 0 <= j < |keys| ==> keys[j] in byKey
    ensures |out| == |keys| && forall j :: 0 <= j < |keys| ==> out[j] == Written(byKey[keys[j]])
  {
    out := [];
    for i := 0 to |keys|
      invariant |out| == i
      invariant forall j :: 0 <= j < i ==> out[j] == Written(byKey[keys[j]])
    {
      var row := WriteRow(byKey[keys[i]].fields, byKey[keys[i]].cells);
      out := out + [row];
    }
  }

  lemma RowsAre(byKey: map<string, Row>, keys: seq<string>, out: seq<HitsSeries>)
    requires keys == AscNames(byKey.Keys) && |out| == |keys|
    requires forall j :: 0 <= j < |keys| ==> keys[j] in byKey && out[j] == Written(byKey[keys[j]])
    ensures out == WrittenRows(byKey)
  {
    forall j | 0 <= j < |out| ensures out[j] == WrittenRows(byKey)[j] {
      assert out[j] == Written(byKey[keys[j]]);
    }
  }

  lemma ShownRows(byKey: map<string, Row>, xs: seq<HitsSeries>)
    requires Shows(byKey, xs)
    ensures WrittenRows(byKey) == Listed(xs, AscNames(Keys(xs)))
  {
    forall i | 0 <= i < |WrittenRows(byKey)| ensures WrittenRows(byKey)[i] == Listed(xs, AscNames(Keys(xs)))[i] {
      assert AscNames(byKey.Keys)[i] in byKey;
    }
  }

  method AddSet(byKey: map<string, Row>, batch: seq<HitsSeries>, ghost xs: seq<HitsSeries>)
    returns (r: map<string, Row>)
    requires Shows(byKey, xs)
    ensures Shows(r, xs + batch)
  {
    r := byKey;
    assert xs + batch[..0] == xs;
    for i := 0 to |batch|
      invariant Shows(r, xs + batch[..i])
    {
      r := AddOne(r, batch[i], xs + batch[..i]);
      assert xs + batch[..i + 1] == (xs + batch[..i]) + [batch[i]];
    }
    assert batch[..|batch|] == batch;
  }

  method AddOne(t: map<string, Row>, s: HitsSeries, ghost xs: seq<HitsSeries>) returns (r: map<string, Row>)
    requires Shows(t, xs)
    ensures Shows(r, xs + [s])
  {
    var key := HitsSeriesKey(s.fields);
    var cur := if key in t then t[key] else Row(s.fields, map[]);
    var cells := AddRow(cur.cells, s);
    OneMore(t, xs, s);
    r := t[key := Row(cur.fields, cells)];
  }

  lemma OneMore(t: map<string, Row>, xs: seq<HitsSeries>, s: HitsSeries)
    requires Shows(t, xs)
    ensures var k := FieldsKey(s.fields);
      var cur := if k in t then t[k] else Row(s.fields, map[]);
      Shows(t[k := Row(cur.fields, AddHits(cur.cells, HitsOf(s)))], xs + [s])
  {
    var k := FieldsKey(s.fields);
    var cur := if k in t then t[k] else Row(s.fields, map[]);
    var r := t[k := Row(cur.fields, AddHits(cur.cells, HitsOf(s)))];
    KeysSnoc(xs, s);
    forall j | j in r ensures r[j] == RowFor(xs + [s], j) {
      if j == k {
        GrownRow(xs, s, cur);
      } else {
        OtherRow(xs, s, j);
      }
    }
  }

  /** The row of the key just met. */
  lemma GrownRow(xs: seq<HitsSeries>, s: HitsSeries, cur: Row)
    requires cur == if FieldsKey(s.fields) in Keys(xs) then RowFor(xs, FieldsKey(s.fields)) else Row(s.fields, map[])
    ensures Row(cur.fields, AddHits(cur.cells, HitsOf(s))) == RowFor(xs + [s], FieldsKey(s.fields))
  {
    var k := FieldsKey(s.fields);
    FirstSnoc(xs, s, k);
    if k !in Keys(xs) {
      NoGroup(xs, k);
    }
    assert (xs + [s])[..|xs|] == xs;
    AddHitsAppend(map[], Group(xs, k), HitsOf(s));
  }

  lemma OtherRow(xs: seq<HitsSeries>, s: HitsSeries, j: string)
    requires j != FieldsKey(s.fields) && j in Keys(xs)
    ensures RowFor(xs + [s], j) == RowFor(xs, j)
  {
    FirstSnoc(xs, s, j);
    assert (xs + [s])[..|xs|] == xs;
    assert Group(xs, j) + [] == Group(xs, j);
  }

  lemma KeysSnoc(xs: seq<HitsSeries>, s: HitsSeries)
    ensures Keys(xs + [s]) == Keys(xs) + {FieldsKey(s.fields)}
  {
    assert s in xs + [s];
  }

  lemma {:induction false} FirstSnoc(xs: seq<HitsSeries>, s: HitsSeries, k: string)
    ensures FirstFields(xs + [s], k) == if k in Keys(xs) then FirstFields(xs, k)
                                        else if FieldsKey(s.fields) == k then s.fields else Json("")
  {
    if xs != [] {
      assert (xs + [s])[1..] == xs[1..] + [s];
      FirstSnoc(xs[1..], s, k);
      assert xs == [xs[0]] + xs[1..];
      assert xs[0] in xs;
      assert Keys(xs) == {FieldsKey(xs[0].fields)} + Keys(xs[1..]);
    } else {
      assert [s][1..] == [];
    }
  }

  lemma {:induction false} NoGroup(xs: seq<HitsSeries>, k: string)
    requires k !in Keys(xs)
    ensures Group(xs, k) == []
  {
    if xs != [] {
      var n := |xs| - 1;
      assert xs[n] in xs;
      assert forall s :: s in xs[..n] ==> s in xs;
      NoGroup(xs[..n], k);
    }
  }

  lemma {:induction false} AddHitsAppend(m: Cells, a: seq<Hit>, b: seq<Hit>)
    ensures AddHits(m, a + b) == AddHits(AddHits(m, a), b)
  {
    if b == [] {
      assert a + b == a;
    } else {
      AddHitsAppend(m, a, b[..|b| - 1]);
      DropLastOfSum(a, b);
    }
  }

  /** `DownsampleHits`. */
  method DownsampleHits(series: seq<HitsSeries>, targetStepSec: int) returns (out: seq<HitsSeries>)
    ensures out == Downsampled(series, targetStepSec)
  {
    if targetStepSec <= 0 {
      return series;
    }
    out := [];
    for i := 0 to |series|
      invariant |out| == i
      invariant forall j :: 0 <= j < i ==> out[j] == Coarse(series[j], targetStepSec)
    {
      var buckets := BucketRow(series[i], targetStepSec);
      var row := WriteRow(series[i].fields, buckets);
      out := out + [row];
    }
  }
}
