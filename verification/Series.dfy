/** Matrix series and `MergeSeries` (chunk.go). */
module Series {
  import opened Base
  import opened Sorting
  import opened Labels

  datatype Point = Point(ts: int, value: string)
  datatype MatrixSeries = MatrixSeries(metric: LabelMap, values: seq<Point>)

  /** What the merge accumulates per key: the first metric seen and the points by timestamp. */
  datatype Acc = Acc(metric: LabelMap, points: map<int, string>)
  type Table = map<string, Acc>

  function PointsOf(vs: seq<Point>): map<int, string> {
    if vs == [] then map[] else PointsOf(vs[..|vs| - 1])[vs[|vs| - 1].ts := vs[|vs| - 1].value]
  }

  /** The entry of a key, if any. */
  function At(t: Table, k: string): Option<Acc> {
    if k in t then Some(t[k]) else None
  }

  /** Laying one entry over another: the first metric stays, the later points win. */
  function Over(a: Option<Acc>, b: Option<Acc>): Option<Acc> {
    match (a, b)
    case (None, _) => b
    case (_, None) => a
    case (Some(x), Some(y)) => Some(Acc(x.metric, x.points + y.points))
  }

  function Overlay(a: Table, b: Table): Table {
    map k | k in a.Keys + b.Keys :: Over(At(a, k), At(b, k)).value
  }

  /** The table of a single series. */
  ghost function Single(s: MatrixSeries): Table {
    map[KeyOf(s.metric) := Acc(s.metric, PointsOf(s.values))]
  }

  /** The table a list of series accumulates, read from the left. */
  ghost function TableOf(xs: seq<MatrixSeries>): Table {
    if xs == [] then map[] else Overlay(TableOf(xs[..|xs| - 1]), Single(xs[|xs| - 1]))
  }

  ghost function PointList(points: map<int, string>): (r: seq<Point>)
    ensures |r| == |AscInts(points.Keys)|
    ensures forall i :: 0 <= i < |r| ==>
      AscInts(points.Keys)[i] in points && r[i] == Point(AscInts(points.Keys)[i], points[AscInts(points.Keys)[i]])
  {
    var times := AscInts(points.Keys);
    assert forall t :: t in times ==> t in Elems(times);
    seq(|times|, i requires 0 <= i < |times| => assert times[i] in times; Point(times[i], points[times[i]]))
  }

  ghost function RowOf(t: Table, name: string): MatrixSeries
    requires name in t
  {
    MatrixSeries(t[name].metric, PointList(t[name].points))
  }

  ghost function Render(t: Table): (r: seq<MatrixSeries>)
    ensures |r| == |AscNames(t.Keys)|
    ensures forall i :: 0 <= i < |r| ==>
      AscNames(t.Keys)[i] in t && r[i] == RowOf(t, AscNames(t.Keys)[i])
  {
    var names := AscNames(t.Keys);
    assert forall n :: n in names ==> n in Elems(names);
    seq(|names|, i requires 0 <= i < |names| =>
      assert names[i] in names; RowOf(t, names[i]))
  }

  function Flat<T>(sets: seq<seq<T>>): seq<T> {
    if sets == [] then [] else Flat(sets[..|sets| - 1]) + sets[|sets| - 1]
  }

  /** `MergeSeries` as a function of its arguments. */
  ghost function Merged(sets: seq<seq<MatrixSeries>>): seq<MatrixSeries> {
    Render(TableOf(Flat(sets)))
  }

  // ---- the method ----------------------------------------------------------

  method AddPoints(points: map<int, string>, vs: seq<Point>) returns (r: map<int, string>)
    ensures r == points + PointsOf(vs)
  {
    r := points;
    for i := 0 to |vs|
      invariant r == points + PointsOf(vs[..i])
    {
      assert vs[..i + 1][..i] == vs[..i];
      r := r[vs[i].ts := vs[i].value];
    }
    assert vs[..|vs|] == vs;
  }

  method Accumulate(t: Table, batch: seq<MatrixSeries>) returns (r: Table)
    ensures r == Overlay(t, TableOf(batch))
  {
    r := t;
    OverlayEmpty(t);
    for i := 0 to |batch|
      invariant r == Overlay(t, TableOf(batch[..i]))
    {
      var key := SeriesKey(batch[i].metric);
      var cur := if key in r then r[key] else Acc(batch[i].metric, map[]);
      var points := AddPoints(cur.points, batch[i].values);
      AccumulateStep(t, batch, i, r, cur);
      r := r[key := Acc(cur.metric, points)];
    }
    assert batch[..|batch|] == batch;
  }

  lemma AccumulateStep(t: Table, batch: seq<MatrixSeries>, i: nat, r: Table, cur: Acc)
    requires i < |batch| && r == Overlay(t, TableOf(batch[..i]))
    requires var k := KeyOf(batch[i].metric); cur == if k in r then r[k] else Acc(batch[i].metric, map[])
    ensures r[KeyOf(batch[i].metric) := Acc(cur.metric, cur.points + PointsOf(batch[i].values))]
         == Overlay(t, TableOf(batch[..i + 1]))
  {
    AbsorbIsOverlay(r, batch[i], cur);
    assert batch[..i + 1][..i] == batch[..i];
    OverlayAssociative(t, TableOf(batch[..i]), Single(batch[i]));
  }

  lemma AbsorbIsOverlay(t: Table, s: MatrixSeries, cur: Acc)
    requires var k := KeyOf(s.metric); cur == if k in t then t[k] else Acc(s.metric, map[])
    ensures t[KeyOf(s.metric) := Acc(cur.metric, cur.points + PointsOf(s.values))] == Overlay(t, Single(s))
  {
    var k := KeyOf(s.metric);
    var r := t[k := Acc(cur.metric, cur.points + PointsOf(s.values))];
    assert map[] + PointsOf(s.values) == PointsOf(s.values);
    forall j ensures At(r, j) == At(Overlay(t, Single(s)), j) {
      OverlayAt(t, Single(s), j);
    }
    SameTable(r, Overlay(t, Single(s)));
  }

  method ListPoints(points: map<int, string>) returns (values: seq<Point>)
    ensures values == PointList(points)
  {
    var timestamps := KeysInAnyOrder(points);
    timestamps := SortInts(timestamps);
    assert forall t :: t in timestamps ==> t in Elems(timestamps);
    values := [];
    for i := 0 to |timestamps|
      invariant |values| == i
      invariant forall j :: 0 <= j < i ==> values[j] == PointList(points)[j]
    {
      assert timestamps[i] in timestamps;
      values := values + [Point(timestamps[i], points[timestamps[i]])];
    }
  }

  method ListTable(byKey: Table) returns (out: seq<MatrixSeries>)
    ensures out == Render(byKey)
  {
    var keys := KeysInAnyOrder(byKey);
    keys := SortNames(keys);
    assert forall j :: 0 <= j < |keys| ==> keys[j] in Elems(keys);
    out := RowsInOrder(byKey, keys);
  }

  method RowsInOrder(byKey: Table, keys: seq<string>) returns (out: seq<MatrixSeries>)
    requires forall j :: 0 <= j < |keys| ==> keys[j] in byKey
    ensures |out| == |keys| && forall j :: 0 <= j < |keys| ==> out[j] == RowOf(byKey, keys[j])
  {
    out := [];
    for i := 0 to |keys|
      invariant |out| == i
      invariant forall j :: 0 <= j < i ==> out[j] == RowOf(byKey, keys[j])
    {
      var values := ListPoints(byKey[keys[i]].points);
      out := out + [MatrixSeries(byKey[keys[i]].metric, values)];
    }
  }

  lemma FlatStep<T>(sets: seq<seq<T>>, i: nat)
    requires i < |sets|
    ensures Flat(sets[..i + 1]) == Flat(sets[..i]) + sets[i]
  {
    assert sets[..i + 1][..i] == sets[..i];
  }

  /** `MergeSeries`: accumulate by key and timestamp, then list both in ascending order. */
  method MergeSeries(sets: seq<seq<MatrixSeries>>) returns (out: seq<MatrixSeries>)
    ensures out == Merged(sets)
  {
    var byKey: Table := map[];
    for i := 0 to |sets|
      invariant byKey == TableOf(Flat(sets[..i]))
    {
      FlatStep(sets, i);
      TableOfAppend(Flat(sets[..i]), sets[i]);
      byKey := Accumulate(byKey, sets[i]);
    }
    assert sets[..|sets|] == sets;
    out := ListTable(byKey);
  }

  // ---- the algebra -----------------------------------------------------------

  lemma OverlayAt(a: Table, b: Table, k: string)
    ensures At(Overlay(a, b), k) == Over(At(a, k), At(b, k))
  {
  }

  lemma SameTable(a: Table, b: Table)
    requires forall k :: At(a, k) == At(b, k)
    ensures a == b
  {
    forall k ensures k in a <==> k in b {
      assert At(a, k) == At(b, k);
    }
    forall k | k in a ensures a[k] == b[k] {
      assert At(a, k) == At(b, k);
    }
  }

  lemma OverlayAssociative(a: Table, b: Table, c: Table)
    ensures Overlay(Overlay(a, b), c) == Overlay(a, Overlay(b, c))
  {
    forall k ensures At(Overlay(Overlay(a, b), c), k) == At(Overlay(a, Overlay(b, c)), k) {
      OverlayAt(a, b, k);
      OverlayAt(b, c, k);
      OverlayAt(Overlay(a, b), c, k);
      OverlayAt(a, Overlay(b, c), k);
      OverAssociative(At(a, k), At(b, k), At(c, k));
    }
    SameTable(Overlay(Overlay(a, b), c), Overlay(a, Overlay(b, c)));
  }

  lemma OverAssociative(a: Option<Acc>, b: Option<Acc>, c: Option<Acc>)
    ensures Over(Over(a, b), c) == Over(a, Over(b, c))
  {
    if a.Some? && b.Some? && c.Some? {
      var p, q, r := a.value.points, b.value.points, c.value.points;
      assert (p + q) + r == p + (q + r);
    }
  }

  lemma OverlayEmpty(a: Table)
    ensures Overlay(a, map[]) == a && Overlay(map[], a) == a
  {
    forall k ensures At(Overlay(a, map[]), k) == At(a, k) && At(Overlay(map[], a), k) == At(a, k) {
      OverlayAt(a, map[], k);
      OverlayAt(map[], a, k);
    }
    SameTable(Overlay(a, map[]), a);
    SameTable(Overlay(map[], a), a);
  }

  /** Accumulating a longer list overlays the tables of its parts. */
  lemma {:induction false} TableOfAppend(xs: seq<MatrixSeries>, ys: seq<MatrixSeries>)
    ensures TableOf(xs + ys) == Overlay(TableOf(xs), TableOf(ys))
  {
    if ys == [] {
      assert xs + ys == xs;
      OverlayEmpty(TableOf(xs));
    } else {
      var p, y := ys[..|ys| - 1], ys[|ys| - 1];
      assert (xs + ys)[..|xs + ys| - 1] == xs + p;
      assert TableOf(xs + ys) == Overlay(TableOf(xs + p), Single(y));
      TableOfAppend(xs, p);
      OverlayAssociative(TableOf(xs), TableOf(p), Single(y));
    }
  }

  /** Tables that merging produces: every entry sits under the key of its own metric. */
  ghost predicate Keyed(t: Table) {
    forall k :: k in t ==> KeyOf(t[k].metric) == k
  }

  lemma {:induction false} TableOfKeyed(xs: seq<MatrixSeries>)
    ensures Keyed(TableOf(xs))
  {
    if xs != [] { TableOfKeyed(xs[..|xs| - 1]); }
  }

  /** Listing points and reading them back loses nothing. */
  lemma PointListRoundTrip(points: map<int, string>)
    ensures PointsOf(PointList(points)) == points
  {
    var times, list := AscInts(points.Keys), PointList(points);
    AscIntsNoDup(points.Keys);
    ListedPoints(points, times, list);
    var back := PointsOf(list);
    forall t ensures t in back <==> t in points {
      assert t in times <==> t in Elems(times);
    }
    assert back.Keys == points.Keys;
  }

  lemma {:induction false} ListedPoints(points: map<int, string>, times: seq<int>, list: seq<Point>)
    requires |list| == |times|
    requires forall i :: 0 <= i < |list| ==> times[i] in points && list[i] == Point(times[i], points[times[i]])
    ensures forall t :: t in PointsOf(list) <==> t in times
    ensures forall t :: t in PointsOf(list) ==> t in points && PointsOf(list)[t] == points[t]
  {
    if list != [] {
      var n := |list| - 1;
      ListedPoints(points, times[..n], list[..n]);
      InitLast(times);
    }
  }

  /** Rendering a table and accumulating the result gives the table back. */
  lemma RenderRoundTrip(t: Table)
    requires Keyed(t)
    ensures TableOf(Render(t)) == t
  {
    var names := AscNames(t.Keys);
    AscNamesNoDup(t.Keys);
    forall k ensures At(TableOf(Render(t)), k) == At(t, k) {
      RenderedTable(t, names, Render(t), k);
      assert k in names <==> k in Elems(names);
    }
    SameTable(TableOf(Render(t)), t);
  }

  lemma RenderInjective(t: Table, u: Table)
    requires Keyed(t) && Keyed(u)
    ensures Render(t) == Render(u) <==> t == u
  {
    RenderRoundTrip(t);
    RenderRoundTrip(u);
  }

  /** The rows list the named entries of a table. */
  ghost predicate RowsOf(t: Table, names: seq<string>, r: seq<MatrixSeries>) {
    |r| == |names| && forall i :: 0 <= i < |r| ==>
      names[i] in t && r[i] == RowOf(t, names[i])
  }

  lemma {:induction false} RenderedTable(t: Table, names: seq<string>, r: seq<MatrixSeries>, k: string)
    requires Keyed(t) && NoDup(names) && RowsOf(t, names, r)
    ensures At(TableOf(r), k) == if k in names then At(t, k) else None
  {
    if r != [] {
      var n := |r| - 1;
      RenderedTable(t, names[..n], r[..n], k);
      RenderedTable(t, names[..n], r[..n], names[n]);
      InitLast(names);
      assert names[n] !in names[..n];
      RowTable(t, names[n]);
      OneRowMore(TableOf(r[..n]), names[n], t[names[n]], k);
    }
  }

  lemma OneRowMore(table: Table, name: string, a: Acc, k: string)
    requires At(table, name) == None
    ensures At(Overlay(table, map[name := a]), k) == if k == name then Some(a) else At(table, k)
  {
    OverlayAt(table, map[name := a], k);
  }

  /** A row of a keyed table stands for its entry. */
  lemma RowTable(t: Table, name: string)
    requires Keyed(t) && name in t
    ensures Single(RowOf(t, name)) == map[name := t[name]]
  {
    PointListRoundTrip(t[name].points);
  }

  lemma {:induction false} FlatAppend<T>(a: seq<seq<T>>, b: seq<seq<T>>)
    ensures Flat(a + b) == Flat(a) + Flat(b)
  {
    if b == [] {
      assert a + b == a;
    } else {
      var n := |b| - 1;
      FlatAppend(a, b[..n]);
      SplitLast(a, b);
      FlatSnoc(a + b[..n], b[n]);
      Regroup(Flat(a), Flat(b[..n]), b[n]);
    }
  }

  lemma FlatSnoc<T>(a: seq<seq<T>>, x: seq<T>)
    ensures Flat(a + [x]) == Flat(a) + x
  {
    assert (a + [x])[..|a|] == a;
  }

  ghost function EachMerged(groups: seq<seq<seq<MatrixSeries>>>): (r: seq<seq<MatrixSeries>>)
    ensures |r| == |groups| && forall i :: 0 <= i < |r| ==> r[i] == Merged(groups[i])
  {
    seq(|groups|, i requires 0 <= i < |groups| => Merged(groups[i]))
  }

  lemma {:induction false} GroupTables(groups: seq<seq<seq<MatrixSeries>>>)
    ensures TableOf(Flat(EachMerged(groups))) == TableOf(Flat(Flat(groups)))
  {
    if groups != [] {
      var n := |groups| - 1;
      var init, g := groups[..n], groups[n];
      GroupTables(init);
      assert EachMerged(groups)[..n] == EachMerged(init);
      TableOfAppend(Flat(EachMerged(init)), Merged(g));
      FlatAppend(Flat(init), g);
      TableOfAppend(Flat(Flat(init)), Flat(g));
      TableOfKeyed(Flat(g));
      RenderRoundTrip(TableOf(Flat(g)));
    }
  }

  /**
   * Merging is associative under any regrouping of its arguments; with a single
   * group this says that merging a merged result changes nothing.
   */
  lemma MergeRegroups(groups: seq<seq<seq<MatrixSeries>>>)
    ensures Merged(EachMerged(groups)) == Merged(Flat(groups))
  {
    GroupTables(groups);
  }

  lemma MergeIdempotent(sets: seq<seq<MatrixSeries>>)
    ensures Merged([Merged(sets)]) == Merged(sets)
  {
    MergeRegroups([sets]);
    assert EachMerged([sets]) == [Merged(sets)];
    assert [sets][..0] == [];
    assert Flat([sets]) == Flat([sets][..0]) + sets == sets;
  }

  // ---- which point wins --------------------------------------------------------

  /** The point `xs[i].values[j]` is the last one given for key `k` and time `t`. */
  ghost predicate LastWriter(xs: seq<MatrixSeries>, k: string, t: int, i: int, j: int) {
    && 0 <= i < |xs| && KeyOf(xs[i].metric) == k && LastAt(xs[i].values, t, j)
    && (forall i' :: i < i' < |xs| ==> KeyOf(xs[i'].metric) != k || !TimeIn(xs[i'].values, t))
  }

  ghost predicate Given(xs: seq<MatrixSeries>, k: string, t: int) {
    exists s :: s in xs && KeyOf(s.metric) == k && TimeIn(s.values, t)
  }

  ghost predicate LastAt(vs: seq<Point>, t: int, j: int) {
    0 <= j < |vs| && vs[j].ts == t && forall j' :: j < j' < |vs| ==> vs[j'].ts != t
  }

  ghost predicate TimeIn(vs: seq<Point>, t: int) {
    exists p :: p in vs && p.ts == t
  }

  lemma {:induction false} PointsOfTimes(vs: seq<Point>, t: int)
    ensures t in PointsOf(vs) <==> TimeIn(vs, t)
  {
    if vs != [] {
      var n := |vs| - 1;
      PointsOfTimes(vs[..n], t);
      InitLast(vs);
      assert vs[n] in vs;
    }
  }

  lemma {:induction false} PointsOfLast(vs: seq<Point>, t: int, j: int)
    requires LastAt(vs, t, j)
    ensures t in PointsOf(vs) && PointsOf(vs)[t] == vs[j].value
  {
    var n := |vs| - 1;
    if j < n {
      assert vs[n].ts != t;
      PointsOfLast(vs[..n], t, j);
    }
  }

  ghost predicate Written(t: Table, k: string, time: int) {
    k in t && time in t[k].points
  }

  /** One more series: it decides the points it gives and leaves every other point alone. */
  lemma OverlaySingle(t: Table, s: MatrixSeries, k: string, time: int)
    ensures var given := KeyOf(s.metric) == k && time in PointsOf(s.values);
      var r := Overlay(t, Single(s));
      && (Written(r, k, time) <==> given || Written(t, k, time))
      && (given ==> r[k].points[time] == PointsOf(s.values)[time])
      && (!given && Written(t, k, time) ==> r[k].points[time] == t[k].points[time])
  {
    OverlayAt(t, Single(s), k);
  }

  /** A key and timestamp are in the merge exactly when some series gives them. */
  lemma {:induction false} NothingElseKept(xs: seq<MatrixSeries>, k: string, t: int)
    ensures Written(TableOf(xs), k, t) <==> Given(xs, k, t)
  {
    if xs != [] {
      var n := |xs| - 1;
      NothingElseKept(xs[..n], k, t);
      PointsOfTimes(xs[n].values, t);
      OverlaySingle(TableOf(xs[..n]), xs[n], k, t);
      GivenLast(xs, k, t);
    }
  }

  lemma GivenLast(xs: seq<MatrixSeries>, k: string, t: int)
    requires xs != []
    ensures var n := |xs| - 1;
      Given(xs, k, t) <==> Given(xs[..n], k, t) || (KeyOf(xs[n].metric) == k && TimeIn(xs[n].values, t))
  {
    var n := |xs| - 1;
    InitLast(xs);
  }

  /** Per key and timestamp the merge keeps the last point written. */
  lemma {:induction false} LastWriterWins(xs: seq<MatrixSeries>, k: string, t: int, i: int, j: int)
    requires LastWriter(xs, k, t, i, j)
    ensures Written(TableOf(xs), k, t) && TableOf(xs)[k].points[t] == xs[i].values[j].value
  {
    var n := |xs| - 1;
    OverlaySingle(TableOf(xs[..n]), xs[n], k, t);
    PointsOfTimes(xs[n].values, t);
    if i < n {
      EarlierWriter(xs, k, t, i, j);
      LastWriterWins(xs[..n], k, t, i, j);
    } else {
      PointsOfLast(xs[n].values, t, j);
    }
  }

  lemma EarlierWriter(xs: seq<MatrixSeries>, k: string, t: int, i: int, j: int)
    requires LastWriter(xs, k, t, i, j) && i < |xs| - 1
    ensures var n := |xs| - 1;
      LastWriter(xs[..n], k, t, i, j) && (KeyOf(xs[n].metric) != k || !TimeIn(xs[n].values, t))
  {
  }

  lemma {:induction false} FindLastAt(vs: seq<Point>, t: int) returns (j: nat)
    requires TimeIn(vs, t)
    ensures LastAt(vs, t, j)
  {
    var n := |vs| - 1;
    if vs[n].ts == t {
      j := n;
    } else {
      InitLast(vs);
      j := FindLastAt(vs[..n], t);
    }
  }

  lemma {:induction false} FindLastWriter(xs: seq<MatrixSeries>, k: string, t: int) returns (i: nat, j: nat)
    requires Given(xs, k, t)
    ensures LastWriter(xs, k, t, i, j)
  {
    var n := |xs| - 1;
    if KeyOf(xs[n].metric) == k && TimeIn(xs[n].values, t) {
      i := n;
      j := FindLastAt(xs[n].values, t);
    } else {
      GivenLast(xs, k, t);
      i, j := FindLastWriter(xs[..n], k, t);
      LaterWriter(xs, k, t, i, j);
    }
  }

  lemma LaterWriter(xs: seq<MatrixSeries>, k: string, t: int, i: int, j: int)
    requires xs != [] && LastWriter(xs[..|xs| - 1], k, t, i, j)
    requires KeyOf(xs[|xs| - 1].metric) != k || !TimeIn(xs[|xs| - 1].values, t)
    ensures LastWriter(xs, k, t, i, j)
  {
    assert forall i' :: 0 <= i' < |xs| - 1 ==> xs[..|xs| - 1][i'] == xs[i'];
  }

  /** The output shows point `p` under key `k`. */
  ghost predicate ShowsPoint(out: seq<MatrixSeries>, k: string, p: Point) {
    exists r :: 0 <= r < |out| && KeyOf(out[r].metric) == k && p in out[r].values
  }

  /** The table holds point `p` under key `k`. */
  ghost predicate Holds(t: Table, k: string, p: Point) {
    Written(t, k, p.ts) && t[k].points[p.ts] == p.value
  }

  lemma ShownIsStored(t: Table, k: string, p: Point)
    requires Keyed(t)
    ensures ShowsPoint(Render(t), k, p) <==> Holds(t, k, p)
  {
    if k in t {
      ListedPoint(t[k].points, p);
      RowShown(t, k);
    }
    if r: int :| 0 <= r < |Render(t)| && KeyOf(Render(t)[r].metric) == k && p in Render(t)[r].values {
      assert AscNames(t.Keys)[r] == k;
    }
  }

  lemma RowShown(t: Table, k: string)
    requires Keyed(t) && k in t
    ensures exists r :: 0 <= r < |Render(t)| && Render(t)[r] == RowOf(t, k)
  {
    var names := AscNames(t.Keys);
    assert k in Elems(names);
    var r :| 0 <= r < |names| && names[r] == k;
    assert Render(t)[r] == RowOf(t, k);
  }

  lemma ListedPoint(points: map<int, string>, p: Point)
    ensures p in PointList(points) <==> p.ts in points && points[p.ts] == p.value
  {
    var times, list := AscInts(points.Keys), PointList(points);
    if p in list {
      var q :| 0 <= q < |list| && list[q] == p;
    }
    if p.ts in points && points[p.ts] == p.value {
      assert p.ts in Elems(times);
      var q :| 0 <= q < |times| && times[q] == p.ts;
      assert list[q] == p;
    }
  }

  /** Point `p` is the last one given for its key and timestamp. */
  ghost predicate LastGiven(xs: seq<MatrixSeries>, k: string, p: Point) {
    exists i, j :: LastWriter(xs, k, p.ts, i, j) && xs[i].values[j].value == p.value
  }

  lemma StoredIffLast(xs: seq<MatrixSeries>, k: string, p: Point)
    ensures Holds(TableOf(xs), k, p) <==> LastGiven(xs, k, p)
  {
    if Holds(TableOf(xs), k, p) {
      NothingElseKept(xs, k, p.ts);
      var i, j := FindLastWriter(xs, k, p.ts);
      LastWriterWins(xs, k, p.ts, i, j);
    }
    if i: int, j: int :| LastWriter(xs, k, p.ts, i, j) && xs[i].values[j].value == p.value {
      LastWriterWins(xs, k, p.ts, i, j);
    }
  }

  /**
   * What the merge shows: a point is in the output under a key if and only if it is the last one
   * given for its key and timestamp.
   */
  lemma MergedPointIff(sets: seq<seq<MatrixSeries>>, k: string, p: Point)
    ensures ShowsPoint(Merged(sets), k, p) <==> LastGiven(Flat(sets), k, p)
  {
    TableOfKeyed(Flat(sets));
    ShownIsStored(TableOf(Flat(sets)), k, p);
    StoredIffLast(Flat(sets), k, p);
  }

  // ---- order and identity of series ---------------------------------------------

  /** Two tables agree where they overlap. */
  ghost predicate Agree(a: Table, b: Table) {
    forall k :: k in a && k in b ==>
      a[k].metric == b[k].metric
      && forall t :: t in a[k].points && t in b[k].points ==> a[k].points[t] == b[k].points[t]
  }

  lemma PlusCommutes(p: map<int, string>, q: map<int, string>)
    requires forall t :: t in p && t in q ==> p[t] == q[t]
    ensures p + q == q + p
  {
    var l, r := p + q, q + p;
    assert forall t :: t in l <==> t in r;
    assert forall t | t in l :: l[t] == r[t];
  }

  lemma OverlayCommutes(p: Table, q: Table)
    requires Agree(p, q)
    ensures Overlay(p, q) == Overlay(q, p)
  {
    forall k ensures At(Overlay(p, q), k) == At(Overlay(q, p), k) {
      OverlayAt(p, q, k);
      OverlayAt(q, p, k);
      if k in p && k in q {
        PlusCommutes(p[k].points, q[k].points);
      }
    }
    SameTable(Overlay(p, q), Overlay(q, p));
  }

  /** When two blocks agree where they overlap, they may be swapped, whatever happens inside a block. */
  lemma MergeBlocksCommute(a: seq<seq<MatrixSeries>>, b: seq<seq<MatrixSeries>>)
    requires Agree(TableOf(Flat(a)), TableOf(Flat(b)))
    ensures Merged(a + b) == Merged(b + a)
  {
    FlatAppend(a, b);
    FlatAppend(b, a);
    TableOfAppend(Flat(a), Flat(b));
    TableOfAppend(Flat(b), Flat(a));
    OverlayCommutes(TableOf(Flat(a)), TableOf(Flat(b)));
  }

  /** Two tables give the same value wherever both give one. */
  ghost predicate PointsAgree(a: Table, b: Table) {
    forall k, t :: Written(a, k, t) && Written(b, k, t) ==> a[k].points[t] == b[k].points[t]
  }

  ghost predicate AllPointsAgree(sets: seq<seq<MatrixSeries>>) {
    forall x, y :: x in sets && y in sets ==> PointsAgree(TableOf(x), TableOf(y))
  }

  lemma OverlayHolds(a: Table, b: Table, k: string, p: Point)
    ensures Holds(Overlay(a, b), k, p) <==> Holds(b, k, p) || (Holds(a, k, p) && !Written(b, k, p.ts))
  {
    OverlayAt(a, b, k);
  }

  /** If overlapping points agree, the merge holds exactly the points of the sets. */
  lemma {:induction false} MergeHoldsUnion(sets: seq<seq<MatrixSeries>>, k: string, p: Point)
    requires AllPointsAgree(sets)
    ensures Holds(TableOf(Flat(sets)), k, p) <==> exists x :: x in sets && Holds(TableOf(x), k, p)
  {
    if sets != [] {
      var init, last := sets[..|sets| - 1], sets[|sets| - 1];
      assert sets == init + [last];
      FlatStep(sets, |init|);
      assert sets[..|init| + 1] == sets;
      TableOfAppend(Flat(init), last);
      OverlayHolds(TableOf(Flat(init)), TableOf(last), k, p);
      MergeHoldsUnion(init, k, p);
      if Holds(TableOf(Flat(init)), k, p) {
        var x :| x in init && Holds(TableOf(x), k, p);
        assert PointsAgree(TableOf(x), TableOf(last));
      }
    }
  }

  /** Swapping two blocks shows the same points if the points agree where the blocks overlap. */
  lemma SwappedBlocksShowSame(a: seq<seq<MatrixSeries>>, b: seq<seq<MatrixSeries>>, k: string, p: Point)
    requires PointsAgree(TableOf(Flat(a)), TableOf(Flat(b)))
    ensures ShowsPoint(Merged(a + b), k, p) <==> ShowsPoint(Merged(b + a), k, p)
  {
    FlatAppend(a, b);
    FlatAppend(b, a);
    TableOfAppend(Flat(a), Flat(b));
    TableOfAppend(Flat(b), Flat(a));
    TableOfKeyed(Flat(a + b));
    TableOfKeyed(Flat(b + a));
    ShownIsStored(TableOf(Flat(a + b)), k, p);
    ShownIsStored(TableOf(Flat(b + a)), k, p);
    OverlayHolds(TableOf(Flat(a)), TableOf(Flat(b)), k, p);
    OverlayHolds(TableOf(Flat(b)), TableOf(Flat(a)), k, p);
  }

  /** The same sets, in any order and any number. */
  ghost predicate SameSets(a: seq<seq<MatrixSeries>>, b: seq<seq<MatrixSeries>>) {
    forall x :: x in a <==> x in b
  }

  /**
   * Points: if overlapping points of the sets agree, then whatever the order of the arguments,
   * and whatever labels the sets show for a shared key, the same points come out.
   */
  lemma MergePointsOrderInsensitive(a: seq<seq<MatrixSeries>>, b: seq<seq<MatrixSeries>>, k: string, p: Point)
    requires SameSets(a, b) && AllPointsAgree(a)
    ensures ShowsPoint(Merged(a), k, p) <==> ShowsPoint(Merged(b), k, p)
  {
    TableOfKeyed(Flat(a));
    TableOfKeyed(Flat(b));
    ShownIsStored(TableOf(Flat(a)), k, p);
    ShownIsStored(TableOf(Flat(b)), k, p);
    MergeHoldsUnion(a, k, p);
    MergeHoldsUnion(b, k, p);
  }

  ghost predicate AllAgree(sets: seq<seq<MatrixSeries>>) {
    forall x, y :: x in sets && y in sets ==> Agree(TableOf(x), TableOf(y))
  }

  /** If labels agree, a key shows the labels of any set that has it. */
  lemma {:induction false} MergeShowsAnyMetric(sets: seq<seq<MatrixSeries>>, k: string)
    requires AllAgree(sets)
    ensures k in TableOf(Flat(sets)) <==> exists x :: x in sets && k in TableOf(x)
    ensures forall x :: x in sets && k in TableOf(x) && k in TableOf(Flat(sets)) ==>
      TableOf(Flat(sets))[k].metric == TableOf(x)[k].metric
  {
    if sets != [] {
      var init, last := sets[..|sets| - 1], sets[|sets| - 1];
      assert sets == init + [last];
      FlatStep(sets, |init|);
      assert sets[..|init| + 1] == sets;
      TableOfAppend(Flat(init), last);
      OverlayAt(TableOf(Flat(init)), TableOf(last), k);
      MergeShowsAnyMetric(init, k);
      if k in TableOf(Flat(init)) {
        var y :| y in init && k in TableOf(y);
        assert Agree(TableOf(y), TableOf(last));
      }
    }
  }

  /**
   * If the sets agree where they overlap, points and labels, the whole output does not depend on
   * the order of the arguments.
   */
  lemma MergeOrderInsensitive(a: seq<seq<MatrixSeries>>, b: seq<seq<MatrixSeries>>)
    requires SameSets(a, b) && AllAgree(a)
    ensures Merged(a) == Merged(b)
  {
    var t, u := TableOf(Flat(a)), TableOf(Flat(b));
    forall k ensures At(t, k) == At(u, k) {
      SameEntry(a, b, k);
    }
    SameTable(t, u);
  }

  lemma SameEntry(a: seq<seq<MatrixSeries>>, b: seq<seq<MatrixSeries>>, k: string)
    requires SameSets(a, b) && AllAgree(a)
    ensures At(TableOf(Flat(a)), k) == At(TableOf(Flat(b)), k)
  {
    MergeShowsAnyMetric(a, k);
    MergeShowsAnyMetric(b, k);
    if k in TableOf(Flat(a)) {
      SamePoints(a, b, k);
    }
  }

  lemma SamePoint(a: seq<seq<MatrixSeries>>, b: seq<seq<MatrixSeries>>, k: string, p: Point)
    requires SameSets(a, b) && AllPointsAgree(a) && AllPointsAgree(b)
    ensures Holds(TableOf(Flat(a)), k, p) <==> Holds(TableOf(Flat(b)), k, p)
  {
    MergeHoldsUnion(a, k, p);
    MergeHoldsUnion(b, k, p);
  }

  ghost predicate SameAt(p: map<int, string>, q: map<int, string>, t: int) {
    (t in p <==> t in q) && (t in q ==> p[t] == q[t])
  }

  lemma MapsEqual(p: map<int, string>, q: map<int, string>)
    requires forall t :: SameAt(p, q, t)
    ensures p == q
  {
    forall t | t in p ensures t in q && q[t] == p[t] {
      assert SameAt(p, q, t);
    }
    forall t | t in q ensures t in p {
      assert SameAt(p, q, t);
    }
    assert p.Keys == q.Keys;
  }

  lemma SameTime(a: seq<seq<MatrixSeries>>, b: seq<seq<MatrixSeries>>, k: string, t: int)
    requires SameSets(a, b) && AllPointsAgree(a) && AllPointsAgree(b) && k in TableOf(Flat(a)) && k in TableOf(Flat(b))
    ensures SameAt(TableOf(Flat(a))[k].points, TableOf(Flat(b))[k].points, t)
  {
    var p, q := TableOf(Flat(a))[k].points, TableOf(Flat(b))[k].points;
    if t in p {
      SamePoint(a, b, k, Point(t, p[t]));
    }
    if t in q {
      SamePoint(a, b, k, Point(t, q[t]));
    }
  }

  lemma SamePoints(a: seq<seq<MatrixSeries>>, b: seq<seq<MatrixSeries>>, k: string)
    requires SameSets(a, b) && AllPointsAgree(a) && AllPointsAgree(b) && k in TableOf(Flat(a)) && k in TableOf(Flat(b))
    ensures TableOf(Flat(a))[k].points == TableOf(Flat(b))[k].points
  {
    var p, q := TableOf(Flat(a))[k].points, TableOf(Flat(b))[k].points;
    forall t ensures SameAt(p, q, t) {
      SameTime(a, b, k, t);
    }
    MapsEqual(p, q);
  }

  ghost function Metrics(xs: seq<MatrixSeries>): set<LabelMap> {
    set s | s in xs :: s.metric
  }

  ghost predicate PlainLabels(xs: seq<MatrixSeries>) {
    forall s :: s in xs ==> PlainNames(s.metric) && PlainValues(s.metric)
  }

  /** Every key of a table belongs to a given series, whose metric it shows. */
  lemma {:induction false} TableMetric(xs: seq<MatrixSeries>, k: string) returns (s: MatrixSeries)
    requires k in TableOf(xs)
    ensures s in xs && s.metric == TableOf(xs)[k].metric
  {
    var n := |xs| - 1;
    OverlayAt(TableOf(xs[..n]), Single(xs[n]), k);
    if k in TableOf(xs[..n]) {
      s := TableMetric(xs[..n], k);
    } else {
      s := xs[n];
    }
  }

  lemma {:induction false} TableHasKey(xs: seq<MatrixSeries>, s: MatrixSeries)
    requires s in xs
    ensures KeyOf(s.metric) in TableOf(xs)
  {
    var n := |xs| - 1;
    OverlayAt(TableOf(xs[..n]), Single(xs[n]), KeyOf(s.metric));
    if s != xs[n] {
      TableHasKey(xs[..n], s);
    }
  }

  /** Keys and timestamps come out strictly ascending. */
  lemma MergeIsSorted(sets: seq<seq<MatrixSeries>>, i: int)
    requires 0 <= i < |Merged(sets)|
    ensures forall j :: i < j < |Merged(sets)| ==>
      Before(KeyOf(Merged(sets)[i].metric), KeyOf(Merged(sets)[j].metric))
    ensures forall p, q :: 0 <= p < q < |Merged(sets)[i].values| ==>
      Merged(sets)[i].values[p].ts < Merged(sets)[i].values[q].ts
  {
    var t := TableOf(Flat(sets));
    var names := AscNames(t.Keys);
    TableOfKeyed(Flat(sets));
    forall j | i < j < |Merged(sets)|
      ensures Before(KeyOf(Merged(sets)[i].metric), KeyOf(Merged(sets)[j].metric))
    {
      assert Before(names[i], names[j]);
    }
    var times := AscInts(t[names[i]].points.Keys);
    forall p, q | 0 <= p < q < |Merged(sets)[i].values|
      ensures Merged(sets)[i].values[p].ts < Merged(sets)[i].values[q].ts
    {
      assert IntLt(times[p], times[q]);
    }
  }

  /**
   * On plain labels the merge never joins two different series: its series carry
   * exactly the metrics given, no metric twice.
   */
  lemma MergeKeepsSeriesApart(sets: seq<seq<MatrixSeries>>)
    requires PlainLabels(Flat(sets))
    ensures Metrics(Merged(sets)) == Metrics(Flat(sets))
    ensures forall i, j :: 0 <= i < j < |Merged(sets)| ==> Merged(sets)[i].metric != Merged(sets)[j].metric
  {
    var xs, out := Flat(sets), Merged(sets);
    forall m | m in Metrics(out) ensures m in Metrics(xs) {
      var i :| 0 <= i < |out| && out[i].metric == m;
      var s := TableMetric(xs, AscNames(TableOf(xs).Keys)[i]);
    }
    forall m | m in Metrics(xs) ensures m in Metrics(out) {
      var s :| s in xs && s.metric == m;
      var i := RenderedAs(xs, s);
    }
    forall i, j | 0 <= i < j < |out| ensures out[i].metric != out[j].metric {
      MergeIsSorted(sets, i);
      BeforeIrreflexive(KeyOf(out[i].metric));
    }
  }

  lemma RenderedAs(xs: seq<MatrixSeries>, s: MatrixSeries) returns (i: nat)
    requires PlainLabels(xs) && s in xs
    ensures i < |Render(TableOf(xs))| && Render(TableOf(xs))[i].metric == s.metric
  {
    var names, k := AscNames(TableOf(xs).Keys), KeyOf(s.metric);
    TableHasKey(xs, s);
    assert k in Elems(names);
    i :| i < |names| && names[i] == k;
    var x := TableMetric(xs, k);
    TableOfKeyed(xs);
    SeriesKeyInjective(x.metric, s.metric);
  }
}
