/** Laws of the additive merge and downsample: they commute, compose, and conserve counts. */
module HitsLaws {
  import opened Base
  import opened Sorting
  import opened Sums
  import opened Hits
  import Series

  function Times(hs: seq<Hit>): set<int> {
    set h | h in hs :: h.ts
  }

  /** Two lists of hits that add up alike, however timestamps are selected. */
  ghost predicate Alike(a: seq<Hit>, b: seq<Hit>) {
    Times(a) == Times(b) && forall sel :: SumWhere(a, sel) == SumWhere(b, sel)
  }

  lemma {:induction false} SumWhereAppend(a: seq<Hit>, b: seq<Hit>, sel: int -> bool)
    ensures SumWhere(a + b, sel) == SumWhere(a, sel) + SumWhere(b, sel)
  {
    if b == [] {
      assert a + b == a;
    } else {
      SumWhereAppend(a, b[..|b| - 1], sel);
      DropLastOfSum(a, b);
    }
  }

  lemma TimesAppend(a: seq<Hit>, b: seq<Hit>)
    ensures Times(a + b) == Times(a) + Times(b)
  {
    assert forall h :: h in a + b <==> h in a || h in b;
  }

  lemma AlikeAppend(a: seq<Hit>, b: seq<Hit>, c: seq<Hit>, d: seq<Hit>)
    requires Alike(a, b) && Alike(c, d)
    ensures Alike(a + c, b + d)
  {
    TimesAppend(a, c);
    TimesAppend(b, d);
    forall sel ensures SumWhere(a + c, sel) == SumWhere(b + d, sel) {
      SumWhereAppend(a, c, sel);
      SumWhereAppend(b, d, sel);
    }
  }

  /** The seconds whose bucket is selected. */
  ghost function Bucketed(sel: int -> bool, step: int): int -> bool
    requires step > 0
  {
    t => sel(Floor(t, step))
  }

  lemma {:induction false} SumWhereRebucket(hs: seq<Hit>, step: int, sel: int -> bool)
    requires step > 0
    ensures SumWhere(Rebucket(hs, step), sel) == SumWhere(hs, Bucketed(sel, step))
  {
    if hs != [] {
      var n := |hs| - 1;
      SumWhereRebucket(hs[..n], step, sel);
      assert Rebucket(hs, step)[..n] == Rebucket(hs[..n], step);
    }
  }

  lemma TimesRebucket(hs: seq<Hit>, step: int, b: int)
    requires step > 0
    ensures b in Times(Rebucket(hs, step)) <==> exists t :: t in Times(hs) && Floor(t, step) == b
  {
    var r := Rebucket(hs, step);
    if b in Times(r) {
      var i :| 0 <= i < |r| && r[i].ts == b;
      assert hs[i] in hs;
    }
    if exists t :: t in Times(hs) && Floor(t, step) == b {
      var t :| t in Times(hs) && Floor(t, step) == b;
      var i :| 0 <= i < |hs| && hs[i].ts == t;
      assert r[i] in r;
    }
  }

  lemma AlikeRebucket(a: seq<Hit>, b: seq<Hit>, step: int)
    requires step > 0 && Alike(a, b)
    ensures Alike(Rebucket(a, step), Rebucket(b, step))
  {
    forall sel ensures SumWhere(Rebucket(a, step), sel) == SumWhere(Rebucket(b, step), sel) {
      SumWhereRebucket(a, step, sel);
      SumWhereRebucket(b, step, sel);
    }
    forall t ensures t in Times(Rebucket(a, step)) <==> t in Times(Rebucket(b, step)) {
      TimesRebucket(a, step, t);
      TimesRebucket(b, step, t);
    }
  }

  // ---- cells -----------------------------------------------------------------------

  function Exactly(t: int): int -> bool {
    x => x == t
  }

  lemma {:induction false} CellsAt(hs: seq<Hit>, t: int)
    ensures t in CellsOf(hs) <==> t in Times(hs)
    ensures Val(CellsOf(hs), t) == SumWhere(hs, Exactly(t))
  {
    if hs != [] {
      var n := |hs| - 1;
      CellsAt(hs[..n], t);
      InitLast(hs);
      TimesAppend(hs[..n], [hs[n]]);
      assert Times([hs[n]]) == {hs[n].ts};
    }
  }

  lemma AlikeCells(a: seq<Hit>, b: seq<Hit>)
    requires Alike(a, b)
    ensures CellsOf(a) == CellsOf(b)
  {
    var p, q := CellsOf(a), CellsOf(b);
    forall t ensures t in p <==> t in q {
      CellsAt(a, t);
      CellsAt(b, t);
    }
    forall t | t in p ensures p[t] == q[t] {
      CellsAt(a, t);
      CellsAt(b, t);
      assert Val(p, t) == Val(q, t);
    }
  }

  lemma {:induction false} CellsSum(hs: seq<Hit>, sel: int -> bool)
    ensures MapSum(CellsOf(hs), Weight(sel)) == SumWhere(hs, sel)
  {
    if hs != [] {
      var n := |hs| - 1;
      CellsSum(hs[..n], sel);
      AddHitSum(CellsOf(hs[..n]), hs[n], sel);
    }
  }

  lemma AddHitSum(m: Cells, h: Hit, sel: int -> bool)
    ensures MapSum(AddHit(m, h), Weight(sel)) == MapSum(m, Weight(sel)) + if sel(h.ts) then h.count else 0.0
  {
    MapSumUpdate(m, Weight(sel), h.ts, Val(m, h.ts) + h.count);
    if h.ts in m {
      MapSumRemove(m, Weight(sel), h.ts);
    }
  }

  lemma ListSum(m: Cells, sel: int -> bool)
    ensures SumWhere(CellList(m), sel) == MapSum(m, Weight(sel))
  {
    var times := AscInts(m.Keys);
    AscIntsNoDup(m.Keys);
    assert forall t :: t in times <==> t in Elems(times);
    ListSumAlong(m, times, CellList(m), sel);
    SumAlongAny(times, m, Weight(sel));
  }

  lemma {:induction false} ListSumAlong(m: Cells, times: seq<int>, list: seq<Hit>, sel: int -> bool)
    requires |list| == |times| && forall t :: t in times ==> t in m
    requires forall i :: 0 <= i < |list| ==> times[i] in m && list[i] == Hit(times[i], m[times[i]])
    ensures SumWhere(list, sel) == SumAlong(times, m, Weight(sel))
  {
    if list != [] {
      var n := |list| - 1;
      ListSumAlong(m, times[..n], list[..n], sel);
    }
  }

  /** Writing hits out as cells and reading them back adds up alike. */
  lemma ListedAlike(hs: seq<Hit>)
    ensures Alike(CellList(CellsOf(hs)), hs)
  {
    forall t ensures t in CellsOf(hs).Keys <==> t in Times(hs) {
      CellsAt(hs, t);
    }
    forall sel ensures SumWhere(CellList(CellsOf(hs)), sel) == SumWhere(hs, sel) {
      ListSum(CellsOf(hs), sel);
      CellsSum(hs, sel);
    }
  }

  lemma {:induction false} PairsBack(hs: seq<Hit>)
    ensures Pairs(Stamps(hs), Counts(hs)) == hs
  {
    if hs != [] {
      PairsBack(hs[1..]);
      assert Stamps(hs)[1..] == Stamps(hs[1..]) && Counts(hs)[1..] == Counts(hs[1..]);
    }
  }

  lemma WrittenHits(r: Row)
    ensures HitsOf(Written(r)) == CellList(r.cells)
  {
    PairsBack(CellList(r.cells));
  }

  lemma CoarseAlike(s: HitsSeries, step: int)
    requires step > 0
    ensures Alike(HitsOf(Coarse(s, step)), Rebucket(HitsOf(s), step))
  {
    WrittenHits(Row(s.fields, CellsOf(Rebucket(HitsOf(s), step))));
    ListedAlike(Rebucket(HitsOf(s), step));
  }

  // ---- downsampling commutes with merging ----------------------------------------------

  lemma RebucketAppend(a: seq<Hit>, b: seq<Hit>, step: int)
    requires step > 0
    ensures Rebucket(a + b, step) == Rebucket(a, step) + Rebucket(b, step)
  {
  }

  lemma {:induction false} GroupCoarse(xs: seq<HitsSeries>, k: string, step: int)
    requires step > 0
    ensures Alike(Group(Downsampled(xs, step), k), Rebucket(Group(xs, k), step))
  {
    if xs != [] {
      var n := |xs| - 1;
      var ys := Downsampled(xs, step);
      assert ys[..n] == Downsampled(xs[..n], step);
      GroupCoarse(xs[..n], k, step);
      if FieldsKey(xs[n].fields) == k {
        CoarseAlike(xs[n], step);
        RebucketAppend(Group(xs[..n], k), HitsOf(xs[n]), step);
        AlikeAppend(Group(ys[..n], k), Rebucket(Group(xs[..n], k), step), HitsOf(ys[n]), Rebucket(HitsOf(xs[n]), step));
      } else {
        assert Group(xs[..n], k) + [] == Group(xs[..n], k);
        assert Group(ys[..n], k) + [] == Group(ys[..n], k);
      }
    }
  }

  lemma KeysCoarse(xs: seq<HitsSeries>, step: int)
    ensures Keys(Downsampled(xs, step)) == Keys(xs)
  {
    var ys := Downsampled(xs, step);
    forall k ensures k in Keys(ys) <==> k in Keys(xs) {
      if k in Keys(ys) {
        var i :| 0 <= i < |ys| && FieldsKey(ys[i].fields) == k;
        assert xs[i] in xs;
      }
      if k in Keys(xs) {
        var i :| 0 <= i < |xs| && FieldsKey(xs[i].fields) == k;
        assert ys[i] in ys;
      }
    }
  }

  lemma {:induction false} FirstCoarse(xs: seq<HitsSeries>, k: string, step: int)
    ensures FirstFields(Downsampled(xs, step), k) == FirstFields(xs, k)
  {
    if xs != [] {
      FirstCoarse(xs[1..], k, step);
      assert Downsampled(xs, step)[1..] == Downsampled(xs[1..], step);
    }
  }

  ghost function EachDownsampled(sets: seq<seq<HitsSeries>>, step: int): (r: seq<seq<HitsSeries>>)
    ensures |r| == |sets| && forall i :: 0 <= i < |r| ==> r[i] == Downsampled(sets[i], step)
  {
    seq(|sets|, i requires 0 <= i < |sets| => Downsampled(sets[i], step))
  }

  ghost predicate Maps<A(!new), B(!new)>(f: A -> B, q: seq<A>, r: seq<B>) {
    |r| == |q| && forall i :: 0 <= i < |q| ==> r[i] == f(q[i])
  }

  lemma MapsAppend<A(!new), B(!new)>(f: A -> B, p: seq<A>, q: seq<A>, fp: seq<B>, fq: seq<B>, fpq: seq<B>)
    requires Maps(f, p, fp) && Maps(f, q, fq) && Maps(f, p + q, fpq)
    ensures fpq == fp + fq
  {
    forall i | 0 <= i < |fpq| ensures fpq[i] == (fp + fq)[i] {
      assert (p + q)[i] == if i < |p| then p[i] else q[i - |p|];
    }
  }

  ghost function Coarsening(step: int): HitsSeries -> HitsSeries {
    x => if step <= 0 then x else Coarse(x, step)
  }

  lemma CoarseAppend(a: seq<HitsSeries>, b: seq<HitsSeries>, step: int)
    ensures Downsampled(a + b, step) == Downsampled(a, step) + Downsampled(b, step)
  {
    MapsAppend(Coarsening(step), a, b, Downsampled(a, step), Downsampled(b, step), Downsampled(a + b, step));
  }

  lemma {:induction false} FlatCoarse(sets: seq<seq<HitsSeries>>, step: int)
    ensures Series.Flat(EachDownsampled(sets, step)) == Downsampled(Series.Flat(sets), step)
  {
    if sets != [] {
      var n := |sets| - 1;
      FlatCoarse(sets[..n], step);
      assert EachDownsampled(sets, step)[..n] == EachDownsampled(sets[..n], step);
      CoarseAppend(Series.Flat(sets[..n]), sets[n], step);
    }
  }

  lemma RowCommutes(xs: seq<HitsSeries>, k: string, step: int)
    requires step > 0
    ensures Coarse(Written(RowFor(xs, k)), step) == Written(RowFor(Downsampled(xs, step), k))
  {
    var g := Group(xs, k);
    WrittenHits(RowFor(xs, k));
    ListedAlike(g);
    AlikeRebucket(CellList(CellsOf(g)), g, step);
    AlikeCells(Rebucket(CellList(CellsOf(g)), step), Rebucket(g, step));
    GroupCoarse(xs, k, step);
    AlikeCells(Group(Downsampled(xs, step), k), Rebucket(g, step));
    FirstCoarse(xs, k, step);
  }

  /** Downsampling the merge equals merging the downsampled inputs, on inputs of any shape. */
  lemma DownsampleCommutesWithMerge(sets: seq<seq<HitsSeries>>, step: int)
    requires step > 0
    ensures Downsampled(Merged(sets), step) == Merged(EachDownsampled(sets, step))
  {
    var xs := Series.Flat(sets);
    FlatCoarse(sets, step);
    KeysCoarse(xs, step);
    var l, r := Downsampled(Merged(sets), step), Merged(EachDownsampled(sets, step));
    var names := AscNames(Keys(xs));
    forall i | 0 <= i < |l| ensures l[i] == r[i] {
      RowCommutes(xs, names[i], step);
    }
  }

  // ---- downsampling twice ---------------------------------------------------------------

  lemma FloorFloor(x: int, a: int, b: int)
    requires a > 0 && b > 0 && b % a == 0
    ensures Floor(Floor(x, a), b) == Floor(x, b)
  {
    var y := if x >= 0 then x else -x;
    NatFloorFloor(y, a, b);
    MirrorFloor(y, a);
    MirrorFloor(y, b);
    MirrorFloor(Floor(y, a), b);
  }

  lemma MirrorFloor(x: int, b: int)
    requires b > 0 && x >= 0
    ensures Floor(-x, b) == -Floor(x, b)
    ensures Floor(x, b) >= 0
  {
    var q := x / b;
    assert x == q * b + x % b;
    assert (-q) * b == -(q * b);
    assert q >= 0;
    assert q * b >= 0;
  }

  lemma NatFloorFloor(x: int, a: int, b: int)
    requires x >= 0 && a > 0 && b > 0 && b % a == 0
    ensures Floor(Floor(x, a), b) == Floor(x, b)
  {
    var f, g := Floor(x, b), Floor(x, a);
    var q := x / b;
    assert f == q * b && f <= x < f + b;
    MultipleBelow(x, a, q, b);
    FloorIs(g, q, b);
  }

  /** The multiple of `b` below `x` is also below the multiple of its divisor `a` below `x`. */
  lemma MultipleBelow(x: int, a: int, q: int, b: int)
    requires x >= 0 && a > 0 && b > 0 && b % a == 0 && q >= 0 && q * b <= x < q * b + b
    ensures q * b <= Floor(x, a) < q * b + b
  {
    var g := Floor(x, a);
    MultipleOfDivisor(q, b, a);
    if g < q * b {
      ModAdd(q * b - g, g, a);
      assert q * b - g + g == q * b;
      Shift(q * b - g, a);
    }
  }

  lemma FloorIs(g: int, q: int, b: int)
    requires b > 0 && g >= 0 && q * b <= g < q * b + b
    ensures Floor(g, b) == q * b
  {
    ModIs(g, q, g - q * b, b);
  }

  /** Downsampling by `a` and then by a multiple `b` of `a` is downsampling by `b`. */
  lemma DownsampleComposes(xs: seq<HitsSeries>, a: int, b: int)
    requires a > 0 && b > 0 && b % a == 0
    ensures Downsampled(Downsampled(xs, a), b) == Downsampled(xs, b)
  {
    forall i | 0 <= i < |xs| ensures Coarse(Coarse(xs[i], a), b) == Coarse(xs[i], b) {
      var hs := HitsOf(xs[i]);
      CoarseAlike(xs[i], a);
      AlikeRebucket(HitsOf(Coarse(xs[i], a)), Rebucket(hs, a), b);
      AlikeCells(Rebucket(HitsOf(Coarse(xs[i], a)), b), Rebucket(Rebucket(hs, a), b));
      forall j | 0 <= j < |hs| ensures Rebucket(Rebucket(hs, a), b)[j] == Rebucket(hs, b)[j] {
        FloorFloor(hs[j].ts, a, b);
      }
      assert Rebucket(Rebucket(hs, a), b) == Rebucket(hs, b);
    }
  }

  /** One row with a single hit at time `t`. */
  function SingleHit(t: int): seq<HitsSeries> {
    [HitsSeries(Text(""), [Sec(t)], [1.0], 1.0)]
  }

  /** Exactly then: for a coarser `b`, the two-pass form agrees on all inputs if and only if `a` divides `b`. */
  lemma DownsampleComposesIff(a: int, b: int)
    requires 0 < a < b
    ensures (forall xs :: Downsampled(Downsampled(xs, a), b) == Downsampled(xs, b)) <==> b % a == 0
  {
    if b % a == 0 {
      forall xs ensures Downsampled(Downsampled(xs, a), b) == Downsampled(xs, b) {
        DownsampleComposes(xs, a, b);
      }
    } else {
      TwoPassesDiffer(a, b);
    }
  }

  /** A row with a single hit, written out after bucketing. */
  lemma SingleCoarse(t: int, step: int)
    requires step > 0
    ensures Coarse(SingleHit(t)[0], step) == Written(Row(Text(""), CellsOf([Hit(Floor(t, step), 1.0)])))
  {
    var s := SingleHit(t)[0];
    assert Pairs(s.stamps[1..], s.values[1..]) == [];
    assert Rebucket(HitsOf(s), step) == [Hit(Floor(t, step), 1.0)];
  }

  lemma SingleTwice(t: int, a: int, b: int)
    requires a > 0 && b > 0
    ensures Coarse(Coarse(SingleHit(t)[0], a), b) == Written(Row(Text(""), CellsOf([Hit(Floor(Floor(t, a), b), 1.0)])))
  {
    SingleCoarse(t, a);
    var hs := [Hit(Floor(t, a), 1.0)];
    WrittenHits(Row(Text(""), CellsOf(hs)));
    ListedAlike(hs);
    AlikeRebucket(CellList(CellsOf(hs)), hs, b);
    AlikeCells(Rebucket(CellList(CellsOf(hs)), b), Rebucket(hs, b));
    assert Rebucket(hs, b) == [Hit(Floor(Floor(t, a), b), 1.0)];
  }

  /** Rows with single hits at different times differ. */
  lemma SinglesDiffer(t: int, u: int)
    requires t != u
    ensures Written(Row(Text(""), CellsOf([Hit(t, 1.0)]))) != Written(Row(Text(""), CellsOf([Hit(u, 1.0)])))
  {
    var r, s := Row(Text(""), CellsOf([Hit(t, 1.0)])), Row(Text(""), CellsOf([Hit(u, 1.0)]));
    WrittenHits(r);
    WrittenHits(s);
    CellsAt([Hit(t, 1.0)], t);
    CellsAt([Hit(u, 1.0)], t);
    assert t in r.cells.Keys && t !in s.cells.Keys;
  }

  /** A second that is a multiple of `b` but not of `a` ends up in an earlier bucket after two passes. */
  lemma TwiceIsEarlier(a: int, b: int)
    requires 0 < a <= b && b % a != 0
    ensures a < b && Floor(Floor(b, a), b) == 0 && Floor(b, b) == b
  {
    FloorIs(b, 1, b);
    FloorIs(Floor(b, a), 0, b);
  }

  lemma TwoPassesDiffer(a: int, b: int)
    requires 0 < a < b && b % a != 0
    ensures Downsampled(Downsampled(SingleHit(b), a), b) != Downsampled(SingleHit(b), b)
  {
    TwiceIsEarlier(a, b);
    SinglesApart(b, a, b);
  }

  /** A hit that two passes and one pass put in different buckets. */
  lemma SinglesApart(t: int, a: int, b: int)
    requires a > 0 && b > 0 && Floor(Floor(t, a), b) != Floor(t, b)
    ensures Downsampled(Downsampled(SingleHit(t), a), b) != Downsampled(SingleHit(t), b)
  {
    SingleTwice(t, a, b);
    SingleCoarse(t, b);
    SinglesDiffer(Floor(Floor(t, a), b), Floor(t, b));
    FirstRows(SingleHit(t), a, b);
  }

  lemma FirstRows(xs: seq<HitsSeries>, a: int, b: int)
    requires xs != [] && a > 0 && b > 0
    ensures Downsampled(Downsampled(xs, a), b)[0] == Coarse(Coarse(xs[0], a), b)
    ensures Downsampled(xs, b)[0] == Coarse(xs[0], b)
  {
    assert Downsampled(xs, a)[0] == Coarse(xs[0], a);
  }

  // ---- the rows that come out --------------------------------------------------------------

  lemma {:induction false} FirstFieldsKey(xs: seq<HitsSeries>, k: string)
    requires k in Keys(xs)
    ensures FieldsKey(FirstFields(xs, k)) == k
  {
    if FieldsKey(xs[0].fields) != k {
      assert xs == [xs[0]] + xs[1..];
      FirstFieldsKey(xs[1..], k);
    }
  }

  /**
   * Row by row: the merge has one row per key, in ascending order; a row has the timestamps
   * given for its key, each once, in ascending order, and however timestamps are selected its
   * counts add up to those given for its key.
   */
  lemma MergedRow(sets: seq<seq<HitsSeries>>, i: nat)
    requires i < |Merged(sets)|
    ensures var xs, out := Series.Flat(sets), Merged(sets);
      var hits, k := HitsOf(out[i]), FieldsKey(out[i].fields);
      && |out| == |Keys(xs)| && k in Keys(xs) && out[i].fields == FirstFields(xs, k)
      && (forall j :: i < j < |out| ==> Before(k, FieldsKey(out[j].fields)))
      && Alike(hits, Group(xs, k))
      && forall p, q :: 0 <= p < q < |hits| ==> hits[p].ts < hits[q].ts
  {
    var xs, out := Series.Flat(sets), Merged(sets);
    var names := AscNames(Keys(xs));
    AscNamesNoDup(Keys(xs));
    forall j | 0 <= j < |out| ensures FieldsKey(out[j].fields) == names[j] && names[j] in Keys(xs) {
      assert names[j] in Elems(names);
      FirstFieldsKey(xs, names[j]);
    }
    forall j | i < j < |out| ensures Before(names[i], names[j]) {
    }
    RowIsGroup(RowFor(xs, names[i]), Group(xs, names[i]));
  }

  lemma RowIsGroup(r: Row, hs: seq<Hit>)
    requires r.cells == CellsOf(hs)
    ensures Alike(HitsOf(Written(r)), hs)
    ensures forall p, q :: 0 <= p < q < |HitsOf(Written(r))| ==> HitsOf(Written(r))[p].ts < HitsOf(Written(r))[q].ts
  {
    WrittenHits(r);
    ListedAlike(hs);
  }

  /** Row by row: downsampling keeps the fields, and a bucket counts exactly the hits whose timestamps fall in it. */
  lemma DownsampledRow(xs: seq<HitsSeries>, i: nat, step: int, bucket: int)
    requires i < |xs| && step > 0
    ensures var out := Downsampled(xs, step)[i];
      var hits := HitsOf(out);
      && out.fields == xs[i].fields
      && SumWhere(hits, Exactly(bucket)) == SumWhere(HitsOf(xs[i]), Bucketed(Exactly(bucket), step))
      && (bucket in Times(hits) <==> exists t :: t in Times(HitsOf(xs[i])) && Floor(t, step) == bucket)
      && forall p, q :: 0 <= p < q < |hits| ==> hits[p].ts < hits[q].ts
  {
    var hs := HitsOf(xs[i]);
    RowIsGroup(Row(xs[i].fields, CellsOf(Rebucket(hs, step))), Rebucket(hs, step));
    SumWhereRebucket(hs, step, Exactly(bucket));
    TimesRebucket(hs, step, bucket);
  }

  // ---- conservation ------------------------------------------------------------------------

  /** What a reply shows under a key, at timestamps that are selected. */
  ghost function Shown(xs: seq<HitsSeries>, k: string, sel: int -> bool): real {
    SumWhere(Group(xs, k), sel)
  }

  lemma GroupSnoc(xs: seq<HitsSeries>, row: HitsSeries, k: string)
    ensures Group(xs + [row], k) == Group(xs, k) + if FieldsKey(row.fields) == k then HitsOf(row) else []
  {
    assert (xs + [row])[..|xs|] == xs;
  }

  lemma {:induction false} ShownAppend(a: seq<HitsSeries>, b: seq<HitsSeries>, k: string, sel: int -> bool)
    ensures Shown(a + b, k, sel) == Shown(a, k, sel) + Shown(b, k, sel)
  {
    if b == [] {
      assert a + b == a;
    } else {
      var init, row := b[..|b| - 1], b[|b| - 1];
      assert b == init + [row] && a + b == (a + init) + [row];
      ShownAppend(a, init, k, sel);
      ShownSnoc(a + init, row, k, sel);
      ShownSnoc(init, row, k, sel);
    }
  }

  lemma ShownSnoc(xs: seq<HitsSeries>, row: HitsSeries, k: string, sel: int -> bool)
    ensures Shown(xs + [row], k, sel) == Shown(xs, k, sel) + if FieldsKey(row.fields) == k then
      SumWhere(HitsOf(row), sel) else 0.0
  {
    GroupSnoc(xs, row, k);
    if FieldsKey(row.fields) == k {
      SumWhereAppend(Group(xs, k), HitsOf(row), sel);
    } else {
      assert Group(xs, k) + [] == Group(xs, k);
    }
  }

  /** All counts a reply holds. */
  ghost function Mass(xs: seq<HitsSeries>): real {
    if xs == [] then 0.0 else Mass(xs[..|xs| - 1]) + SumWhere(HitsOf(xs[|xs| - 1]), Everything)
  }

  /** The sum of the totals shown. */
  function Totals(xs: seq<HitsSeries>): real {
    if xs == [] then 0.0 else Totals(xs[..|xs| - 1]) + xs[|xs| - 1].total
  }

  /** The hits of the listed keys. */
  ghost function GroupMass(ks: seq<string>, xs: seq<HitsSeries>): real {
    if ks == [] then 0.0 else GroupMass(ks[..|ks| - 1], xs) + Shown(xs, ks[|ks| - 1], Everything)
  }

  lemma {:induction false} GroupMassSnoc(ks: seq<string>, xs: seq<HitsSeries>, s: HitsSeries)
    requires NoDup(ks)
    ensures GroupMass(ks, xs + [s]) ==
      GroupMass(ks, xs) + if FieldsKey(s.fields) in ks then SumWhere(HitsOf(s), Everything) else 0.0
  {
    if ks != [] {
      var n := |ks| - 1;
      GroupMassSnoc(ks[..n], xs, s);
      InitLast(ks);
      assert ks[n] !in ks[..n];
      ShownSnoc(xs, s, ks[n], Everything);
    }
  }

  lemma {:induction false} GroupMassEmpty(ks: seq<string>)
    ensures GroupMass(ks, []) == 0.0
  {
    if ks != [] { GroupMassEmpty(ks[..|ks| - 1]); }
  }

  lemma {:induction false} GroupsCoverMass(ks: seq<string>, xs: seq<HitsSeries>)
    requires NoDup(ks) && forall s :: s in xs ==> FieldsKey(s.fields) in ks
    ensures GroupMass(ks, xs) == Mass(xs)
  {
    if xs == [] {
      GroupMassEmpty(ks);
    } else {
      var n := |xs| - 1;
      InitLast(xs);
      GroupsCoverMass(ks, xs[..n]);
      GroupMassSnoc(ks, xs[..n], xs[n]);
    }
  }

  lemma {:induction false} RowsMass(rows: seq<HitsSeries>, ks: seq<string>, xs: seq<HitsSeries>)
    requires |rows| == |ks|
    requires forall i :: 0 <= i < |rows| ==> HoldsGroup(rows[i], xs, ks[i])
    ensures Mass(rows) == GroupMass(ks, xs) == Totals(rows)
  {
    if rows != [] {
      var n := |rows| - 1;
      RowsMass(rows[..n], ks[..n], xs);
      assert HoldsGroup(rows[n], xs, ks[n]);
    }
  }

  /** A row counts, and shows as its total, the hits of one key. */
  ghost predicate HoldsGroup(row: HitsSeries, xs: seq<HitsSeries>, k: string) {
    SumWhere(HitsOf(row), Everything) == Shown(xs, k, Everything) == row.total
  }

  lemma ListedMass(xs: seq<HitsSeries>, ks: seq<string>)
    ensures Mass(Listed(xs, ks)) == GroupMass(ks, xs) == Totals(Listed(xs, ks))
  {
    forall i | 0 <= i < |ks| ensures HoldsGroup(Listed(xs, ks)[i], xs, ks[i]) {
      WrittenMass(RowFor(xs, ks[i]), Group(xs, ks[i]));
    }
    RowsMass(Listed(xs, ks), ks, xs);
  }

  lemma WrittenMass(r: Row, hs: seq<Hit>)
    requires r.cells == CellsOf(hs)
    ensures SumWhere(HitsOf(Written(r)), Everything) == SumWhere(hs, Everything) == Written(r).total
  {
    WrittenHits(r);
    ListSum(r.cells, Everything);
    CellsSum(hs, Everything);
  }

  /** Merging conserves counts, and the totals it shows add up to them. */
  lemma MergeConserves(sets: seq<seq<HitsSeries>>)
    ensures Mass(Merged(sets)) == Mass(Series.Flat(sets)) == Totals(Merged(sets))
  {
    var xs := Series.Flat(sets);
    var names := AscNames(Keys(xs));
    AscNamesNoDup(Keys(xs));
    forall s | s in xs ensures FieldsKey(s.fields) in names {
      assert FieldsKey(s.fields) in Elems(names);
    }
    GroupsCoverMass(names, xs);
    ListedMass(xs, names);
  }

  /** Rows that count, and show as totals, what the given rows count. */
  lemma {:induction false} RowsConserve(rows: seq<HitsSeries>, xs: seq<HitsSeries>)
    requires |rows| == |xs|
    requires forall i :: 0 <= i < |xs| ==> Conserves(rows[i], xs[i])
    ensures Mass(rows) == Mass(xs) == Totals(rows)
  {
    if xs != [] {
      var n := |xs| - 1;
      RowsConserve(rows[..n], xs[..n]);
      assert Conserves(rows[n], xs[n]);
    }
  }

  ghost predicate Conserves(row: HitsSeries, s: HitsSeries) {
    SumWhere(HitsOf(row), Everything) == SumWhere(HitsOf(s), Everything) == row.total
  }

  /** So does downsampling. */
  lemma DownsampleConserves(xs: seq<HitsSeries>, step: int)
    requires step > 0
    ensures Mass(Downsampled(xs, step)) == Mass(xs) == Totals(Downsampled(xs, step))
  {
    forall i | 0 <= i < |xs| ensures Conserves(Downsampled(xs, step)[i], xs[i]) {
      CoarseMass(xs[i], step);
    }
    RowsConserve(Downsampled(xs, step), xs);
  }

  lemma CoarseMass(s: HitsSeries, step: int)
    requires step > 0
    ensures Conserves(Coarse(s, step), s)
  {
    var hs := Rebucket(HitsOf(s), step);
    WrittenMass(Row(s.fields, CellsOf(hs)), hs);
    RebucketMass(HitsOf(s), step);
  }

  lemma {:induction false} RebucketMass(hs: seq<Hit>, step: int)
    requires step > 0
    ensures SumWhere(Rebucket(hs, step), Everything) == SumWhere(hs, Everything)
  {
    if hs != [] {
      var n := |hs| - 1;
      RebucketMass(hs[..n], step);
      assert Rebucket(hs, step)[..n] == Rebucket(hs[..n], step);
    }
  }

  lemma {:induction false} MassAppend(a: seq<HitsSeries>, b: seq<HitsSeries>)
    ensures Mass(a + b) == Mass(a) + Mass(b)
  {
    if b == [] {
      assert a + b == a;
    } else {
      MassAppend(a, b[..|b| - 1]);
      DropLastOfSum(a, b);
    }
  }
}
