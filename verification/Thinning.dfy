/** `Downsample`: greedy thinning of matrix series (chunk.go). */
module Thinning {
  import opened Series

  /** The points kept once the next admissible timestamp is `next`. */
  function Thin(vs: seq<Point>, next: int, step: int): seq<Point> {
    if vs == [] then []
    else if vs[0].ts >= next then [vs[0]] + Thin(vs[1..], vs[0].ts + step, step)
    else Thin(vs[1..], next, step)
  }

  function ThinSeries(s: MatrixSeries, step: int): MatrixSeries {
    if s.values == [] then s else MatrixSeries(s.metric, Thin(s.values, s.values[0].ts, step))
  }

  /** `Downsample` as a function: every series on its own. */
  function Downsampled(series: seq<MatrixSeries>, step: int): (r: seq<MatrixSeries>)
    ensures |r| == |series|
  {
    if step <= 0 then series
    else seq(|series|, i requires 0 <= i < |series| => ThinSeries(series[i], step))
  }

  method Downsample(series: seq<MatrixSeries>, targetStepSec: int) returns (out: seq<MatrixSeries>)
    ensures out == Downsampled(series, targetStepSec)
  {
    if targetStepSec <= 0 {
      return series;
    }
    out := [];
    for i := 0 to |series|
      invariant |out| == i
      invariant forall k :: 0 <= k < i ==> out[k] == ThinSeries(series[k], targetStepSec)
    {
      var s := series[i];
      if s.values == [] {
        out := out + [s];
      } else {
        var nextTs := s.values[0].ts;
        var filtered := [];
        for j := 0 to |s.values|
          invariant filtered + Thin(s.values[j..], nextTs, targetStepSec)
                 == Thin(s.values, s.values[0].ts, targetStepSec)
        {
          var p := s.values[j];
          assert s.values[j..][1..] == s.values[j + 1..];
          if p.ts >= nextTs {
            assert filtered + ([p] + Thin(s.values[j + 1..], p.ts + targetStepSec, targetStepSec))
                == (filtered + [p]) + Thin(s.values[j + 1..], p.ts + targetStepSec, targetStepSec);
            filtered := filtered + [p];
            nextTs := p.ts + targetStepSec;
          }
        }
        assert filtered + Thin([], nextTs, targetStepSec) == filtered;
        out := out + [MatrixSeries(s.metric, filtered)];
      }
    }
  }

  // ---- why the greedy choice is the right one ------------------------------------

  ghost predicate Increasing(vs: seq<Point>) {
    forall i, j :: 0 <= i < j < |vs| ==> vs[i].ts < vs[j].ts
  }

  /** Consecutive points lie at least `step` apart. */
  ghost predicate Gapped(vs: seq<Point>, step: int) {
    forall i :: 0 <= i < |vs| - 1 ==> vs[i].ts + step <= vs[i + 1].ts
  }

  /** `a` arises from `b` by leaving points out. */
  ghost predicate Subsequence(a: seq<Point>, b: seq<Point>) {
    a == [] || (b != [] && (if a[0] == b[0] then Subsequence(a[1..], b[1..]) else Subsequence(a, b[1..])))
  }

  /** What `Downsample` keeps of one series. */
  ghost function Kept(vs: seq<Point>, step: int): seq<Point> {
    if vs == [] then [] else Thin(vs, vs[0].ts, step)
  }

  lemma GappedCons(p: Point, rest: seq<Point>, step: int)
    requires Gapped(rest, step) && forall q :: q in rest ==> q.ts >= p.ts + step
    ensures Gapped([p] + rest, step)
  {
    var r := [p] + rest;
    forall i | 0 <= i < |r| - 1 ensures r[i].ts + step <= r[i + 1].ts {
      assert r[i + 1] == rest[i] && rest[i] in rest;
      if i > 0 { assert r[i] == rest[i - 1]; }
    }
  }

  lemma {:induction false} ThinShape(vs: seq<Point>, next: int, step: int)
    requires step > 0
    ensures Subsequence(Thin(vs, next, step), vs)
    ensures Gapped(Thin(vs, next, step), step)
    ensures forall p :: p in Thin(vs, next, step) ==> p.ts >= next && p in vs
  {
    if vs != [] {
      if vs[0].ts >= next {
        ThinShape(vs[1..], vs[0].ts + step, step);
        var rest := Thin(vs[1..], vs[0].ts + step, step);
        GappedCons(vs[0], rest, step);
        KeepHead(rest, vs);
      } else {
        ThinShape(vs[1..], next, step);
        SkipHead(Thin(vs, next, step), vs);
      }
    }
  }

  lemma KeepHead(a: seq<Point>, b: seq<Point>)
    requires b != [] && Subsequence(a, b[1..])
    ensures Subsequence([b[0]] + a, b)
  {
    assert ([b[0]] + a)[1..] == a;
  }

  lemma SkipHead(a: seq<Point>, b: seq<Point>)
    requires b != [] && Subsequence(a, b[1..])
    ensures Subsequence(a, b)
  {
    if a != [] && a[0] == b[0] { DropHead(a, b[1..]); }
  }

  lemma {:induction false} DropHead(a: seq<Point>, b: seq<Point>)
    requires a != [] && Subsequence(a, b)
    ensures Subsequence(a[1..], b)
  {
    if a[0] == b[0] {
      SkipHead(a[1..], b);
    } else {
      DropHead(a, b[1..]);
      SkipHead(a[1..], b);
    }
  }

  /** Every dropped point lies less than one step after a kept one. */
  lemma {:induction false} ThinCovers(vs: seq<Point>, next: int, step: int, p: Point)
    requires step > 0 && Increasing(vs) && p in vs && p.ts >= next
    ensures exists q :: q in Thin(vs, next, step) && q.ts <= p.ts < q.ts + step
  {
    if vs[0].ts >= next {
      var rest := Thin(vs[1..], vs[0].ts + step, step);
      assert vs[0] in Thin(vs, next, step);
      if p.ts >= vs[0].ts + step {
        ThinCovers(vs[1..], vs[0].ts + step, step, p);
        var q :| q in rest && q.ts <= p.ts < q.ts + step;
        assert q in Thin(vs, next, step);
      } else {
        assert p == vs[0] || p in vs[1..];
      }
    } else {
      ThinCovers(vs[1..], next, step, p);
    }
  }

  lemma GappedTail(h: seq<Point>, step: int)
    requires h != [] && Gapped(h, step)
    ensures Gapped(h[1..], step) && (h[1..] != [] ==> h[1..][0].ts >= h[0].ts + step)
  {
    var t := h[1..];
    forall i | 0 <= i < |t| - 1 ensures t[i].ts + step <= t[i + 1].ts {
      assert t[i] == h[i + 1] && t[i + 1] == h[i + 1 + 1];
    }
  }

  /** The greedy choice stays ahead of every other gapped choice. */
  lemma {:induction false} GreedyStaysAhead(h: seq<Point>, vs: seq<Point>, next: int, step: int)
    requires step > 0 && Increasing(vs) && Subsequence(h, vs) && Gapped(h, step)
    requires h != [] ==> h[0].ts >= next
    ensures |h| <= |Thin(vs, next, step)|
    decreases vs
  {
    if h != [] {
      if vs[0].ts >= next {
        if h[0] != vs[0] { DropHead(h, vs[1..]); }
        SubsequenceMembers(h, vs);
        assert h[0] in h;
        assert vs[0].ts <= h[0].ts;
        GappedTail(h, step);
        GreedyStaysAhead(h[1..], vs[1..], vs[0].ts + step, step);
      } else {
        GreedyStaysAhead(h, vs[1..], next, step);
      }
    }
  }

  lemma {:induction false} SubsequenceMembers(a: seq<Point>, b: seq<Point>)
    requires Subsequence(a, b)
    ensures forall p :: p in a ==> p in b
  {
    if a != [] {
      if a[0] == b[0] {
        SubsequenceMembers(a[1..], b[1..]);
        assert a == [a[0]] + a[1..];
      } else {
        SubsequenceMembers(a, b[1..]);
      }
    }
  }

  lemma {:induction false} ThinFixed(vs: seq<Point>, next: int, step: int)
    requires step > 0 && Gapped(vs, step) && (vs != [] ==> vs[0].ts >= next)
    ensures Thin(vs, next, step) == vs
  {
    if vs != [] {
      GappedTail(vs, step);
      ThinFixed(vs[1..], vs[0].ts + step, step);
    }
  }

  lemma LongestKept(vs: seq<Point>, step: int, h: seq<Point>)
    requires step > 0 && Increasing(vs) && Subsequence(h, vs) && Gapped(h, step)
    ensures |h| <= |Kept(vs, step)|
  {
    SubsequenceMembers(h, vs);
    if h != [] {
      assert h[0] in h && h[0] in vs;
      GreedyStaysAhead(h, vs, vs[0].ts, step);
    }
  }

  lemma Covered(vs: seq<Point>, step: int, p: Point)
    requires step > 0 && Increasing(vs) && p in vs
    ensures exists q :: q in Kept(vs, step) && q.ts <= p.ts < q.ts + step
  {
    ThinCovers(vs, vs[0].ts, step, p);
  }

  lemma KeptTwice(vs: seq<Point>, step: int)
    requires step > 0
    ensures Kept(Kept(vs, step), step) == Kept(vs, step)
  {
    if vs != [] {
      ThinShape(vs, vs[0].ts, step);
      ThinFixed(Kept(vs, step), Kept(vs, step)[0].ts, step);
    }
  }

  /**
   * On strictly increasing timestamps `Downsample` keeps a longest subsequence with gaps
   * of at least the step, covers every dropped point, and a second pass changes nothing.
   */
  lemma DownsampleOptimal(vs: seq<Point>, step: int)
    requires step > 0 && Increasing(vs)
    ensures Subsequence(Kept(vs, step), vs) && Gapped(Kept(vs, step), step)
    ensures forall h :: Subsequence(h, vs) && Gapped(h, step) ==> |h| <= |Kept(vs, step)|
    ensures forall p :: p in vs ==> exists q :: q in Kept(vs, step) && q.ts <= p.ts < q.ts + step
    ensures Kept(Kept(vs, step), step) == Kept(vs, step)
  {
    if vs != [] {
      ThinShape(vs, vs[0].ts, step);
    }
    forall h | Subsequence(h, vs) && Gapped(h, step) ensures |h| <= |Kept(vs, step)| {
      LongestKept(vs, step, h);
    }
    forall p | p in vs ensures exists q :: q in Kept(vs, step) && q.ts <= p.ts < q.ts + step {
      Covered(vs, step, p);
    }
    KeptTwice(vs, step);
  }
}
