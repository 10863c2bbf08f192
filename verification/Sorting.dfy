/** The ascending listing of a finite set, and the insertion sort that computes it. */
module Sorting {

  ghost predicate StrictOrder<T(!new)>(lt: (T, T) -> bool) {
    && (forall x :: !lt(x, x))
    && (forall x, y :: x == y || lt(x, y) || lt(y, x))
    && (forall x, y, z :: lt(x, y) && lt(y, z) ==> lt(x, z))
  }

  predicate Ascending<T>(q: seq<T>, lt: (T, T) -> bool) {
    forall i, j :: 0 <= i < j < |q| ==> lt(q[i], q[j])
  }

  predicate NoDup<T(==)>(q: seq<T>) {
    forall i, j :: 0 <= i < j < |q| ==> q[i] != q[j]
  }

  function Elems<T(==)>(q: seq<T>): set<T> {
    set x | x in q
  }

  /** An ascending listing is determined by the elements it lists. */
  lemma {:induction false} AscendingUnique<T(!new)>(p: seq<T>, q: seq<T>, lt: (T, T) -> bool)
    requires StrictOrder(lt) && Ascending(p, lt) && Ascending(q, lt) && Elems(p) == Elems(q)
    ensures p == q
  {
    assert forall x :: x in p <==> x in Elems(p);
    assert forall x :: x in q <==> x in Elems(q);
    assert p != [] ==> p[0] in Elems(p);
    assert q != [] ==> q[0] in Elems(q);
    if p != [] {
      var i :| 0 <= i < |p| && p[i] == q[0];
      var j :| 0 <= j < |q| && q[j] == p[0];
      assert i == 0 || j == 0;
      TailElems(p, lt);
      TailElems(q, lt);
      AscendingUnique(p[1..], q[1..], lt);
      assert p == [p[0]] + p[1..] && q == [q[0]] + q[1..];
    }
  }

  lemma TailElems<T(!new)>(p: seq<T>, lt: (T, T) -> bool)
    requires StrictOrder(lt) && Ascending(p, lt) && p != []
    ensures Elems(p[1..]) == Elems(p) - {p[0]} && Ascending(p[1..], lt)
  {
    assert p == [p[0]] + p[1..];
    forall x | x in p[1..] ensures x != p[0] {
      assert lt(p[0], x);
    }
  }

  /** Where `x` goes in an ascending list. */
  function InsertionPoint<T>(q: seq<T>, x: T, lt: (T, T) -> bool): (k: nat)
    ensures k <= |q|
    ensures forall i :: 0 <= i < k ==> lt(q[i], x)
    ensures k < |q| ==> !lt(q[k], x)
  {
    if q != [] && lt(q[0], x) then 1 + InsertionPoint(q[1..], x, lt) else 0
  }

  lemma Inserted<T(!new)>(q: seq<T>, x: T, k: nat, lt: (T, T) -> bool)
    requires StrictOrder(lt) && Ascending(q, lt) && k <= |q| && x !in q
    requires forall i :: 0 <= i < k ==> lt(q[i], x)
    requires k < |q| ==> !lt(q[k], x)
    ensures Ascending(q[..k] + [x] + q[k..], lt)
    ensures Elems(q[..k] + [x] + q[k..]) == Elems(q) + {x}
  {
    forall i | k <= i < |q| ensures lt(x, q[i]) {
      assert q[k] in q && lt(x, q[k]);
      if i > k { assert lt(q[k], q[i]); }
    }
    InsertedElems(q, x, k);
  }

  lemma InsertedElems<T>(q: seq<T>, x: T, k: nat)
    requires k <= |q|
    ensures Elems(q[..k] + [x] + q[k..]) == Elems(q) + {x}
  {
    assert q == q[..k] + q[k..];
    forall y ensures y in q[..k] + [x] + q[k..] <==> y in q || y == x {
      assert y in q <==> y in q[..k] || y in q[k..];
    }
  }

  /** `sort.Strings`, `sort.Slice` and `slices.Sort` on lists without repetition. */
  method Sort<T(==,!new)>(q: seq<T>, lt: (T, T) -> bool) returns (r: seq<T>)
    requires StrictOrder(lt) && NoDup(q)
    ensures Ascending(r, lt) && Elems(r) == Elems(q)
  {
    r := [];
    for n := 0 to |q|
      invariant Ascending(r, lt) && Elems(r) == Elems(q[..n])
    {
      assert q[n] !in q[..n];
      assert q[n] !in Elems(q[..n]);
      assert q[n] in r <==> q[n] in Elems(r);
      var k := InsertionPoint(r, q[n], lt);
      Inserted(r, q[n], k, lt);
      r := r[..k] + [q[n]] + r[k..];
      assert q[..n + 1] == q[..n] + [q[n]];
    }
    assert q[..|q|] == q;
  }

  lemma {:induction false} AscendingExists<T(!new)>(s: set<T>, lt: (T, T) -> bool) returns (q: seq<T>)
    requires StrictOrder(lt)
    ensures Ascending(q, lt) && Elems(q) == s
  {
    if s == {} {
      q := [];
    } else {
      var x :| x in s;
      var p := AscendingExists(s - {x}, lt);
      assert x in p <==> x in Elems(p);
      var k := InsertionPoint(p, x, lt);
      Inserted(p, x, k, lt);
      q := p[..k] + [x] + p[k..];
    }
  }

  ghost function Listing<T(!new)>(s: set<T>, lt: (T, T) -> bool): (q: seq<T>)
    requires StrictOrder(lt)
    ensures Ascending(q, lt) && Elems(q) == s
  {
    assert exists q :: Ascending(q, lt) && Elems(q) == s by {
      var q := AscendingExists(s, lt);
    }
    var q :| Ascending(q, lt) && Elems(q) == s;
    q
  }

  // ---- integers ---------------------------------------------------------

  predicate IntLt(a: int, b: int) { a < b }

  /** The elements of `s` in ascending order. */
  ghost function AscInts(s: set<int>): (q: seq<int>)
    ensures Ascending(q, IntLt) && Elems(q) == s
  {
    Listing(s, IntLt)
  }

  lemma AscIntsIs(q: seq<int>)
    requires Ascending(q, IntLt)
    ensures AscInts(Elems(q)) == q
  {
    AscendingUnique(q, AscInts(Elems(q)), IntLt);
  }

  // ---- strings: Go compares bytes, which orders UTF-8 text by code point ----

  predicate Before(a: string, b: string) {
    |b| > 0 && (|a| == 0 || a[0] < b[0] || (a[0] == b[0] && Before(a[1..], b[1..])))
  }

  /** `a` is a proper beginning of `b`, or has the smaller character where they first differ, at `i`. */
  predicate PartAt(a: string, b: string, i: int) {
    0 <= i <= |a| && i < |b| && a[..i] == b[..i] && (i == |a| || a[i] < b[i])
  }

  lemma {:induction false} BeforeIff(a: string, b: string)
    ensures Before(a, b) <==> exists i :: PartAt(a, b, i)
  {
    if a == [] || b == [] {
      assert b != [] ==> PartAt(a, b, 0);
    } else {
      BeforeIff(a[1..], b[1..]);
      assert a == [a[0]] + a[1..] && b == [b[0]] + b[1..];
      if a[0] < b[0] {
        assert PartAt(a, b, 0);
      }
      forall i | PartAt(a[1..], b[1..], i) && a[0] == b[0] ensures PartAt(a, b, i + 1) {
        assert a[..i + 1] == [a[0]] + a[1..][..i] && b[..i + 1] == [b[0]] + b[1..][..i];
      }
      forall i | PartAt(a, b, i) && i > 0 ensures a[0] == b[0] && PartAt(a[1..], b[1..], i - 1) {
        assert a[0] == a[..i][0] == b[..i][0] == b[0];
        assert a[1..][..i - 1] == a[..i][1..] && b[1..][..i - 1] == b[..i][1..];
      }
    }
  }

  lemma {:induction false} BeforeIrreflexive(a: string)
    ensures !Before(a, a)
  {
    if a != [] { BeforeIrreflexive(a[1..]); }
  }

  lemma {:induction false} BeforeTotal(a: string, b: string)
    ensures a == b || Before(a, b) || Before(b, a)
  {
    if a != [] && b != [] {
      BeforeTotal(a[1..], b[1..]);
      assert a == [a[0]] + a[1..] && b == [b[0]] + b[1..];
    }
  }

  lemma {:induction false} BeforeTransitive(a: string, b: string, c: string)
    requires Before(a, b) && Before(b, c)
    ensures Before(a, c)
  {
    if a != [] && a[0] == b[0] == c[0] {
      BeforeTransitive(a[1..], b[1..], c[1..]);
    }
  }

  lemma NamesOrdered()
    ensures StrictOrder(Before)
  {
    forall x ensures !Before(x, x) { BeforeIrreflexive(x); }
    forall x, y ensures x == y || Before(x, y) || Before(y, x) { BeforeTotal(x, y); }
    forall x, y, z | Before(x, y) && Before(y, z) ensures Before(x, z) { BeforeTransitive(x, y, z); }
  }

  ghost function AscNames(s: set<string>): (q: seq<string>)
    ensures Ascending(q, Before) && Elems(q) == s
  {
    NamesOrdered();
    Listing(s, Before)
  }

  lemma AscNamesIs(q: seq<string>)
    requires Ascending(q, Before)
    ensures AscNames(Elems(q)) == q
  {
    NamesOrdered();
    AscendingUnique(q, AscNames(Elems(q)), Before);
  }

  /** Ascending names never repeat. */
  lemma AscNamesNoDup(s: set<string>)
    ensures NoDup(AscNames(s)) && |AscNames(s)| == |s|
  {
    var q := AscNames(s);
    forall i, j | 0 <= i < j < |q| ensures q[i] != q[j] {
      assert Before(q[i], q[j]);
      BeforeIrreflexive(q[i]);
    }
    CountElems(q);
  }

  method SortNames(q: seq<string>) returns (r: seq<string>)
    requires NoDup(q)
    ensures Ascending(r, Before) && r == AscNames(Elems(q))
  {
    NamesOrdered();
    r := Sort(q, Before);
    AscNamesIs(r);
  }

  method SortInts(q: seq<int>) returns (r: seq<int>)
    requires NoDup(q)
    ensures Ascending(r, IntLt) && r == AscInts(Elems(q))
  {
    r := Sort(q, IntLt);
    AscIntsIs(r);
  }

  lemma AscIntsNoDup(s: set<int>)
    ensures NoDup(AscInts(s)) && |AscInts(s)| == |s|
  {
    var q := AscInts(s);
    forall i, j | 0 <= i < j < |q| ensures q[i] != q[j] {
      assert IntLt(q[i], q[j]);
    }
    CountElems(q);
  }

  lemma {:induction false} CountElems<T>(q: seq<T>)
    requires NoDup(q)
    ensures |Elems(q)| == |q|
  {
    if q != [] {
      var p := q[..|q| - 1];
      CountElems(p);
      assert q == p + [q[|q| - 1]];
      assert q[|q| - 1] !in p;
      assert Elems(q) == Elems(p) + {q[|q| - 1]};
    }
  }

  /** Lists the keys of a map in the order the runtime happens to yield them. */
  method KeysInAnyOrder<K(==), V>(m: map<K, V>) returns (q: seq<K>)
    ensures NoDup(q) && Elems(q) == m.Keys
  {
    q := [];
    var rest := m.Keys;
    while rest != {}
      invariant rest <= m.Keys
      invariant NoDup(q) && Elems(q) == m.Keys - rest
      decreases |rest|
    {
      var k :| k in rest;
      assert k in q <==> k in Elems(q);
      assert Elems(q + [k]) == Elems(q) + {k};
      q, rest := q + [k], rest - {k};
    }
  }
}
