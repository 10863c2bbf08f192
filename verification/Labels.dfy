/** `SeriesKey`: a label map written as one text (chunk.go). */
module Labels {
  import opened Sorting
  import opened Text

  type LabelMap = map<string, string>

  ghost function Parts(names: seq<string>, labels: LabelMap): (r: seq<string>)
    requires forall n :: n in names ==> n in labels
    ensures |r| == |names|
    ensures forall i :: 0 <= i < |names| ==> r[i] == names[i] + "=" + labels[names[i]]
  {
    seq(|names|, i requires 0 <= i < |names| => assert names[i] in names; names[i] + "=" + labels[names[i]])
  }

  /** The key: `name=value` parts in ascending order of the names, joined by `|`. */
  ghost function KeyOf(labels: LabelMap): string {
    var names := AscNames(labels.Keys);
    assert forall n :: n in names ==> n in Elems(names);
    Join(Parts(names, labels), '|')
  }

  /** `SeriesKey`; the result does not depend on the order the map yields its names in. */
  method SeriesKey(labels: LabelMap) returns (key: string)
    ensures key == KeyOf(labels)
  {
    if |labels| == 0 {
      EmptyKey(labels);
      return "";
    }
    var keys := KeysInAnyOrder(labels);
    keys := SortNames(keys);
    assert keys == AscNames(labels.Keys);
    assert forall n :: n in keys ==> n in Elems(keys);
    var parts := [];
    for i := 0 to |keys|
      invariant |parts| == i
      invariant forall j :: 0 <= j < i ==> parts[j] == Parts(keys, labels)[j]
    {
      assert keys[i] in keys;
      parts := parts + [keys[i] + "=" + labels[keys[i]]];
    }
    assert parts == Parts(keys, labels);
    key := Join(parts, '|');
  }

  lemma EmptyKey(labels: LabelMap)
    requires |labels| == 0
    ensures KeyOf(labels) == ""
  {
    AscNamesNoDup(labels.Keys);
    assert |labels.Keys| == 0;
  }

  /** Label names every telemetry backend emits: neither separator occurs in them. */
  ghost predicate PlainNames(labels: LabelMap) {
    forall n :: n in labels ==> '=' !in n && '|' !in n
  }

  ghost predicate PlainValues(labels: LabelMap) {
    forall n :: n in labels ==> '|' !in labels[n]
  }

  lemma PartsPlain(names: seq<string>, labels: LabelMap)
    requires PlainNames(labels) && PlainValues(labels)
    requires forall n :: n in names ==> n in labels
    ensures forall p :: p in Parts(names, labels) ==> '|' !in p && '=' in p
  {
    var ps := Parts(names, labels);
    forall i | 0 <= i < |ps| ensures '|' !in ps[i] && '=' in ps[i] {
      assert names[i] in names;
      assert ps[i][|names[i]|] == '=';
    }
  }

  lemma {:induction false} PartsInjective(p: seq<string>, a: LabelMap, q: seq<string>, b: LabelMap)
    requires PlainNames(a) && PlainNames(b)
    requires (forall n :: n in p ==> n in a) && (forall n :: n in q ==> n in b)
    requires Parts(p, a) == Parts(q, b)
    ensures p == q && forall n :: n in p ==> n in b && a[n] == b[n]
  {
    assert |p| == |Parts(p, a)| == |Parts(q, b)| == |q|;
    forall i | 0 <= i < |p| ensures p[i] == q[i] && a[p[i]] == b[q[i]] {
      assert p[i] in p && q[i] in q;
      assert Parts(p, a)[i] == p[i] + ['='] + a[p[i]];
      assert Parts(q, b)[i] == q[i] + ['='] + b[q[i]];
      SplitOnce(p[i], a[p[i]], q[i], b[q[i]], '=');
    }
  }

  /** On label maps with plain names and plain values, `SeriesKey` is injective. */
  lemma SeriesKeyInjective(a: LabelMap, b: LabelMap)
    requires PlainNames(a) && PlainNames(b) && PlainValues(a) && PlainValues(b)
    ensures KeyOf(a) == KeyOf(b) <==> a == b
  {
    if KeyOf(a) == KeyOf(b) {
      var p, q := AscNames(a.Keys), AscNames(b.Keys);
      assert forall n :: n in p <==> n in Elems(p);
      assert forall n :: n in q <==> n in Elems(q);
      PartsPlain(p, a);
      PartsPlain(q, b);
      if p == [] || q == [] {
        assert p == q;
      } else {
        JoinInjective(Parts(p, a), Parts(q, b), '|');
        PartsInjective(p, a, q, b);
      }
      assert a.Keys == b.Keys;
    }
  }

  /**
   * Exactly how far the condition on values reaches: a label map with plain names and
   * plain values can be confused with another plain-named map if and only if it has at
   * least two labels, and the other map then always has a `|` in a value.
   */
  lemma ConfusableIffTwoLabels(a: LabelMap)
    requires PlainNames(a) && PlainValues(a)
    ensures (exists b: LabelMap :: PlainNames(b) && b != a && KeyOf(b) == KeyOf(a)) <==> |a| >= 2
    ensures forall b: LabelMap :: PlainNames(b) && b != a && KeyOf(b) == KeyOf(a) ==> !PlainValues(b)
  {
    forall b: LabelMap | PlainNames(b) && b != a && KeyOf(b) == KeyOf(a) ensures !PlainValues(b) && |a| >= 2 {
      if PlainValues(b) {
        SeriesKeyInjective(a, b);
      }
      if |a| <= 1 {
        OneLabelIsUnambiguous(a, b);
      }
    }
    if |a| >= 2 {
      var b := FoldLabels(a);
    }
  }

  lemma OnePlainPart(names: seq<string>, labels: LabelMap)
    requires PlainNames(labels) && PlainValues(labels) && |names| <= 1
    requires forall n :: n in names ==> n in labels
    ensures '|' !in Join(Parts(names, labels), '|')
  {
    PartsPlain(names, labels);
    if |names| == 1 {
      assert Parts(names, labels)[0] in Parts(names, labels);
    }
  }

  lemma OneLabelIsUnambiguous(a: LabelMap, b: LabelMap)
    requires PlainNames(a) && PlainValues(a) && PlainNames(b) && KeyOf(a) == KeyOf(b) && |a| <= 1
    ensures a == b
  {
    var p, q := AscNames(a.Keys), AscNames(b.Keys);
    AscNamesNoDup(a.Keys);
    assert forall n :: n in p <==> n in Elems(p);
    assert forall n :: n in q <==> n in Elems(q);
    OnePlainPart(p, a);
    if p == [] {
      assert q == [];
    } else {
      PartsInjective(p, a, q, b);
    }
    assert a.Keys == b.Keys;
  }

  /** The key of a single label. */
  lemma OneLabelKey(name: string, value: string)
    ensures KeyOf(map[name := value]) == name + "=" + value
  {
    var b: LabelMap := map[name := value];
    assert Ascending([name], Before) && Elems([name]) == b.Keys;
    AscNamesIs([name]);
    assert Parts([name], b) == [name + "=" + value];
  }

  /** Hides all labels but the first in the value of the first: the key does not change. */
  lemma FoldLabels(a: LabelMap) returns (b: LabelMap)
    requires PlainNames(a) && |a| >= 2
    ensures PlainNames(b) && b != a && KeyOf(b) == KeyOf(a)
  {
    var names := AscNames(a.Keys);
    AscNamesNoDup(a.Keys);
    assert forall n :: n in names <==> n in Elems(names);
    var ps := Parts(names, a);
    assert names[0] in names && names[1] in names;
    var tail := Join(ps[1..], '|');
    var value := a[names[0]] + ['|'] + tail;
    b := map[names[0] := value];
    assert names[1] in a && names[1] !in b;
    OneLabelKey(names[0], value);
    assert ps[0] + ['|'] + tail == names[0] + "=" + value;
  }

  /** The doubt in one example: two different services share a key. */
  lemma KeysCanCollide()
    ensures var a := map["a" := "1", "b" := "2"];
      var b := map["a" := "1|b=2"];
      a != b && PlainNames(a) && PlainNames(b) && KeyOf(a) == KeyOf(b) == "a=1|b=2"
  {
    assert "b" in map["a" := "1", "b" := "2"] && "b" !in map["a" := "1|b=2"];
    TwoLabelKey();
    OneLabelKey("a", "1|b=2");
    assert "a" + "=" + "1|b=2" == "a=1|b=2";
  }

  lemma TwoLabelKey()
    ensures KeyOf(map["a" := "1", "b" := "2"]) == "a=1|b=2"
  {
    var a: LabelMap := map["a" := "1", "b" := "2"];
    assert Ascending(["a", "b"], Before) && Elems(["a", "b"]) == a.Keys;
    AscNamesIs(["a", "b"]);
    assert "a" + "=" + "1" == "a=1" && "b" + "=" + "2" == "b=2";
    assert Parts(["a", "b"], a) == ["a=1", "b=2"];
    assert Join(["a=1", "b=2"], '|') == "a=1" + ['|'] + Join(["b=2"], '|');
  }
}
