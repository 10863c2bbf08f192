/** Namespaced domain names: the expression `[a-z][a-z0-9_-]*(\.[a-z][a-z0-9_-]*)+` (routing_semantics.go). */
module Domains {
  import opened Text

  predicate Letter(c: char) {
    'a' <= c <= 'z'
  }

  predicate LabelChar(c: char) {
    Letter(c) || '0' <= c <= '9' || c == '_' || c == '-'
  }

  predicate LabelTail(s: string) {
    forall i :: 0 <= i < |s| ==> LabelChar(s[i])
  }

  predicate Label(s: string) {
    s != [] && Letter(s[0]) && LabelTail(s)
  }

  /**
   * Reading a name from left to right: `atStart` when a label must start here, `dotted` when a
   * dot has been read.
   */
  predicate Scan(s: string, atStart: bool, dotted: bool) {
    if s == [] then !atStart && dotted
    else if atStart then Letter(s[0]) && Scan(s[1..], false, dotted)
    else if s[0] == '.' then Scan(s[1..], true, true)
    else LabelChar(s[0]) && Scan(s[1..], false, dotted)
  }

  predicate Namespaced(s: string) {
    Scan(s, true, false)
  }

  ghost predicate Spelled(labels: seq<string>, s: string) {
    |labels| >= 2 && (forall l :: l in labels ==> Label(l)) && Join(labels, '.') == s
  }

  /** A name is namespaced if and only if it is two or more labels joined by dots. */
  lemma NamespacedIff(s: string)
    ensures Namespaced(s) <==> exists labels :: Spelled(labels, s)
  {
    if Namespaced(s) {
      var labels := ReadLabels(s, false);
      assert Spelled(labels, s);
    }
    forall labels | Spelled(labels, s) ensures Namespaced(s) {
      ScanLabels(labels, false);
    }
  }

  const LETTERS := "abcdefghijklmnopqrstuvwxyz"

  /** A label, spelled out. */
  predicate LabelInLetters(s: string) {
    s != [] && s[0] in LETTERS && forall c :: c in s ==> c in LETTERS + "0123456789_-"
  }

  lemma LabelIff(s: string)
    ensures Label(s) <==> LabelInLetters(s)
  {
    forall c ensures Letter(c) <==> c in LETTERS {
      LetterIff(c);
    }
    forall c ensures LabelChar(c) <==> c in LETTERS + "0123456789_-" {
      LabelCharIff(c);
    }
    forall i | 0 <= i < |s| ensures s[i] in s {
    }
  }

  lemma LetterIff(c: char)
    ensures Letter(c) <==> c in LETTERS
  {
  }

  lemma LabelCharIff(c: char)
    ensures LabelChar(c) <==> c in LETTERS + "0123456789_-"
  {
    LetterIff(c);
    assert '0' <= c <= '9' <==> c in "0123456789";
  }

  /** Two or more labels joined by dots. */
  ghost predicate InLetters(s: string) {
    exists labels: seq<string> ::
      |labels| >= 2 && Join(labels, '.') == s && forall l :: l in labels ==> LabelInLetters(l)
  }

  lemma InLettersIff(s: string)
    ensures Namespaced(s) <==> InLetters(s)
  {
    NamespacedIff(s);
    forall l ensures Label(l) <==> LabelInLetters(l) {
      LabelIff(l);
    }
    if Namespaced(s) {
      var labels :| Spelled(labels, s);
      assert Join(labels, '.') == s;
    }
    if InLetters(s) {
      var labels: seq<string> :|
        |labels| >= 2 && Join(labels, '.') == s && forall l :: l in labels ==> LabelInLetters(l);
      assert Spelled(labels, s);
    }
  }

  /** The labels of a scanned text. */
  lemma {:induction false} ReadLabels(s: string, dotted: bool) returns (labels: seq<string>)
    requires Scan(s, true, dotted)
    ensures labels != [] && (!dotted ==> |labels| >= 2)
    ensures forall l :: l in labels ==> Label(l)
    ensures Join(labels, '.') == s
    decreases |s|
  {
    var tail, more := ReadTail(s[1..], dotted);
    labels := [[s[0]] + tail] + more;
    assert labels[1..] == more;
    assert s == [s[0]] + s[1..];
    if more != [] {
      assert Join(labels, '.') == [s[0]] + (tail + ['.'] + Join(more, '.'));
    }
  }

  /** The rest of the label being read, and the labels after it. */
  lemma {:induction false} ReadTail(s: string, dotted: bool) returns (tail: string, more: seq<string>)
    requires Scan(s, false, dotted)
    ensures LabelTail(tail) && forall l :: l in more ==> Label(l)
    ensures !dotted ==> more != []
    ensures s == if more == [] then tail else tail + ['.'] + Join(more, '.')
    decreases |s|
  {
    if s == [] {
      tail, more := [], [];
    } else if s[0] == '.' {
      more := ReadLabels(s[1..], true);
      tail := [];
      assert s == ['.'] + s[1..];
    } else {
      var t;
      t, more := ReadTail(s[1..], dotted);
      tail := [s[0]] + t;
      assert s == [s[0]] + s[1..];
    }
  }

  lemma {:induction false} ScanTail(tail: string, rest: string, dotted: bool)
    requires LabelTail(tail)
    ensures Scan(tail + rest, false, dotted) == Scan(rest, false, dotted)
  {
    if tail == [] {
      assert tail + rest == rest;
    } else {
      assert (tail + rest)[1..] == tail[1..] + rest;
      assert LabelChar(tail[0]);
      ScanTail(tail[1..], rest, dotted);
    }
  }

  lemma {:induction false} ScanLabels(labels: seq<string>, dotted: bool)
    requires labels != [] && (dotted || |labels| >= 2)
    requires forall l :: l in labels ==> Label(l)
    ensures Scan(Join(labels, '.'), true, dotted)
  {
    var head := labels[0];
    assert head in labels;
    if |labels| == 1 {
      ScanTail(head[1..], [], dotted);
      assert head[1..] + [] == head[1..];
    } else {
      var rest := ['.'] + Join(labels[1..], '.');
      assert Scan(rest, false, dotted) by {
        ScanLabels(labels[1..], true);
        assert rest[1..] == Join(labels[1..], '.');
      }
      ScanTail(head[1..], rest, dotted);
      FirstLabel(labels);
      assert (head + rest)[1..] == head[1..] + rest;
    }
  }

  lemma FirstLabel(labels: seq<string>)
    requires |labels| >= 2
    ensures Join(labels, '.') == labels[0] + (['.'] + Join(labels[1..], '.'))
  {
    assert Join(labels, '.') == labels[0] + ['.'] + Join(labels[1..], '.');
  }

  lemma {:induction false} ScanChars(s: string, atStart: bool, dotted: bool)
    requires Scan(s, atStart, dotted)
    ensures forall c :: c in s ==> LabelChar(c) || c == '.'
  {
    if s != [] {
      ScanChars(s[1..], !atStart && s[0] == '.', dotted || s[0] == '.');
      assert s == [s[0]] + s[1..];
    }
  }

  /** Trimming and lowering leave a namespaced name alone. */
  lemma NamespacedIsNormal(s: string)
    requires Namespaced(s)
    ensures ToLower(TrimSpace(s)) == s && s != ""
  {
    ScanChars(s, true, false);
    forall i | 0 <= i < |s| ensures LowerChar(s[i]) == s[i] && !IsSpace(s[i]) {
      assert s[i] in s;
    }
    TrimSpaceNormal(s);
    assert ToLower(s) == s;
  }
}
