/** The string functions of Go's standard library the modelled code relies on. */
module Text {
  import opened Sorting

  /** `unicode.IsSpace`. */
  predicate IsSpace(c: char) {
    var n := c as int;
    || 9 <= n <= 13 || n == 32 || n == 0x85 || n == 0xA0 || n == 0x1680
    || 0x2000 <= n <= 0x200A || n == 0x2028 || n == 0x2029 || n == 0x202F
    || n == 0x205F || n == 0x3000
  }

  /** White space, spelled out. */
  const SPACES := "\t\n\U{0B}\U{0C}\r \U{85}\U{A0}\U{1680}\U{2000}\U{2001}\U{2002}\U{2003}\U{2004}\U{2005}\U{2006}"
                + "\U{2007}\U{2008}\U{2009}\U{200A}\U{2028}\U{2029}\U{202F}\U{205F}\U{3000}"

  lemma SpaceIff(c: char)
    ensures IsSpace(c) <==> c in SPACES
  {
  }

  function TrimLeft(s: string): string {
    if s != [] && IsSpace(s[0]) then TrimLeft(s[1..]) else s
  }

  function TrimRight(s: string): string {
    if s != [] && IsSpace(s[|s| - 1]) then TrimRight(s[..|s| - 1]) else s
  }

  /** `strings.TrimSpace`. */
  function TrimSpace(s: string): string {
    TrimRight(TrimLeft(s))
  }

  predicate Trimmed(s: string) {
    s == [] || (!IsSpace(s[0]) && !IsSpace(s[|s| - 1]))
  }

  lemma {:induction false} TrimLeftShape(s: string)
    ensures TrimLeft(s) == [] || !IsSpace(TrimLeft(s)[0])
    ensures forall c :: c in TrimLeft(s) ==> c in s
  {
    if s != [] && IsSpace(s[0]) { TrimLeftShape(s[1..]); }
  }

  lemma {:induction false} TrimRightShape(s: string)
    ensures TrimRight(s) <= s
    ensures TrimRight(s) == [] || !IsSpace(TrimRight(s)[|TrimRight(s)| - 1])
  {
    if s != [] && IsSpace(s[|s| - 1]) { TrimRightShape(s[..|s| - 1]); }
  }

  /** Trimming leaves no white space at either end, and leaves a trimmed text alone. */
  lemma TrimSpaceNormal(s: string)
    ensures Trimmed(TrimSpace(s))
    ensures Trimmed(s) ==> TrimSpace(s) == s
    ensures TrimSpace(TrimSpace(s)) == TrimSpace(s)
    ensures forall c :: c in TrimSpace(s) ==> c in s
  {
    TrimLeftShape(s);
    TrimRightShape(TrimLeft(s));
    var t := TrimSpace(s);
    assert forall i :: 0 <= i < |t| ==> t[i] == TrimLeft(s)[i];
  }

  /** Trimming leaves nothing exactly of texts of white space. */
  lemma BlankIff(s: string)
    ensures TrimSpace(s) == "" <==> forall c :: c in s ==> c in SPACES
  {
    forall c ensures IsSpace(c) <==> c in SPACES {
      SpaceIff(c);
    }
    TrimLeftBlank(s);
    TrimLeftShape(s);
    TrimRightBlank(TrimLeft(s));
  }

  lemma {:induction false} TrimLeftBlank(s: string)
    ensures TrimLeft(s) == "" <==> forall c :: c in s ==> IsSpace(c)
  {
    if s != [] {
      TrimLeftBlank(s[1..]);
      assert s == [s[0]] + s[1..];
      if !IsSpace(s[0]) {
        assert s[0] in s;
      }
    }
  }

  lemma {:induction false} TrimRightBlank(s: string)
    ensures TrimRight(s) == "" <==> forall c :: c in s ==> IsSpace(c)
  {
    if s != [] {
      var n := |s| - 1;
      TrimRightBlank(s[..n]);
      assert s == s[..n] + [s[n]];
      if !IsSpace(s[n]) {
        assert s[n] in s;
      }
    }
  }

  /**
   * `unicode.ToLower`, exact wherever the result is ASCII: besides the capitals,
   * only U+212A (the Kelvin sign) and U+0130 have an ASCII lower case.
   */
  function LowerChar(c: char): char {
    var n := c as int;
    if 'A' <= c <= 'Z' then (n + 32) as char
    else if n == 0x212A then 'k'
    else if n == 0x130 then 'i'
    else c
  }

  function ToLower(s: string): (r: string)
    ensures |r| == |s|
    ensures forall i :: 0 <= i < |s| ==> r[i] == LowerChar(s[i])
  {
    seq(|s|, i requires 0 <= i < |s| => LowerChar(s[i]))
  }

  // ---- white space around, and capitals ----------------------------------------------------

  predicate Spaces(s: string) {
    forall c :: c in s ==> c in SPACES
  }

  lemma {:induction false} TrimLeftPads(l: string, s: string)
    requires Spaces(l)
    ensures TrimLeft(l + s) == TrimLeft(s)
  {
    if l == [] {
      assert l + s == s;
    } else {
      SpaceIff(l[0]);
      assert l == [l[0]] + l[1..];
      TrimLeftPads(l[1..], s);
      assert (l + s)[1..] == l[1..] + s;
    }
  }

  lemma {:induction false} TrimRightPads(s: string, r: string)
    requires Spaces(r)
    ensures TrimRight(s + r) == TrimRight(s)
  {
    if r == [] {
      assert s + r == s;
    } else {
      var n := |r| - 1;
      SpaceIff(r[n]);
      assert r == r[..n] + [r[n]];
      TrimRightPads(s, r[..n]);
      assert (s + r)[..|s + r| - 1] == s + r[..n];
    }
  }

  lemma {:induction false} TrimLeftBefore(s: string, r: string)
    requires TrimLeft(s) != ""
    ensures TrimLeft(s + r) == TrimLeft(s) + r
  {
    if IsSpace(s[0]) {
      TrimLeftBefore(s[1..], r);
      assert (s + r)[1..] == s[1..] + r;
    }
  }

  /** White space around a text does not matter. */
  lemma TrimPads(l: string, s: string, r: string)
    requires Spaces(l) && Spaces(r)
    ensures TrimSpace(l + s + r) == TrimSpace(s)
  {
    assert l + s + r == l + (s + r);
    TrimLeftPads(l, s + r);
    if TrimLeft(s) == "" {
      BlankIff(s);
      BlankIff(s + r);
      assert TrimSpace(s) == "" && Spaces(s);
      assert Spaces(s + r);
    } else {
      TrimLeftBefore(s, r);
      TrimRightPads(TrimLeft(s), r);
    }
  }

  /** `upper` is a capital of `c`; two of the letters have one outside ASCII as well. */
  predicate CapitalOf(upper: char, c: char) {
    && 'a' <= c <= 'z'
    && (upper as int == c as int - 32 || (c == 'k' && upper == '\U{212A}') || (c == 'i' && upper == '\U{130}'))
  }

  /** `q` is `p` with any of its letters made capital. */
  predicate Recased(p: string, q: string) {
    |p| == |q| && forall i :: 0 <= i < |p| ==> q[i] == p[i] || CapitalOf(q[i], p[i])
  }

  lemma LowerRecased(p: string, q: string)
    requires Recased(p, q)
    ensures ToLower(p) == ToLower(q)
  {
    forall i | 0 <= i < |p| ensures ToLower(p)[i] == ToLower(q)[i] {
      assert q[i] == p[i] || CapitalOf(q[i], p[i]);
    }
  }

  /** Nothing to lower. */
  predicate NoCapitals(s: string) {
    forall c :: c in s ==> !('A' <= c <= 'Z') && c != '\U{212A}' && c != '\U{130}'
  }

  lemma LowerKeeps(s: string)
    requires NoCapitals(s)
    ensures ToLower(s) == s
  {
    forall i | 0 <= i < |s| ensures ToLower(s)[i] == s[i] {
      assert s[i] in s;
    }
  }

  lemma {:induction false} TrimLeftRecased(p: string, q: string)
    requires Recased(p, q)
    ensures Recased(TrimLeft(p), TrimLeft(q))
  {
    if p != [] {
      assert q[0] == p[0] || CapitalOf(q[0], p[0]);
      if IsSpace(p[0]) {
        TrimLeftRecased(p[1..], q[1..]);
      }
    }
  }

  lemma {:induction false} TrimRightRecased(p: string, q: string)
    requires Recased(p, q)
    ensures Recased(TrimRight(p), TrimRight(q))
  {
    if p != [] {
      var n := |p| - 1;
      assert q[n] == p[n] || CapitalOf(q[n], p[n]);
      if IsSpace(p[n]) {
        TrimRightRecased(p[..n], q[..n]);
      }
    }
  }

  lemma TrimRecased(p: string, q: string)
    requires Recased(p, q)
    ensures Recased(TrimSpace(p), TrimSpace(q))
  {
    TrimLeftRecased(p, q);
    TrimRightRecased(TrimLeft(p), TrimLeft(q));
  }

  // ---- lengths ------------------------------------------------------------------------------

  /** The number of bytes of a character in UTF-8; Go's `len` counts bytes. */
  function CharBytes(c: char): nat {
    var n := c as int;
    if n < 0x80 then 1 else if n < 0x800 then 2 else if n < 0x10000 then 3 else 4
  }

  function ByteLen(s: string): nat {
    if s == [] then 0 else CharBytes(s[0]) + ByteLen(s[1..])
  }

  /** A text in UTF-8, as section 3 of RFC 3629 lays it out. */
  function Utf8(s: string): seq<int> {
    if s == [] then [] else Utf8Char(s[0] as int) + Utf8(s[1..])
  }

  function Utf8Char(n: int): seq<int>
    requires 0 <= n
  {
    if n <= 0x7F then [n]
    else if n <= 0x7FF then [0xC0 + n / 64, 0x80 + n % 64]
    else if n <= 0xFFFF then [0xE0 + n / 4096, 0x80 + n / 64 % 64, 0x80 + n % 64]
    else [0xF0 + n / 262144, 0x80 + n / 4096 % 64, 0x80 + n / 64 % 64, 0x80 + n % 64]
  }

  lemma {:induction false} Utf8Length(s: string)
    ensures |Utf8(s)| == ByteLen(s)
  {
    if s != [] {
      Utf8Length(s[1..]);
    }
  }

  /** Go orders texts by their bytes. */
  predicate BytesBefore(p: seq<int>, q: seq<int>) {
    |q| > 0 && (|p| == 0 || p[0] < q[0] || (p[0] == q[0] && BytesBefore(p[1..], q[1..])))
  }

  lemma {:induction false} BytesAsymmetric(p: seq<int>, q: seq<int>)
    requires BytesBefore(p, q)
    ensures !BytesBefore(q, p)
  {
    if p != [] && p[0] == q[0] {
      BytesAsymmetric(p[1..], q[1..]);
    }
  }

  lemma {:induction false} SameBytesFirst(c: seq<int>, p: seq<int>, q: seq<int>)
    ensures BytesBefore(c + p, c + q) == BytesBefore(p, q)
  {
    if c == [] {
      assert c + p == p && c + q == q;
    } else {
      SameBytesFirst(c[1..], p, q);
      assert (c + p)[1..] == c[1..] + p && (c + q)[1..] == c[1..] + q;
    }
  }

  /** Byte sequences that differ within both. */
  predicate LessAt(p: seq<int>, q: seq<int>, i: int) {
    0 <= i < |p| && i < |q| && p[..i] == q[..i] && p[i] < q[i]
  }

  lemma {:induction false} LessThere(p: seq<int>, q: seq<int>, i: int, p': seq<int>, q': seq<int>)
    requires LessAt(p, q, i)
    ensures BytesBefore(p + p', q + q')
  {
    if i > 0 {
      assert p[0] == p[..i][0] == q[..i][0] == q[0];
      assert p[1..][..i - 1] == p[..i][1..] && q[1..][..i - 1] == q[..i][1..];
      LessThere(p[1..], q[1..], i - 1, p', q');
      assert (p + p')[1..] == p[1..] + p' && (q + q')[1..] == q[1..] + q';
    }
  }

  lemma SixBits(m: int, n: int)
    requires 0 <= m < n
    ensures m / 64 < n / 64 || (m / 64 == n / 64 && m % 64 < n % 64)
    ensures m / 4096 == m / 64 / 64 && n / 4096 == n / 64 / 64
    ensures m / 262144 == m / 64 / 64 / 64 && n / 262144 == n / 64 / 64 / 64
  {
  }

  lemma TwoBytesAscend(m: int, n: int) returns (i: nat)
    requires 0x7F < m < n <= 0x7FF
    ensures LessAt(Utf8Char(m), Utf8Char(n), i)
  {
    SixBits(m, n);
    i := if m / 64 < n / 64 then 0 else 1;
  }

  lemma ThreeBytesAscend(m: int, n: int) returns (i: nat)
    requires 0x7FF < m < n <= 0xFFFF
    ensures LessAt(Utf8Char(m), Utf8Char(n), i)
  {
    SixBits(m, n);
    if m / 64 < n / 64 {
      SixBits(m / 64, n / 64);
      i := if m / 4096 < n / 4096 then 0 else 1;
    } else {
      i := 2;
    }
  }

  lemma FourBytesAscend(m: int, n: int) returns (i: nat)
    requires 0xFFFF < m < n < 0x110000
    ensures LessAt(Utf8Char(m), Utf8Char(n), i)
  {
    SixBits(m, n);
    if m / 64 < n / 64 {
      SixBits(m / 64, n / 64);
      if m / 4096 < n / 4096 {
        i := HighBitsAscend(m, n);
      } else {
        i := 2;
      }
    } else {
      i := 3;
    }
  }

  lemma HighBitsAscend(m: int, n: int) returns (i: nat)
    requires 0xFFFF < m < n < 0x110000 && m / 4096 < n / 4096
    ensures LessAt(Utf8Char(m), Utf8Char(n), i)
  {
    SixBits(m, n);
    SixBits(m / 4096, n / 4096);
    assert m / 262144 == m / 4096 / 64 && n / 262144 == n / 4096 / 64;
    i := if m / 262144 < n / 262144 then 0 else 1;
  }

  /** Of two characters the smaller has the smaller byte where they first differ. */
  lemma CharBytesAscend(m: int, n: int) returns (i: nat)
    requires 0 <= m < n < 0x110000
    ensures LessAt(Utf8Char(m), Utf8Char(n), i)
  {
    if 0x7F < m && n <= 0x7FF {
      i := TwoBytesAscend(m, n);
    } else if 0x7FF < m && n <= 0xFFFF {
      i := ThreeBytesAscend(m, n);
    } else if 0xFFFF < m {
      i := FourBytesAscend(m, n);
    } else {
      i := 0;
      FirstBytesAscend(m, n);
    }
  }

  /** Characters of different lengths, or of one byte each. */
  lemma FirstBytesAscend(m: int, n: int)
    requires 0 <= m < n < 0x110000
    requires n <= 0x7F || m <= 0x7F < n || m <= 0x7FF < n || m <= 0xFFFF < n
    ensures Utf8Char(m)[0] < Utf8Char(n)[0]
  {
  }

  lemma {:induction false} BeforeHasBytesBefore(a: string, b: string)
    requires Before(a, b)
    ensures BytesBefore(Utf8(a), Utf8(b))
  {
    if a != [] {
      var m, n := a[0] as int, b[0] as int;
      if m < n {
        var i := CharBytesAscend(m, n);
        LessThere(Utf8Char(m), Utf8Char(n), i, Utf8(a[1..]), Utf8(b[1..]));
      } else {
        BeforeHasBytesBefore(a[1..], b[1..]);
        SameBytesFirst(Utf8Char(m), Utf8(a[1..]), Utf8(b[1..]));
      }
    }
  }

  /** Ordering texts by their characters is ordering them by their bytes in UTF-8. */
  lemma BeforeIsByBytes(a: string, b: string)
    ensures Before(a, b) <==> BytesBefore(Utf8(a), Utf8(b))
  {
    if Before(a, b) {
      BeforeHasBytesBefore(a, b);
    } else {
      BeforeTotal(a, b);
      if a != b {
        BeforeHasBytesBefore(b, a);
        BytesAsymmetric(Utf8(b), Utf8(a));
      } else if BytesBefore(Utf8(a), Utf8(b)) {
        BytesAsymmetric(Utf8(a), Utf8(b));
      }
    }
  }

  /** `strings.Join`. */
  function Join(parts: seq<string>, sep: char): string {
    if parts == [] then ""
    else if |parts| == 1 then parts[0]
    else parts[0] + [sep] + Join(parts[1..], sep)
  }

  /** If a separator occurs in neither prefix, a text splits at it in one way only. */
  lemma SplitOnce(a: string, x: string, b: string, y: string, sep: char)
    requires a + [sep] + x == b + [sep] + y
    requires sep !in a && sep !in b
    ensures a == b && x == y
  {
    var t := a + [sep] + x;
    assert t[|a|] == sep && t[|b|] == sep;
    assert forall i :: 0 <= i < |a| ==> t[i] == a[i];
    assert forall i :: 0 <= i < |b| ==> t[i] == b[i];
    assert a == t[..|a|] && b == t[..|b|];
    assert x == t[|a| + 1..] && y == t[|b| + 1..];
  }

  lemma {:induction false} JoinHas(parts: seq<string>, sep: char)
    ensures |parts| >= 2 ==> sep in Join(parts, sep)
    ensures forall c :: c != sep && c in Join(parts, sep) ==> exists p :: p in parts && c in p
  {
    if |parts| >= 2 {
      JoinHas(parts[1..], sep);
      assert Join(parts, sep)[|parts[0]|] == sep;
      forall c | c != sep && c in Join(parts, sep) ensures exists p :: p in parts && c in p {
        if c in parts[0] {
          assert parts[0] in parts;
        } else {
          assert c in Join(parts[1..], sep);
          var p :| p in parts[1..] && c in p;
          assert p in parts;
        }
      }
    } else if |parts| == 1 {
      assert parts[0] in parts;
    }
  }

  /** Joining is injective on parts that do not hold the separator, given at least one part each. */
  lemma {:induction false} JoinInjective(p: seq<string>, q: seq<string>, sep: char)
    requires p != [] && q != []
    requires forall s :: s in p || s in q ==> sep !in s
    requires Join(p, sep) == Join(q, sep)
    ensures p == q
  {
    JoinHas(p, sep);
    JoinHas(q, sep);
    assert p[0] in p && q[0] in q;
    assert sep in Join(p, sep) <==> |p| >= 2;
    assert sep in Join(q, sep) <==> |q| >= 2;
    if |p| >= 2 {
      SplitOnce(p[0], Join(p[1..], sep), q[0], Join(q[1..], sep), sep);
      JoinInjective(p[1..], q[1..], sep);
      assert p == [p[0]] + p[1..] && q == [q[0]] + q[1..];
    }
  }
}
