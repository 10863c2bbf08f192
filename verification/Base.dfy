/** Small definitions every other module uses. */
module Base {

  datatype Option<+T> = None | Some(value: T)

  /** Go's integer division: it truncates toward zero. */
  function Quot(a: int, b: int): int
    requires b > 0
  {
    if a >= 0 then a / b else -((-a) / b)
  }

  /** The multiple of `b` that truncation maps `a` to: `(a / b) * b` in Go. */
  function Floor(a: int, b: int): (r: int)
    requires b > 0
    ensures a >= 0 ==> r <= a < r + b
    ensures a <= 0 ==> a <= r < a + b
    ensures r % b == 0
  {
    var r := Quot(a, b) * b;
    FloorBounds(a, b);
    r
  }

  lemma FloorBounds(a: int, b: int)
    requires b > 0
    ensures a >= 0 ==> Quot(a, b) * b <= a < Quot(a, b) * b + b
    ensures a <= 0 ==> a <= Quot(a, b) * b < a + b
    ensures (Quot(a, b) * b) % b == 0
  {
    MultipleMod(Quot(a, b), b);
    if a < 0 {
      var q := (-a) / b;
      assert q * b <= -a < q * b + b;
      assert Quot(a, b) * b == -(q * b);
    }
  }

  lemma MultipleMod(k: int, b: int)
    requires b > 0
    ensures (k * b) % b == 0
  {
    ModIs(k * b, k, 0, b);
  }

  lemma AddPeriod(x: int, b: int)
    requires b > 0
    ensures (x + b) % b == x % b
  {
    var q, r := x / b, x % b;
    assert x == q * b + r;
    assert x + b == (q + 1) * b + r;
    ModIs(x + b, q + 1, r, b);
  }

  /** Euclidean quotient and remainder are unique. */
  lemma ModIs(x: int, q: int, r: int, b: int)
    requires b > 0 && x == q * b + r && 0 <= r < b
    ensures x % b == r && x / b == q
  {
    var p, s := x / b, x % b;
    SameQuotient(p, s, q, r, b);
  }

  lemma SameQuotient(p: int, s: int, q: int, r: int, b: int)
    requires b > 0 && p * b + s == q * b + r && 0 <= r < b && 0 <= s < b
    ensures p == q && r == s
  {
    assert (p - q) * b == r - s;
    assert (q - p) * b == s - r;
    if p > q {
      Grows(p - q, b);
    } else if p < q {
      Grows(q - p, b);
    }
  }

  lemma Grows(d: int, b: int)
    requires d >= 1 && b > 0
    ensures d * b >= b
  {
  }

  /** Congruence is additive: what the chunk grids and the step grids need. */
  lemma ModAdd(x: int, y: int, b: int)
    requires b > 0 && y % b == 0
    ensures (x + y) % b == x % b
  {
    var q, r, p := x / b, x % b, y / b;
    assert x + y == (q + p) * b + r by {
      assert x == q * b + r;
      assert y == p * b;
      assert (q + p) * b == q * b + p * b;
    }
    ModIs(x + y, q + p, r, b);
  }

  /** A positive multiple of `b` stays a multiple, and non-negative, when `b` is taken off. */
  lemma Shift(x: int, b: int)
    requires b > 0 && x > 0 && x % b == 0
    ensures x >= b && (x - b) % b == 0
  {
    AddPeriod(x - b, b);
    if x < b {
      ModIs(x, 0, x, b);
    }
  }

  /** Multiples of a multiple of `step` are multiples of `step`. */
  lemma {:induction false} MultipleOfDivisor(n: nat, size: int, step: int)
    requires step > 0 && size > 0 && size % step == 0
    ensures n * size >= 0 && (n * size) % step == 0
  {
    if n > 0 {
      MultipleOfDivisor(n - 1, size, step);
      assert n * size == (n - 1) * size + size;
      ModAdd((n - 1) * size, size, step);
    }
  }

  lemma OneTimeMore(n: int, b: int)
    ensures (n + 1) * b == n * b + b
  {
  }

  lemma Regroup<T>(p: seq<T>, q: seq<T>, r: seq<T>)
    ensures (p + q) + r == p + (q + r)
  {
  }

  lemma InitLast<T>(q: seq<T>)
    requires q != []
    ensures q == q[..|q| - 1] + [q[|q| - 1]]
  {
  }

  lemma DropLastOfSum<T>(p: seq<T>, q: seq<T>)
    requires q != []
    ensures (p + q)[..|p + q| - 1] == p + q[..|q| - 1]
  {
  }

  lemma SplitLast<T>(p: seq<T>, q: seq<T>)
    requires q != []
    ensures var n := |q| - 1; p + q == (p + q[..n]) + [q[n]]
  {
  }
}
