/** The JavaScript `Math` operations the app uses, on exact reals and integers. */
module JsMath {

  /**
   * `Math.round(x)`: the nearest integer, halves rounded up (section 21.3.2.28 of ECMA-262),
   * that is, the floor of `x + 0.5`.
   */
  function Round(x: real): (n: int)
    ensures (n as real) - 0.5 <= x < (n as real) + 0.5
  {
    (x + 0.5).Floor
  }

  /** The bounds of `Round` determine its result. */
  lemma RoundUnique(x: real, n: int)
    requires (n as real) - 0.5 <= x < (n as real) + 0.5
    ensures Round(x) == n
  {
  }

  /** `Math.ceil(a / b)` for integers and a positive divisor. */
  function CeilDiv(a: int, b: int): (q: int)
    requires b > 0
    ensures (q - 1) * b < a <= q * b
  {
    -((-a) / b)
  }

  /** `Math.min(hi, Math.max(lo, x))`. */
  function Clamp(lo: real, hi: real, x: real): (r: real)
    requires lo <= hi
    ensures lo <= r <= hi
    ensures lo <= x <= hi ==> r == x
  {
    if x < lo then lo else if x > hi then hi else x
  }

  /** Multiplying both sides of `a <= b < c` by a positive factor keeps the order. */
  lemma ScaleBounds(a: real, b: real, c: real, m: real)
    requires m > 0.0 && a <= b < c
    ensures a * m <= b * m < c * m
  {
    assert (b - a) * m >= 0.0;
    assert (c - b) * m > 0.0;
  }

  lemma QuotientBelowOne(x: real, m: real)
    requires m > 0.0 && 0.0 <= x < m
    ensures 0.0 <= x / m < 1.0
  {
    assert (x / m) * m == x;
    var d := 1.0 - x / m;
    assert d * m == m - x;
  }

  /** `x % m` on JavaScript numbers: the remainder of division truncated toward zero. */
  function Remainder(x: real, m: real): (r: real)
    requires m > 0.0
    ensures x >= 0.0 ==> 0.0 <= r < m
    ensures x <= 0.0 ==> -m < r <= 0.0
  {
    RemainderBounds(x, m);
    x - m * (Truncate(x / m) as real)
  }

  /** The integer part of `q`, rounded toward zero. */
  function Truncate(q: real): (t: int)
    ensures q >= 0.0 ==> (t as real) <= q < (t as real) + 1.0
    ensures q <= 0.0 ==> (t as real) - 1.0 < q <= (t as real)
  {
    if q >= 0.0 then q.Floor else -((-q).Floor)
  }

  lemma QuotientSign(x: real, m: real)
    requires m > 0.0
    ensures x >= 0.0 ==> x / m >= 0.0
    ensures x <= 0.0 ==> x / m <= 0.0
  {
  }

  lemma RemainderBounds(x: real, m: real)
    requires m > 0.0
    ensures var r := x - m * (Truncate(x / m) as real);
      (x >= 0.0 ==> 0.0 <= r < m) && (x <= 0.0 ==> -m < r <= 0.0)
  {
    var t := Truncate(x / m);
    QuotientSign(x, m);
    if x >= 0.0 {
      BetweenMultiples(x, m, t);
    }
    if x <= 0.0 {
      assert (-x) / m == -(x / m);
      BetweenMultiples(-x, m, -t);
      assert m * ((-t) as real) == -(m * (t as real));
    }
  }

  /** `t <= x / m < t + 1` scaled by `m`. */
  lemma BetweenMultiples(x: real, m: real, t: int)
    requires m > 0.0 && (t as real) <= x / m < (t as real) + 1.0
    ensures m * (t as real) <= x < m * (t as real) + m
  {
    var q := x / m;
    var k := t as real;
    assert q * m == x;
    ScaleBounds(k, q, k + 1.0, m);
    assert (k + 1.0) * m == k * m + m;
    assert x < k * m + m;
    assert k * m == m * k;
    assert x < m * k + m;
  }

  /** The representative of `x` modulo `m` in `[0, m)`. */
  function Modulo(x: real, m: real): (r: real)
    requires m > 0.0
    ensures 0.0 <= r < m
  {
    var k := (x / m).Floor as real;
    FloorScaled(x, m);
    x - m * k
  }

  lemma FloorScaled(x: real, m: real)
    requires m > 0.0
    ensures m * ((x / m).Floor as real) <= x < m * ((x / m).Floor as real) + m
  {
    var q := x / m;
    var k := q.Floor as real;
    assert q * m == x;
    ScaleBounds(k, q, k + 1.0, m);
    assert (k + 1.0) * m == k * m + m;
    assert x < k * m + m;
    assert k * m == m * k;
    assert x < m * k + m;
  }

  /** A value in `[0, m)` is its own representative, whatever multiple of `m` is added. */
  lemma ModuloShift(x: real, k: int, m: real)
    requires m > 0.0 && 0.0 <= x < m
    ensures Modulo(x + (k as real) * m, m) == x
  {
    var y := x + (k as real) * m;
    assert y / m == x / m + (k as real);
    assert (x / m) * m == x;
    QuotientBelowOne(x, m);
    assert (y / m).Floor == k;
  }

  /** For non-negative `x` the JavaScript remainder is the representative modulo `m`. */
  lemma RemainderIsModulo(x: real, m: real)
    requires m > 0.0 && x >= 0.0
    ensures Remainder(x, m) == Modulo(x, m)
  {
  }

  /** `Math.round((part / whole) * 100)`, a rounded percentage, for a positive `whole`. */
  function Percent(part: nat, whole: nat): (p: int)
    requires whole > 0
    ensures p >= 0
    ensures ((p as real) - 0.5) * (whole as real) <= (part as real) * 100.0
    ensures (part as real) * 100.0 < ((p as real) + 0.5) * (whole as real)
  {
    var x := ((part as real) / (whole as real)) * 100.0;
    var p := Round(x);
    Unscale((p as real) - 0.5, x, (p as real) + 0.5, part, whole);
    p
  }

  /** Multiplying the rounding bounds of `x = 100 * k / t` back by `t`. */
  lemma Unscale(lo: real, x: real, hi: real, k: nat, t: nat)
    requires t > 0 && x == ((k as real) / (t as real)) * 100.0 && lo <= x < hi
    ensures lo * (t as real) <= (k as real) * 100.0 < hi * (t as real)
    ensures x >= 0.0
  {
    ScaleBounds(lo, x, hi, t as real);
    assert x * (t as real) == (k as real) * 100.0;
    assert x >= 0.0;
  }

  /**
   * For a part of a whole below 200, the percentage is in `[0, 100]`, 0 exactly for an empty
   * part and 100 exactly for the whole: one in 199 still rounds to 1, and 198 in 199 to 99.
   */
  lemma PercentEnds(part: nat, whole: nat)
    requires 0 < whole < 200 && part <= whole
    ensures 0 <= Percent(part, whole)
    ensures Percent(part, whole) <= 100
    ensures Percent(part, whole) == 0 ==> part == 0
    ensures part == 0 ==> Percent(part, whole) == 0
    ensures Percent(part, whole) == 100 ==> part == whole
    ensures part == whole ==> Percent(part, whole) == 100
  {
    var p, k, t := Percent(part, whole), part as real, whole as real;
    var lo, hi := (p as real) - 0.5, (p as real) + 0.5;
    assert lo * t <= k * 100.0 < hi * t;
    AtMostHundred(p, k, t);
    if p == 0 {
      assert hi * t == 0.5 * t;
    } else {
      ScaleBounds(0.5, lo, hi, t);
    }
    if p == 100 {
      assert lo * t == 99.5 * t;
    }
    if part == whole {
      RoundUnique(k / t * 100.0, 100);
    }
  }

  lemma AtMostHundred(p: int, k: real, t: real)
    requires t > 0.0 && k <= t && ((p as real) - 0.5) * t <= k * 100.0
    ensures p <= 100
  {
    if p > 100 {
      ScaleBounds(100.5, (p as real) - 0.5, p as real, t);
    }
  }

  /** A larger part never gives a smaller percentage. */
  lemma PercentMonotone(a: nat, b: nat, whole: nat)
    requires whole > 0 && a <= b
    ensures Percent(a, whole) <= Percent(b, whole)
  {
    var t := whole as real;
    var pa, pb := Percent(a, whole), Percent(b, whole);
    var lo, hi := (pa as real) - 0.5, (pb as real) + 0.5;
    assert lo * t <= (a as real) * 100.0;
    assert (b as real) * 100.0 < hi * t;
    assert lo * t < hi * t;
    CancelFactor(lo, hi, t);
  }

  /** Dividing both sides of `x * m < y * m` by a positive `m`. */
  lemma CancelFactor(x: real, y: real, m: real)
    requires m > 0.0 && x * m < y * m
    ensures x < y
  {
    assert (y - x) * m > 0.0;
  }

}
