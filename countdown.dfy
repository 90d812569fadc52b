/**
 * The departure countdown of `Header.tsx` (both copies) and the day count and progress bar of
 * `App.tsx`. Times are integer milliseconds, the difference `targetDate - now` being an input:
 * the clock is outside the model.
 */
module Countdown {
  import opened JsMath

  const MsPerSecond: int := 1000
  const MsPerMinute: int := 60 * MsPerSecond
  const MsPerHour: int := 60 * MsPerMinute
  const MsPerDay: int := 24 * MsPerHour

  /** The `timeLeft` state of the header. */
  datatype TimeLeft = TimeLeft(days: int, hours: int, minutes: int, seconds: int)

  /** The milliseconds a `TimeLeft` stands for. */
  function Recompose(t: TimeLeft): int {
    t.days * MsPerDay + t.hours * MsPerHour + t.minutes * MsPerMinute + t.seconds * MsPerSecond
  }

  /** Every unit below days is in its clock range. */
  predicate InRange(t: TimeLeft) {
    t.days >= 0 && 0 <= t.hours < 24 && 0 <= t.minutes < 60 && 0 <= t.seconds < 60
  }

  /**
   * `calculateTimeLeft` for a positive difference: whole days, and hours, minutes and seconds
   * each taken modulo their clock range.
   */
  function Decompose(d: nat): (t: TimeLeft)
    ensures InRange(t)
    ensures Recompose(t) <= d < Recompose(t) + MsPerSecond
  {
    var t := TimeLeft(d / MsPerDay, (d / MsPerHour) % 24, (d / MsPerMinute) % 60, (d / MsPerSecond) % 60);
    DecomposeBounds(d);
    t
  }

  lemma DecomposeBounds(d: nat)
    ensures var t := TimeLeft(d / MsPerDay, (d / MsPerHour) % 24, (d / MsPerMinute) % 60, (d / MsPerSecond) % 60);
      Recompose(t) <= d < Recompose(t) + MsPerSecond
  {
    var s := d / 1000;
    var m := s / 60;
    var h := m / 60;
    assert d / MsPerMinute == m && d / MsPerHour == h && d / MsPerDay == h / 24 by {
      DivDiv(d, 1000, 60);
      DivDiv(d, 60000, 60);
      DivDiv(d, 3600000, 24);
    }
    assert d == 1000 * s + d % 1000;
    assert s == 60 * m + s % 60;
    assert m == 60 * h + m % 60;
    assert h == 24 * (h / 24) + h % 24;
  }

  /** Dividing twice is dividing by the product. */
  lemma DivDiv(d: nat, a: int, b: int)
    requires a > 0 && b > 0
    ensures d / a / b == d / (a * b)
  {
    var q := d / a / b;
    var r1, r2 := d % a, (d / a) % b;
    assert d / a == b * q + r2;
    assert a * (d / a) == a * (b * q) + a * r2;
    assert a * (b * q) == (a * b) * q;
    assert a * r2 <= a * (b - 1) by { MulMono(a, r2, b - 1); }
    assert a * (b - 1) == a * b - a;
    DivUnique(d, a * b, q, a * r2 + r1);
  }

  lemma MulMono(a: int, x: int, y: int)
    requires a > 0 && x <= y
    ensures a * x <= a * y
  {
    assert a * y - a * x == a * (y - x);
  }

  /** Euclidean division is determined by its quotient-remainder equation. */
  lemma DivUnique(d: int, n: int, q: int, r: int)
    requires n > 0 && d == n * q + r && 0 <= r < n
    ensures d / n == q
  {
    var q0, r0 := d / n, d % n;
    assert n * (q - q0) == r0 - r;
    if q > q0 {
      MulMono(n, 1, q - q0);
    } else if q < q0 {
      assert n * (q0 - q) == r - r0;
      MulMono(n, 1, q0 - q);
    }
  }

  /** A decomposition in range that recomposes to within a second below `d` is the header's. */
  lemma DecomposeUnique(d: nat, t: TimeLeft)
    requires InRange(t) && Recompose(t) <= d < Recompose(t) + MsPerSecond
    ensures t == Decompose(d)
  {
    var u := Decompose(d);
    WholeSeconds(d, t);
    WholeSeconds(d, u);
    MixedRadixUnique(t.days * 24 + t.hours, t.minutes, u.days * 24 + u.hours, u.minutes, t.seconds, u.seconds);
    MixedRadixUnique(t.days, t.hours, u.days, u.hours, 0, 0);
  }

  /** The seconds a decomposition stands for are the whole seconds of `d`. */
  lemma WholeSeconds(d: nat, t: TimeLeft)
    requires Recompose(t) <= d < Recompose(t) + MsPerSecond
    ensures ((t.days * 24 + t.hours) * 60 + t.minutes) * 60 + t.seconds == d / 1000
  {
    var a := ((t.days * 24 + t.hours) * 60 + t.minutes) * 60 + t.seconds;
    assert Recompose(t) == 1000 * a;
    DivUnique(d, 1000, a, d - 1000 * a);
  }

  /** `(a * 60 + x) * 60 + s` determines `a`, `x` and `s` when `x` and `s` are below 60 (or 24 for the inner digit). */
  lemma MixedRadixUnique(a1: int, x1: int, a2: int, x2: int, s1: int, s2: int)
    requires 0 <= s1 < 60 && 0 <= s2 < 60
    requires (0 <= x1 < 60 && 0 <= x2 < 60 && (a1 * 60 + x1) * 60 + s1 == (a2 * 60 + x2) * 60 + s2)
      || (s1 == 0 && s2 == 0 && 0 <= x1 < 24 && 0 <= x2 < 24 && a1 * 24 + x1 == a2 * 24 + x2)
    ensures a1 == a2 && x1 == x2 && s1 == s2
  {
    if s1 == 0 && s2 == 0 && 0 <= x1 < 24 && 0 <= x2 < 24 && a1 * 24 + x1 == a2 * 24 + x2 {
      assert (a1 - a2) * 24 == x2 - x1;
    } else {
      var b1, b2 := a1 * 60 + x1, a2 * 60 + x2;
      assert (b1 - b2) * 60 == s2 - s1;
      assert b1 == b2;
      assert (a1 - a2) * 60 == x2 - x1;
    }
  }

  /**
   * The header divides as JavaScript numbers do: `Math.floor(d / 86400000)`,
   * `Math.floor((d / 3600000) % 24)`, `Math.floor((d / 1000 / 60) % 60)` and
   * `Math.floor((d / 1000) % 60)`. For a positive difference these are the integer fields.
   */
  lemma DecomposeMatchesNumberArithmetic(d: nat)
    ensures var t := Decompose(d);
      t.days == ((d as real) / (MsPerDay as real)).Floor
      && t.hours == Remainder((d as real) / (MsPerHour as real), 24.0).Floor
      && t.minutes == Remainder((d as real) / (MsPerMinute as real), 60.0).Floor
      && t.seconds == Remainder((d as real) / (MsPerSecond as real), 60.0).Floor
  {
    FloorOfQuotient(d, MsPerDay);
    FloorOfRemainder(d, MsPerHour, 24);
    FloorOfRemainder(d, MsPerMinute, 60);
    FloorOfRemainder(d, MsPerSecond, 60);
  }

  lemma FloorOfQuotient(d: nat, u: int)
    requires u > 0
    ensures ((d as real) / (u as real)).Floor == d / u
  {
    var q, r := d / u, d % u;
    assert d == q * u + r;
    assert (d as real) / (u as real) == (q as real) + (r as real) / (u as real);
    QuotientBelowOne(r as real, u as real);
  }

  lemma FloorOfRemainder(d: nat, u: int, m: int)
    requires u > 0 && m > 0
    ensures Remainder((d as real) / (u as real), m as real).Floor == (d / u) % m
  {
    var x := (d as real) / (u as real);
    var q, r := d / u, d % u;
    var k := q / m;
    WholeAndFraction(d, u);
    assert x / (m as real) == (d as real) / ((u * m) as real) by { DivideTwice(d as real, u, m); }
    FloorOfQuotient(d, u * m);
    DivDiv(d, u, m);
    RemainderOfNonnegative(x, m, k);
    assert q - m * k == q % m;
    ShiftByMultiple(q, r as real / u as real, m, k);
    FloorPlusFraction(q % m, (r as real) / (u as real));
  }

  lemma RemainderOfNonnegative(x: real, m: int, k: int)
    requires x >= 0.0 && m > 0 && (x / (m as real)).Floor == k
    ensures Remainder(x, m as real) == x - (m as real) * (k as real)
  {
    assert x / (m as real) >= 0.0;
  }

  /** `d / u` as a number is its integer quotient plus a fraction below one. */
  lemma WholeAndFraction(d: nat, u: int)
    requires u > 0
    ensures (d as real) / (u as real) == ((d / u) as real) + ((d % u) as real) / (u as real)
    ensures 0.0 <= ((d % u) as real) / (u as real) < 1.0
  {
    var q, r := d / u, d % u;
    assert d == q * u + r;
    assert (d as real) == (q as real) * (u as real) + (r as real);
    QuotientBelowOne(r as real, u as real);
  }

  lemma DivideTwice(x: real, u: int, m: int)
    requires u > 0 && m > 0
    ensures x / (u as real) / (m as real) == x / ((u * m) as real)
  {
    assert ((u * m) as real) == (u as real) * (m as real);
  }

  lemma ShiftByMultiple(q: int, f: real, m: int, k: int)
    ensures (q as real) + f - (m as real) * (k as real) == ((q - m * k) as real) + f
  {
    assert ((m * k) as real) == (m as real) * (k as real);
  }

  lemma FloorPlusFraction(n: int, f: real)
    requires 0.0 <= f < 1.0
    ensures ((n as real) + f).Floor == n
  {
  }

  /** The header's state: the time left before departure. */
  class Header {
    var timeLeft: TimeLeft

    /** `useState({ days: 0, hours: 0, minutes: 0, seconds: 0 })`. */
    constructor()
      ensures timeLeft == TimeLeft(0, 0, 0, 0)
    {
      timeLeft := TimeLeft(0, 0, 0, 0);
    }

    predicate Valid()
      reads this
    {
      InRange(timeLeft)
    }

    /**
     * One run of `calculateTimeLeft`, made once on mount and again on every 1000 ms
     * interval tick: a positive difference is decomposed, and otherwise the state stays.
     */
    method Tick(difference: int)
      modifies this
      ensures difference > 0 ==> timeLeft == Decompose(difference)
      ensures difference <= 0 ==> timeLeft == old(timeLeft)
      ensures old(Valid()) ==> Valid()
    {
      if difference > 0 {
        timeLeft := Decompose(difference);
      }
    }
  }

  /** `Math.ceil(difference / (1000 * 3600 * 24))`, kept only when positive. */
  function DaysUntil(difference: int): (n: nat)
    ensures difference <= 0 ==> n == 0
    ensures difference > 0 ==> n > 0 && (n - 1) * MsPerDay < difference <= n * MsPerDay
  {
    var days := CeilDiv(difference, 1000 * 3600 * 24);
    if days > 0 then days else 0
  }

  /** The sidebar bar width, `Math.min(100, Math.max(5, (1 - days / 365) * 100))` percent. */
  function ProgressWidth(days: nat): (w: real)
    ensures 5.0 <= w <= 100.0
  {
    Clamp(5.0, 100.0, (1.0 - (days as real) / 365.0) * 100.0)
  }

  /** The bar is full exactly on departure day and at its 5% floor from 347 days out. */
  lemma ProgressWidthEnds(days: nat)
    ensures ProgressWidth(days) == 100.0 <==> days == 0
    ensures ProgressWidth(days) == 5.0 <==> days >= 347
  {
    var x := (1.0 - (days as real) / 365.0) * 100.0;
    assert x == 100.0 - (days as real) * 100.0 / 365.0;
    if days >= 347 {
      assert (days as real) * 100.0 >= 34700.0;
    } else {
      assert (days as real) * 100.0 <= 34600.0;
    }
  }
}
