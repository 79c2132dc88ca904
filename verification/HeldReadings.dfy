/**
 The meaning of the per-minute rollup, stated on instants.

 Time is an integer number of microseconds. At every instant at most one reading is
 held: the last numeric one, for as long as its hold lasts. A minute's integral is the sum,
 over its microseconds, of the held value; its coverage is the number of microseconds at
 which some reading is held. Nothing here knows about ranges, segments or slices.
 */
module HeldReadings {
  import opened Clock
  import opened Options

  /** One entity's rows of `states`: by last_updated, the numeric value or None. */
  type Samples = map<int, Option<real>>

  /** hold_seconds and zero_hold_seconds of one configured entity. */
  datatype Holds = Holds(hold: int, zeroHold: Option<int>)

  /** What one minute stores: value times microseconds, and microseconds covered. */
  datatype Cell = Cell(integral: real, covered: int)

  const ZERO := Cell(0.0, 0)

  function Plus(a: Cell, b: Cell): Cell {
    Cell(a.integral + b.integral, a.covered + b.covered)
  }

  /** `value` held for `length` microseconds. */
  function Held(value: real, length: int): Cell {
    Cell(value * (length as real), length)
  }

  /** `value` held from `lo` up to `hi`, or not at all. */
  function HeldBetween(value: real, lo: int, hi: int): Cell {
    if hi <= lo then ZERO else Held(value, hi - lo)
  }

  /** date_trunc('minute', t) */
  function Trunc(t: int): (m: int)
    ensures IsMinute(m) && m <= t < m + MINUTE
  {
    t - t % MINUTE
  }

  predicate IsMinute(m: int) { m % MINUTE == 0 }

  lemma TruncOrder(m: int, t: int)
    requires IsMinute(m)
    ensures Trunc(t) <= m <==> t < m + MINUTE
    ensures m <= Trunc(t) <==> m <= t
  {
    var k, j := m / MINUTE, Trunc(t) / MINUTE;
    assert m == MINUTE * k && Trunc(t) == MINUTE * j;
  }

  lemma MinuteStep(a: int, b: int)
    requires IsMinute(a) && IsMinute(b) && a < b
    ensures a + MINUTE <= b && IsMinute(a + MINUTE)
  {
    assert a == MINUTE * (a / MINUTE) && b == MINUTE * (b / MINUTE);
  }

  function HoldOf(h: Holds, value: real): int {
    if value == 0.0 && h.zeroHold.Some? then h.zeroHold.value * SECOND else h.hold * SECOND
  }

  function LongestHold(h: Holds): int {
    Max(h.hold, if h.zeroHold.Some? then h.zeroHold.value else 0) * SECOND
  }

  predicate IsReading(s: Samples, t: int) { t in s && s[t].Some? }

  /** The reading taken at t is the one held at instant x. */
  ghost predicate HeldFrom(s: Samples, h: Holds, t: int, x: int) {
    && IsReading(s, t)
    && t <= x < t + HoldOf(h, s[t].value)
    && forall u :: t < u <= x ==> !IsReading(s, u)
  }

  ghost function AtInstant(s: Samples, h: Holds, x: int): Cell {
    if exists t :: HeldFrom(s, h, t, x) then
      var t :| HeldFrom(s, h, t, x);
      Cell(s[t].value, 1)
    else ZERO
  }

  /** The sum of f over the instants of [a, b). */
  ghost function Sum(f: int -> Cell, a: int, b: int): Cell
    decreases b - a
  {
    if b <= a then ZERO else Plus(Sum(f, a, b - 1), f(b - 1))
  }

  /** Integral and coverage over the instants of [a, b). */
  ghost function Area(s: Samples, h: Holds, a: int, b: int): Cell {
    Sum(x => AtInstant(s, h, x), a, b)
  }

  /** The row minute m must have, or None when nothing covers any part of it. */
  ghost function Reference(s: Samples, h: Holds, m: int): Option<Cell> {
    var c := Area(s, h, m, m + MINUTE);
    if c.covered > 0 then Some(c) else None
  }

  lemma HolderIsUnique(s: Samples, h: Holds, t: int, u: int, x: int)
    requires HeldFrom(s, h, t, x) && HeldFrom(s, h, u, x)
    ensures t == u
  {
  }

  lemma {:induction false} SumSplits(f: int -> Cell, a: int, b: int, c: int)
    requires a <= b <= c
    ensures Sum(f, a, c) == Plus(Sum(f, a, b), Sum(f, b, c))
    decreases c - b
  {
    if b < c {
      SumSplits(f, a, b, c - 1);
    }
  }

  lemma {:induction false} SumAgrees(f: int -> Cell, g: int -> Cell, a: int, b: int)
    requires forall x :: a <= x < b ==> f(x) == g(x)
    ensures Sum(f, a, b) == Sum(g, a, b)
    decreases b - a
  {
    if a < b {
      SumAgrees(f, g, a, b - 1);
    }
  }

  lemma {:induction false} SumConstant(f: int -> Cell, a: int, b: int, v: real)
    requires a <= b
    requires forall x :: a <= x < b ==> f(x) == Cell(v, 1)
    ensures Sum(f, a, b) == Held(v, b - a)
    decreases b - a
  {
    if a < b {
      SumConstant(f, a, b - 1, v);
      HeldAdds(v, b - 1 - a, 1);
    }
  }

  lemma {:induction false} SumZero(f: int -> Cell, a: int, b: int)
    requires forall x :: a <= x < b ==> f(x) == ZERO
    ensures Sum(f, a, b) == ZERO
    decreases b - a
  {
    if a < b {
      SumZero(f, a, b - 1);
    }
  }

  lemma HeldAdds(v: real, a: int, b: int)
    ensures Held(v, a + b) == Plus(Held(v, a), Held(v, b))
  {
    assert (a + b) as real == a as real + b as real;
  }

  lemma AreaSplits(s: Samples, h: Holds, a: int, b: int, c: int)
    requires a <= b <= c
    ensures Area(s, h, a, c) == Plus(Area(s, h, a, b), Area(s, h, b, c))
  {
    SumSplits(x => AtInstant(s, h, x), a, b, c);
  }

  lemma AreaEmpty(s: Samples, h: Holds, a: int, b: int)
    requires b <= a
    ensures Area(s, h, a, b) == ZERO
  {
  }

  lemma AreaNothingHeld(s: Samples, h: Holds, a: int, b: int)
    requires forall t, x :: a <= x < b ==> !HeldFrom(s, h, t, x)
    ensures Area(s, h, a, b) == ZERO
  {
    SumZero(x => AtInstant(s, h, x), a, b);
  }

  lemma AtHeldInstant(s: Samples, h: Holds, t: int, x: int)
    requires HeldFrom(s, h, t, x)
    ensures AtInstant(s, h, x) == Cell(s[t].value, 1)
  {
    forall u | HeldFrom(s, h, u, x) ensures u == t { HolderIsUnique(s, h, t, u, x); }
  }

  ghost predicate NextReadingAfter(s: Samples, t: int, hi: int)
    requires t < hi
  {
    forall u :: t < u < hi ==> !IsReading(s, u)
  }

  lemma AreaWhileHeld(s: Samples, h: Holds, t: int, lo: int, hi: int)
    requires IsReading(s, t) && t <= lo <= hi <= t + HoldOf(h, s[t].value)
    requires lo < hi ==> NextReadingAfter(s, t, hi)
    ensures Area(s, h, lo, hi) == Held(s[t].value, hi - lo)
  {
    var f := x => AtInstant(s, h, x);
    forall x | lo <= x < hi ensures f(x) == Cell(s[t].value, 1) {
      assert HeldFrom(s, h, t, x);
      AtHeldInstant(s, h, t, x);
    }
    SumConstant(f, lo, hi, s[t].value);
  }

  lemma AreaAfterHold(s: Samples, h: Holds, t: int, lo: int, hi: int)
    requires IsReading(s, t) && t <= lo <= hi && t + HoldOf(h, s[t].value) <= lo
    requires lo < hi ==> NextReadingAfter(s, t, hi)
    ensures Area(s, h, lo, hi) == ZERO
  {
    forall u, x | lo <= x < hi ensures !HeldFrom(s, h, u, x) {
      if u > t { assert u < hi ==> !IsReading(s, u); }
    }
    AreaNothingHeld(s, h, lo, hi);
  }

  /** Until the next reading, a reading contributes its value for as long as its hold lasts. */
  lemma AreaOfReading(s: Samples, h: Holds, t: int, lo: int, hi: int)
    requires IsReading(s, t) && t <= lo <= hi
    requires lo < hi ==> NextReadingAfter(s, t, hi)
    ensures Area(s, h, lo, hi) ==
            HeldBetween(s[t].value, Max(lo, t), Min(hi, t + HoldOf(h, s[t].value)))
  {
    var end := t + HoldOf(h, s[t].value);
    if end <= lo {
      AreaAfterHold(s, h, t, lo, hi);
    } else if hi == lo {
    } else if hi <= end {
      AreaWhileHeld(s, h, t, lo, hi);
    } else {
      AreaSplits(s, h, lo, end, hi);
      assert NextReadingAfter(s, t, end);
      AreaWhileHeld(s, h, t, lo, end);
      AreaAfterHold(s, h, t, end, hi);
    }
  }

  /** Samples that agree on readings before `b` give the same area up to `b`. */
  lemma AreaDependsOnReadings(s: Samples, s': Samples, h: Holds, a: int, b: int)
    requires forall t :: t < b ==> IsReading(s, t) == IsReading(s', t)
    requires forall t :: t < b && IsReading(s, t) && IsReading(s', t) ==> s[t] == s'[t]
    ensures Area(s, h, a, b) == Area(s', h, a, b)
  {
    var f, g := x => AtInstant(s, h, x), x => AtInstant(s', h, x);
    forall x | a <= x < b ensures f(x) == g(x) {
      if t :| HeldFrom(s, h, t, x) {
        AtHeldInstant(s, h, t, x);
        assert HeldFrom(s', h, t, x);
        AtHeldInstant(s', h, t, x);
      } else {
        forall t ensures !HeldFrom(s', h, t, x) {
          if HeldFrom(s', h, t, x) { assert HeldFrom(s, h, t, x); }
        }
      }
    }
    SumAgrees(f, g, a, b);
  }

  lemma {:induction false} SumBounds(f: int -> Cell, a: int, b: int)
    requires a <= b
    requires forall x :: 0 <= f(x).covered <= 1
    ensures 0 <= Sum(f, a, b).covered <= b - a
    decreases b - a
  {
    if a < b {
      SumBounds(f, a, b - 1);
    }
  }

  /** A range covers no more than its own length; a stored minute covers more than nothing. */
  lemma CoverageBounds(s: Samples, h: Holds, m: int)
    ensures 0 <= Area(s, h, m, m + MINUTE).covered <= MINUTE
    ensures Reference(s, h, m).Some? ==> 0 < Reference(s, h, m).value.covered <= MINUTE
  {
    SumBounds(x => AtInstant(s, h, x), m, m + MINUTE);
  }
}
