/**
 The query of states_minute_refresh, in its own terms: a carry-in reading, the readings of
 the range, each turned into a segment by LEAD and LEAST, sliced at minute boundaries by
 generate_series, and summed by GROUP BY minute. RefreshIsReference says that it computes
 exactly the reference of HeldReadings.
 */
module MinuteRefresh {
  import opened Clock
  import opened Options
  import opened HeldReadings

  /** states_minute rows of one entity, by minute. */
  type Minutes = map<int, Cell>

  datatype Segment = Segment(t0: int, t1: int, value: real)

  datatype Slice = Slice(minute: int, value: real, length: int)

  // ---- ORDER BY over a set of times ---------------------------------------------

  function Greatest(ts: set<int>): (m: int)
    requires ts != {}
    ensures m in ts && forall u :: u in ts ==> u <= m
  {
    var negated := set t | t in ts :: -t;
    assert forall u :: u in ts ==> -u in negated;
    assert -AnyOf(ts) in negated;
    -Least(negated)
  }

  predicate Ascending(q: seq<int>) { forall i, j :: 0 <= i < j < |q| ==> q[i] < q[j] }

  function OrderBy(ts: set<int>): (q: seq<int>)
    ensures Ascending(q)
    ensures forall t :: t in q <==> t in ts
  {
    if ts == {} then [] else
      var m := Least(ts);
      var rest := OrderBy(ts - {m});
      assert forall i :: 0 <= i < |rest| ==> rest[i] in rest;
      [m] + rest
  }

  // ---- The query ----------------------------------------------------------------

  predicate WithinReach(s: Samples, h: Holds, from: int, t: int) {
    IsReading(s, t) && t < from && t >= from - LongestHold(h)
  }

  /** The last numeric reading before the range, within the longest hold. */
  function CarryIn(s: Samples, h: Holds, from: int): (q: seq<int>)
    ensures |q| <= 1
    ensures q == [] ==> forall t :: !WithinReach(s, h, from, t)
    ensures q != [] ==> WithinReach(s, h, from, q[0])
    ensures q != [] ==> forall t :: WithinReach(s, h, from, t) ==> t <= q[0]
  {
    var reach := set t | t in s && WithinReach(s, h, from, t);
    assert forall t :: WithinReach(s, h, from, t) ==> t in reach;
    if reach == {} then [] else [Greatest(reach)]
  }

  function InRange(s: Samples, from: int, to: int): (q: seq<int>)
    ensures Ascending(q)
    ensures forall t :: t in q <==> IsReading(s, t) && from <= t < to
  {
    OrderBy(set t | t in s && IsReading(s, t) && from <= t < to)
  }

  function Points(s: Samples, h: Holds, from: int, to: int): seq<int> {
    CarryIn(s, h, from) + InRange(s, from, to)
  }

  /** Each point holds until LEAD(t0), its hold or the end of the range, whichever is first. */
  function Segments(s: Samples, h: Holds, points: seq<int>, to: int): seq<Segment>
    requires forall t :: t in points ==> IsReading(s, t)
  {
    if points == [] then [] else
      var t0 := points[0];
      assert t0 in points && IsReading(s, t0);
      var v := s[t0].value;
      var lead := if |points| > 1 then points[1] else to;
      [Segment(t0, Min(Min(lead, t0 + HoldOf(h, v)), to), v)] + Segments(s, h, points[1..], to)
  }

  /** generate_series(minute, last, '1 minute') against one segment. */
  function Series(g: Segment, minute: int, last: int): seq<Slice>
    decreases last - minute
  {
    if minute > last then [] else
      [Slice(minute, g.value, Min(g.t1, minute + MINUTE) - Max(g.t0, minute))]
      + Series(g, minute + MINUTE, last)
  }

  function SlicesOf(g: Segment, from: int): seq<Slice> {
    if g.t1 > g.t0 then Series(g, Max(Trunc(g.t0), from), Trunc(g.t1 - 1)) else []
  }

  function Sliced(gs: seq<Segment>, from: int): seq<Slice> {
    if gs == [] then [] else SlicesOf(gs[0], from) + Sliced(gs[1..], from)
  }

  /** SUM(value * secs), SUM(secs) of one group. */
  function GroupSum(q: seq<Slice>, minute: int): Cell {
    if q == [] then ZERO
    else if q[0].minute == minute then Plus(Held(q[0].value, q[0].length), GroupSum(q[1..], minute))
    else GroupSum(q[1..], minute)
  }

  /** The rows the INSERT writes: one per group with SUM(secs) > 0. */
  function GroupByMinute(q: seq<Slice>): Minutes {
    map m | m in (set i | 0 <= i < |q| :: q[i].minute) && GroupSum(q, m).covered > 0 :: GroupSum(q, m)
  }

  lemma PointsAreReadings(s: Samples, h: Holds, from: int, to: int)
    ensures forall t :: t in Points(s, h, from, to) ==> IsReading(s, t)
  {
  }

  function Computed(s: Samples, h: Holds, from: int, to: int): Minutes {
    PointsAreReadings(s, h, from, to);
    GroupByMinute(Sliced(Segments(s, h, Points(s, h, from, to), to), from))
  }

  /** p_from and p_to truncated, p_to capped at the current minute. */
  function Upper(pTo: int, now: int): int { Min(Trunc(pTo), Trunc(now)) }

  /** What states_minute holds after one refresh. */
  function Refreshed(rows: Minutes, s: Samples, h: Holds, pFrom: int, pTo: int, now: int): Minutes {
    var from, to := Trunc(pFrom), Upper(pTo, now);
    if to <= from then rows
    else (map m | m in rows && !(from <= m < to) :: rows[m]) + Computed(s, h, from, to)
  }

  // ---- Slices of one segment ------------------------------------------------------

  lemma GroupSumConcat(p: seq<Slice>, q: seq<Slice>, m: int)
    ensures GroupSum(p + q, m) == Plus(GroupSum(p, m), GroupSum(q, m))
  {
    if p == [] {
      assert p + q == q;
    } else {
      assert (p + q)[0] == p[0] && (p + q)[1..] == p[1..] + q;
      GroupSumConcat(p[1..], q, m);
    }
  }

  lemma GroupSumAbsent(q: seq<Slice>, m: int)
    requires forall i :: 0 <= i < |q| ==> q[i].minute != m
    ensures GroupSum(q, m) == ZERO
  {
  }

  lemma {:induction false} SeriesMinutes(g: Segment, minute: int, last: int)
    requires IsMinute(minute)
    ensures forall i :: 0 <= i < |Series(g, minute, last)| ==>
              var m := Series(g, minute, last)[i].minute;
              IsMinute(m) && minute <= m <= last
    decreases last - minute
  {
    if minute <= last {
      SeriesMinutes(g, minute + MINUTE, last);
    }
  }

  /** A segment contributes to a minute its value over their overlap. */
  lemma {:induction false} SeriesSum(g: Segment, minute: int, last: int, m: int)
    requires IsMinute(minute) && IsMinute(m)
    ensures GroupSum(Series(g, minute, last), m) ==
            if minute <= m <= last then Held(g.value, Min(g.t1, m + MINUTE) - Max(g.t0, m)) else ZERO
    decreases last - minute
  {
    if minute <= last {
      SeriesSum(g, minute + MINUTE, last, m);
      SeriesMinutes(g, minute + MINUTE, last);
      assert Series(g, minute, last)[1..] == Series(g, minute + MINUTE, last);
      if m == minute {
        GroupSumAbsent(Series(g, minute + MINUTE, last), m);
      }
    }
  }

  lemma SegmentShare(g: Segment, from: int, m: int)
    requires IsMinute(from) && IsMinute(m) && from <= m
    ensures GroupSum(SlicesOf(g, from), m) == HeldBetween(g.value, Max(g.t0, m), Min(g.t1, m + MINUTE))
  {
    if g.t1 > g.t0 {
      SeriesSum(g, Max(Trunc(g.t0), from), Trunc(g.t1 - 1), m);
      TruncOrder(m, g.t0);
      TruncOrder(m, g.t1 - 1);
    }
  }

  lemma SliceMinutes(g: Segment, from: int)
    requires IsMinute(from)
    ensures forall i :: 0 <= i < |SlicesOf(g, from)| ==>
              var m := SlicesOf(g, from)[i].minute; IsMinute(m) && from <= m < g.t1
  {
    if g.t1 > g.t0 {
      SeriesMinutes(g, Max(Trunc(g.t0), from), Trunc(g.t1 - 1));
    }
  }

  lemma {:induction false} SlicedMinutes(gs: seq<Segment>, from: int, to: int)
    requires IsMinute(from) && forall i :: 0 <= i < |gs| ==> gs[i].t1 <= to
    ensures forall i :: 0 <= i < |Sliced(gs, from)| ==>
              var m := Sliced(gs, from)[i].minute; IsMinute(m) && from <= m < to
  {
    if gs != [] {
      SliceMinutes(gs[0], from);
      SlicedMinutes(gs[1..], from, to);
    }
  }

  // ---- All segments ---------------------------------------------------------------

  /** Consecutive points have no reading between them, and the last has none before `to`. */
  ghost predicate Gapless(s: Samples, points: seq<int>, to: int) {
    && Ascending(points)
    && (forall t :: t in points ==> IsReading(s, t) && t < to)
    && (points != [] ==> forall u :: points[0] < u < to && IsReading(s, u) ==> u in points)
  }

  lemma NextPoint(s: Samples, points: seq<int>, to: int)
    requires Gapless(s, points, to) && points != []
    ensures points[0] < (if |points| > 1 then points[1] else to) <= to
    ensures NextReadingAfter(s, points[0], if |points| > 1 then points[1] else to)
    ensures Gapless(s, points[1..], to)
  {
    assert points == [points[0]] + points[1..];
    assert points[0] in points && (|points| > 1 ==> points[1] in points);
    var next := if |points| > 1 then points[1] else to;
    assert |points| > 1 ==> points[1] in points;
    forall u | u in points ensures u <= points[0] || next <= u {
      var i :| 0 <= i < |points| && points[i] == u;
    }
    if |points| > 1 {
      forall u | points[1] < u < to && IsReading(s, u) ensures u in points[1..] {
        assert u in points;
      }
    }
  }

  function FirstSegment(s: Samples, h: Holds, points: seq<int>, to: int): (g: Segment)
    requires points != [] && forall t :: t in points ==> IsReading(s, t)
    ensures IsReading(s, points[0]) && g.t0 == points[0] && g.value == s[points[0]].value
    ensures g.t1 == Min(Min(if |points| > 1 then points[1] else to, g.t0 + HoldOf(h, g.value)), to)
  {
    assert points[0] in points;
    Segments(s, h, points, to)[0]
  }

  lemma SegmentsStep(s: Samples, h: Holds, points: seq<int>, from: int, to: int, m: int)
    requires Gapless(s, points, to) && points != []
    requires IsMinute(from) && IsMinute(m) && from <= m
    ensures forall t :: t in points[1..] ==> IsReading(s, t)
    ensures |points| == 1 ==> GroupSum(Sliced(Segments(s, h, points[1..], to), from), m) == ZERO
    ensures var g := FirstSegment(s, h, points, to);
            GroupSum(Sliced(Segments(s, h, points, to), from), m) ==
            Plus(HeldBetween(g.value, Max(g.t0, m), Min(g.t1, m + MINUTE)),
                 GroupSum(Sliced(Segments(s, h, points[1..], to), from), m))
  {
    assert forall t :: t in points[1..] ==> t in points;
    var gs := Segments(s, h, points, to);
    assert gs[1..] == Segments(s, h, points[1..], to);
    assert Sliced(gs, from) == SlicesOf(gs[0], from) + Sliced(gs[1..], from);
    GroupSumConcat(SlicesOf(gs[0], from), Sliced(gs[1..], from), m);
    SegmentShare(gs[0], from, m);
  }

  lemma NoSegments(s: Samples, h: Holds, from: int, to: int, m: int)
    ensures GroupSum(Sliced(Segments(s, h, [], to), from), m) == ZERO
  {
  }

  lemma FirstShare(s: Samples, h: Holds, t: int, next: int, lo: int, end: int)
    requires IsReading(s, t) && t < next && t <= lo <= end && NextReadingAfter(s, t, next)
    ensures var mid := Max(lo, Min(next, end));
            Area(s, h, lo, end) ==
            Plus(HeldBetween(s[t].value, lo, Min(Min(next, t + HoldOf(h, s[t].value)), end)),
                 Area(s, h, mid, end))
  {
    hide Area;
    var mid := Max(lo, Min(next, end));
    if lo < mid {
      assert NextReadingAfter(s, t, mid);
      AreaOfReading(s, h, t, lo, mid);
      AreaSplits(s, h, lo, mid, end);
    }
  }

  lemma StepArea(s: Samples, h: Holds, t: int, next: int, to: int, m: int, end: int)
    requires IsReading(s, t) && t < next <= to && NextReadingAfter(s, t, next) && m <= end <= to
    ensures var v := s[t].value;
            Area(s, h, Max(m, t), end) ==
            Plus(HeldBetween(v, Max(t, m), Min(Min(Min(next, t + HoldOf(h, v)), to), end)),
                 Area(s, h, Max(m, next), end))
  {
    hide Area, HoldOf, NextReadingAfter;
    if t < end {
      FirstShare(s, h, t, next, Max(m, t), end);
    } else {
      AreaEmpty(s, h, Max(m, t), end);
    }
    if end <= next {
      AreaEmpty(s, h, Max(m, next), end);
      AreaEmpty(s, h, end, end);
    }
  }

  /** From the first point on, the segments add up to the held area of the minute. */
  lemma {:induction false} SegmentsSum(s: Samples, h: Holds, points: seq<int>, from: int, to: int, m: int)
    requires Gapless(s, points, to) && points != []
    requires IsMinute(from) && IsMinute(to) && IsMinute(m) && from <= m < to
    ensures GroupSum(Sliced(Segments(s, h, points, to), from), m) ==
            Area(s, h, Max(m, points[0]), m + MINUTE)
    decreases |points|
  {
    hide Area, Segments, Sliced, GroupSum, HoldOf, FirstSegment, HeldBetween, NextReadingAfter;
    var next := if |points| > 1 then points[1] else to;
    NextPoint(s, points, to);
    TruncOrder(to - MINUTE, m);
    SegmentsStep(s, h, points, from, to, m);
    StepArea(s, h, points[0], next, to, m, m + MINUTE);
    if |points| > 1 {
      SegmentsSum(s, h, points[1..], from, to, m);
    } else {
      AreaEmpty(s, h, Max(m, next), m + MINUTE);
    }
  }

  lemma FirstPoint(s: Samples, h: Holds, from: int, to: int, t: int)
    requires IsReading(s, t) && from - LongestHold(h) <= t < to
    ensures var points := Points(s, h, from, to);
            points != [] && (points[0] <= t || points[0] < from)
  {
    if t >= from {
      assert t in InRange(s, from, to);
    } else {
      assert WithinReach(s, h, from, t);
    }
  }

  /** Before the first point nothing is held: the bounded carry-in lookup misses nothing. */
  lemma CarryInReaches(s: Samples, h: Holds, from: int, to: int, a: int, b: int)
    requires from <= a && b <= to
    requires Points(s, h, from, to) == [] || b <= Max(a, Points(s, h, from, to)[0])
    ensures Area(s, h, a, b) == ZERO
  {
    hide Points, Area;
    forall t, x | a <= x < b ensures !HeldFrom(s, h, t, x) {
      if IsReading(s, t) && from - LongestHold(h) <= t < to { FirstPoint(s, h, from, to, t); }
      assert IsReading(s, t) ==> HoldOf(h, s[t].value) <= LongestHold(h);
    }
    AreaNothingHeld(s, h, a, b);
  }

  lemma PointsAreGapless(s: Samples, h: Holds, from: int, to: int)
    requires from < to
    ensures Gapless(s, Points(s, h, from, to), to)
  {
    hide CarryIn, InRange, LongestHold;
    var carry, range := CarryIn(s, h, from), InRange(s, from, to);
    if carry == [] {
      assert carry + range == range;
      assert range != [] ==> range[0] in range;
    } else {
      assert carry == [carry[0]];
      forall u | carry[0] < u < to && IsReading(s, u) ensures u in range {
        assert u < from ==> WithinReach(s, h, from, u);
      }
      PrependIsGapless(s, carry[0], range, to);
    }
  }

  lemma PrependIsGapless(s: Samples, t: int, range: seq<int>, to: int)
    requires Ascending(range) && (forall u :: u in range ==> t < u < to && IsReading(s, u))
    requires IsReading(s, t) && t < to && forall u :: t < u < to && IsReading(s, u) ==> u in range
    ensures Gapless(s, [t] + range, to)
  {
    var points := [t] + range;
    assert forall i :: 0 <= i < |range| ==> range[i] in range;
    assert forall i :: 0 < i < |points| ==> points[i] == range[i - 1];
    assert forall u :: u in range ==> u in points;
  }

  lemma {:induction false} SegmentEnds(s: Samples, h: Holds, points: seq<int>, to: int)
    requires forall t :: t in points ==> IsReading(s, t)
    ensures forall i :: 0 <= i < |Segments(s, h, points, to)| ==> Segments(s, h, points, to)[i].t1 <= to
  {
    if points != [] {
      SegmentEnds(s, h, points[1..], to);
    }
  }

  lemma MinuteIsSummed(s: Samples, h: Holds, from: int, to: int, m: int)
    requires IsMinute(from) && IsMinute(to) && IsMinute(m) && from <= m < to
    ensures forall t :: t in Points(s, h, from, to) ==> IsReading(s, t)
    ensures GroupSum(Sliced(Segments(s, h, Points(s, h, from, to), to), from), m) ==
            Area(s, h, m, m + MINUTE)
  {
    hide Area, Segments, Sliced, GroupSum, Points, Gapless;
    var points, end := Points(s, h, from, to), m + MINUTE;
    PointsAreReadings(s, h, from, to);
    PointsAreGapless(s, h, from, to);
    TruncOrder(to - MINUTE, m);
    if points == [] {
      NoSegments(s, h, from, to, m);
      CarryInReaches(s, h, from, to, m, end);
    } else {
      var start := Min(Max(m, points[0]), end);
      CarryInReaches(s, h, from, to, m, start);
      AreaSplits(s, h, m, start, end);
      SegmentsSum(s, h, points, from, to, m);
      if end <= points[0] {
        AreaEmpty(s, h, Max(m, points[0]), end);
        AreaEmpty(s, h, end, end);
      }
    }
  }

  /** GROUP BY keeps a row for exactly the minutes something covers. */
  lemma ComputedIsReference(s: Samples, h: Holds, from: int, to: int, m: int)
    requires IsMinute(from) && IsMinute(to) && from < to
    ensures m in Computed(s, h, from, to) ==> IsMinute(m) && from <= m < to
    ensures IsMinute(m) && from <= m < to ==> RowIs(Computed(s, h, from, to), m, Reference(s, h, m))
  {
    hide Points, Segments, Sliced, GroupSum, Area, LongestHold;
    var points := Points(s, h, from, to);
    PointsAreReadings(s, h, from, to);
    var gs := Segments(s, h, points, to);
    var q := Sliced(gs, from);
    SegmentEnds(s, h, points, to);
    SlicedMinutes(gs, from, to);
    if IsMinute(m) && from <= m < to {
      MinuteIsSummed(s, h, from, to, m);
      if forall i :: 0 <= i < |q| ==> q[i].minute != m {
        GroupSumAbsent(q, m);
      }
    }
  }

  /** Minute m's row is `want`: that cell, or no row at all. */
  predicate RowIs(rows: Minutes, m: int, want: Option<Cell>) {
    if want.Some? then m in rows && rows[m] == want.value else m !in rows
  }

  /**
   A refresh leaves every minute of the truncated range at its reference and every other
   row as it was.
   */
  lemma RefreshIsReference(rows: Minutes, s: Samples, h: Holds, pFrom: int, pTo: int, now: int, m: int)
    requires IsMinute(m)
    ensures var rows' := Refreshed(rows, s, h, pFrom, pTo, now);
            if Trunc(pFrom) <= m < Upper(pTo, now) then RowIs(rows', m, Reference(s, h, m))
            else (m in rows' <==> m in rows) && (m in rows ==> rows'[m] == rows[m])
  {
    if Trunc(pFrom) < Upper(pTo, now) {
      ComputedIsReference(s, h, Trunc(pFrom), Upper(pTo, now), m);
    }
  }
}
