/** Refreshing in pieces, and what the stored rows add up to. */
module RefreshLaws {
  import opened Clock
  import opened Options
  import opened HeldReadings
  import opened MinuteRefresh

  datatype Piece = Piece(from: int, to: int)

  /** One refresh after another, the last piece of the list first. */
  function RefreshEach(rows: Minutes, s: Samples, h: Holds, pieces: seq<Piece>, now: int): Minutes {
    if pieces == [] then rows
    else Refreshed(RefreshEach(rows, s, h, pieces[1..], now), s, h, pieces[0].from, pieces[0].to, now)
  }

  predicate Covered(p: Piece, m: int, now: int) { Trunc(p.from) <= m < Upper(p.to, now) }

  predicate MinuteKeys(rows: Minutes) { forall m :: m in rows ==> IsMinute(m) }

  lemma RefreshedKeys(rows: Minutes, s: Samples, h: Holds, from: int, to: int, now: int)
    requires MinuteKeys(rows)
    ensures MinuteKeys(Refreshed(rows, s, h, from, to, now))
  {
    hide Computed;
    if Trunc(from) < Upper(to, now) {
      forall m | m in Computed(s, h, Trunc(from), Upper(to, now)) ensures IsMinute(m) {
        ComputedIsReference(s, h, Trunc(from), Upper(to, now), m);
      }
    }
  }

  lemma {:induction false} EachPiece(rows: Minutes, s: Samples, h: Holds, pieces: seq<Piece>, now: int, m: int)
    requires MinuteKeys(rows) && IsMinute(m)
    ensures MinuteKeys(RefreshEach(rows, s, h, pieces, now))
    ensures var rows' := RefreshEach(rows, s, h, pieces, now);
            if exists i :: 0 <= i < |pieces| && Covered(pieces[i], m, now)
            then RowIs(rows', m, Reference(s, h, m))
            else (m in rows' <==> m in rows) && (m in rows ==> rows'[m] == rows[m])
    decreases |pieces|
  {
    hide Reference, Refreshed, RowIs;
    if pieces != [] {
      var p, before := pieces[0], RefreshEach(rows, s, h, pieces[1..], now);
      EachPiece(rows, s, h, pieces[1..], now, m);
      RefreshedKeys(before, s, h, p.from, p.to, now);
      RefreshIsReference(before, s, h, p.from, p.to, now, m);
      assert forall i :: 0 < i < |pieces| ==> pieces[i] == pieces[1..][i - 1];
      RowIsCarries(before, RefreshEach(rows, s, h, pieces, now), m, Reference(s, h, m));
    }
  }

  lemma SameRow(a: Minutes, b: Minutes, m: int, want: Option<Cell>)
    requires (RowIs(a, m, want) && RowIs(b, m, want))
            || ((m in a <==> m in b) && (m in a ==> a[m] == b[m]))
    ensures (m in a <==> m in b) && (m in a ==> a[m] == b[m])
  {
  }

  lemma RowIsCarries(rows: Minutes, rows': Minutes, m: int, want: Option<Cell>)
    ensures (m in rows' <==> m in rows) && (m in rows ==> rows'[m] == rows[m]) && RowIs(rows, m, want)
            ==> RowIs(rows', m, want)
  {
  }

  /**
   Pieces that together cover the minutes of [from, to), adjacent or overlapping and in any
   order, leave the same table as one refresh of the whole range.
   */
  lemma PiecesEqualOneRefresh(rows: Minutes, s: Samples, h: Holds, pieces: seq<Piece>, from: int, to: int, now: int)
    requires MinuteKeys(rows)
    requires forall m :: IsMinute(m) ==>
               ((exists i :: 0 <= i < |pieces| && Covered(pieces[i], m, now))
                <==> Covered(Piece(from, to), m, now))
    ensures RefreshEach(rows, s, h, pieces, now) == Refreshed(rows, s, h, from, to, now)
  {
    hide Reference, Refreshed, RefreshEach;
    var a, b := RefreshEach(rows, s, h, pieces, now), Refreshed(rows, s, h, from, to, now);
    EachPiece(rows, s, h, pieces, now, 0);
    RefreshedKeys(rows, s, h, from, to, now);
    forall m ensures (m in a <==> m in b) && (m in a && m in b ==> a[m] == b[m]) {
      if IsMinute(m) {
        EachPiece(rows, s, h, pieces, now, m);
        RefreshIsReference(rows, s, h, from, to, now, m);
        SameRow(a, b, m, Reference(s, h, m));
      }
    }
    assert forall m :: m in a <==> m in b;
  }

  // ---- Conservation -----------------------------------------------------------------

  function RowOf(rows: Minutes, m: int): Cell { if m in rows then rows[m] else ZERO }

  /** Integrals and coverage summed over the stored minutes of [from, to). */
  function StoredTotal(rows: Minutes, from: int, to: int): Cell
    decreases (to - from)
  {
    if to <= from then ZERO else Plus(RowOf(rows, from), StoredTotal(rows, from + MINUTE, to))
  }

  /** value * held time, summed over the segments clipped to start at `from`. */
  function SegmentTotal(gs: seq<Segment>, from: int): Cell {
    if gs == [] then ZERO
    else Plus(HeldBetween(gs[0].value, Max(gs[0].t0, from), gs[0].t1), SegmentTotal(gs[1..], from))
  }

  lemma {:induction false} MinutesTile(rows: Minutes, s: Samples, h: Holds, from: int, to: int)
    requires IsMinute(from) && IsMinute(to) && from <= to
    requires forall m :: IsMinute(m) && from <= m < to ==> RowIs(rows, m, Reference(s, h, m))
    ensures StoredTotal(rows, from, to) == Area(s, h, from, to)
    decreases (to - from)
  {
    hide Area, Reference, RowIs, RowOf, IsMinute;
    if from < to {
      MinuteStep(from, to);
      AreaSplits(s, h, from, from + MINUTE, to);
      StoredRow(rows, s, h, from);
      MinutesTile(rows, s, h, from + MINUTE, to);
    } else {
      AreaEmpty(s, h, from, to);
    }
  }

  lemma {:induction false} SumNothing(f: int -> Cell, a: int, b: int)
    requires a <= b
    requires forall x :: 0 <= f(x).covered && (f(x).covered == 0 ==> f(x) == ZERO)
    ensures 0 <= Sum(f, a, b).covered
    ensures Sum(f, a, b).covered == 0 ==> Sum(f, a, b) == ZERO
    decreases b - a
  {
    if a < b {
      SumNothing(f, a, b - 1);
    }
  }

  lemma NothingCovered(s: Samples, h: Holds, a: int, b: int)
    requires a <= b
    ensures Area(s, h, a, b).covered >= 0
    ensures Area(s, h, a, b).covered == 0 ==> Area(s, h, a, b) == ZERO
  {
    SumNothing(x => AtInstant(s, h, x), a, b);
  }

  lemma StoredRow(rows: Minutes, s: Samples, h: Holds, m: int)
    requires RowIs(rows, m, Reference(s, h, m))
    ensures RowOf(rows, m) == Area(s, h, m, m + MINUTE)
  {
    hide Area;
    NothingCovered(s, h, m, m + MINUTE);
  }

  /** The first segment and the rest. */
  lemma TotalStep(s: Samples, h: Holds, points: seq<int>, from: int, to: int)
    requires Gapless(s, points, to) && points != []
    ensures forall t :: t in points ==> IsReading(s, t)
    ensures IsReading(s, points[0])
    ensures forall t :: t in points[1..] ==> IsReading(s, t)
    ensures |points| == 1 ==> SegmentTotal(Segments(s, h, points[1..], to), from) == ZERO
    ensures var g := FirstSegment(s, h, points, to);
            SegmentTotal(Segments(s, h, points, to), from) ==
            Plus(HeldBetween(g.value, Max(g.t0, from), g.t1),
                 SegmentTotal(Segments(s, h, points[1..], to), from))
  {
    assert forall t :: t in points[1..] ==> t in points;
    assert Segments(s, h, points, to)[1..] == Segments(s, h, points[1..], to);
  }

  lemma {:induction false} SegmentsAdd(s: Samples, h: Holds, points: seq<int>, from: int, to: int)
    requires Gapless(s, points, to) && points != [] && from <= to
    ensures SegmentTotal(Segments(s, h, points, to), from) == Area(s, h, Max(from, points[0]), to)
    decreases |points|
  {
    hide Area, NextReadingAfter, HoldOf, HeldBetween, FirstSegment, Segments, SegmentTotal, Gapless, IsReading;
    var t, next := points[0], if |points| > 1 then points[1] else to;
    NextPoint(s, points, to);
    TotalStep(s, h, points, from, to);
    StepArea(s, h, t, next, to, from, to);
    var g := FirstSegment(s, h, points, to);
    assert Min(Min(Min(next, t + HoldOf(h, g.value)), to), to) == g.t1;
    if |points| > 1 {
      SegmentsAdd(s, h, points[1..], from, to);
    } else {
      AreaEmpty(s, h, Max(from, next), to);
    }
  }

  lemma NoPointsNoTotal(s: Samples, h: Holds, from: int, to: int)
    ensures SegmentTotal(Segments(s, h, [], to), from) == ZERO
  {}

  /**
   Nothing is lost or counted twice at minute boundaries: after a refresh the rows of its
   range add up to value times held time of the readings' segments.
   */
  lemma RefreshConservesArea(rows: Minutes, s: Samples, h: Holds, pFrom: int, pTo: int, now: int)
    requires Trunc(pFrom) < Upper(pTo, now)
    ensures var from, to := Trunc(pFrom), Upper(pTo, now);
            && (forall t :: t in Points(s, h, from, to) ==> IsReading(s, t))
            && StoredTotal(Refreshed(rows, s, h, pFrom, pTo, now), from, to) ==
               SegmentTotal(Segments(s, h, Points(s, h, from, to), to), from)
  {
    hide Area, Refreshed, Reference, Points, Gapless, StoredTotal, Segments, SegmentTotal, RowIs;
    var from, to := Trunc(pFrom), Upper(pTo, now);
    var points, rows' := Points(s, h, from, to), Refreshed(rows, s, h, pFrom, pTo, now);
    PointsAreReadings(s, h, from, to);
    PointsAreGapless(s, h, from, to);
    forall m | IsMinute(m) && from <= m < to ensures RowIs(rows', m, Reference(s, h, m)) {
      RefreshIsReference(rows, s, h, pFrom, pTo, now, m);
    }
    MinutesTile(rows', s, h, from, to);
    if points == [] {
      CarryInReaches(s, h, from, to, from, to);
      NoPointsNoTotal(s, h, from, to);
    } else {
      var start := Min(Max(from, points[0]), to);
      SegmentsAdd(s, h, points, from, to);
      CarryInReaches(s, h, from, to, from, start);
      AreaSplits(s, h, from, start, to);
      if to <= points[0] {
        AreaEmpty(s, h, Max(from, points[0]), to);
        AreaEmpty(s, h, to, to);
      }
    }
  }
}
