/** One backfill cycle: from the watermark to the packets put for the worker. */
module BackfillCycles {
  import opened Options
  import opened Ingestion

  /** A slice read from the recorder, [from, end). */
  datatype Window = Window(from: int, end: int)

  /** What a cycle puts, in order; and the gap it could not fetch. */
  datatype Cycle = Cycle(windows: seq<Window>, done: bool, gap: Option<Window>)

  /** The windows from `from`, five minutes at a time. */
  function Tiles(from: int, cutoff: int): seq<Window>
    decreases Max(0, cutoff - from)
  {
    if from >= cutoff then [] else [Window(from, SliceEnd(from, cutoff))] + Tiles(SliceEnd(from, cutoff), cutoff)
  }

  predicate Covers(w: Window, t: int) { w.from <= t < w.end }

  /** Abutting, from the start to the cutoff, each at most five minutes and all but the last exactly. */
  lemma {:induction false} TilesAbut(from: int, cutoff: int)
    ensures var ws := Tiles(from, cutoff);
            && (ws == [] <==> from >= cutoff)
            && (forall k :: 0 <= k < |ws| ==> 0 < ws[k].end - ws[k].from <= SLICE_WINDOW)
            && (forall k :: 0 <= k < |ws| - 1 ==> ws[k].end == ws[k].from + SLICE_WINDOW && ws[k].end == ws[k + 1].from)
            && (ws != [] ==> ws[0].from == from && ws[|ws| - 1].end == cutoff)
    decreases Max(0, cutoff - from)
  {
    if from < cutoff {
      var end := SliceEnd(from, cutoff);
      TilesAbut(end, cutoff);
      var ws, rest := Tiles(from, cutoff), Tiles(end, cutoff);
      assert forall k :: 1 <= k < |ws| ==> ws[k] == rest[k - 1];
    }
  }

  /** Some slice reads rows of the instant. */
  predicate Reads(ws: seq<Window>, t: int) { exists k :: 0 <= k < |ws| && Covers(ws[k], t) }

  predicate ReadsOnce(ws: seq<Window>, t: int) {
    forall j, k :: 0 <= j < |ws| && 0 <= k < |ws| && Covers(ws[j], t) && Covers(ws[k], t) ==> j == k
  }

  lemma ReadsPrepend(w: Window, rest: seq<Window>, t: int)
    ensures Reads([w] + rest, t) <==> Covers(w, t) || Reads(rest, t)
    ensures ReadsOnce(rest, t) && !(Covers(w, t) && Reads(rest, t)) ==> ReadsOnce([w] + rest, t)
  {
    var ws := [w] + rest;
    assert forall k :: 1 <= k < |ws| ==> ws[k] == rest[k - 1];
    if k :| 0 <= k < |rest| && Covers(rest[k], t) { assert Covers(ws[k + 1], t); }
    if Covers(w, t) { assert Covers(ws[0], t); }
  }

  /** Each instant of the range is read by exactly one slice, every other by none. */
  lemma {:induction false} TilesTile(from: int, cutoff: int, t: int)
    ensures (Reads(Tiles(from, cutoff), t) <==> from <= t < cutoff) && ReadsOnce(Tiles(from, cutoff), t)
    decreases Max(0, cutoff - from)
  {
    if from < cutoff {
      var end := SliceEnd(from, cutoff);
      TilesTile(end, cutoff, t);
      ReadsPrepend(Window(from, end), Tiles(end, cutoff), t);
    }
  }

  /** Where reading starts: the watermark less the grace, or the recorder's oldest row. */
  function StartOf(watermark: int, oldest: Option<int>): int {
    var from := watermark - LATE_ARRIVAL_GRACE;
    if oldest.Some? && oldest.value > from then oldest.value else from
  }

  /**
   backfill_orchestrator's cycle. `stopAfter` is the number of slices put before the stop event
   is seen, at the loop test or, `waiting`, during the commit-lag wait of the next slice.
   */
  method RunCycle(watermark: Option<int>, oldest: Option<int>, cutoff: int, anyEntities: bool,
                  stopAfter: Option<nat>, waiting: bool) returns (c: Cycle)
    ensures watermark.None? ==> c == Cycle([], true, Option.None)
    ensures watermark.Some? ==>
      var from := StartOf(watermark.value, oldest);
      var tiles := if anyEntities then Tiles(from, cutoff) else [];
      && c.windows == (if stopAfter.Some? && stopAfter.value < |tiles| then tiles[..stopAfter.value] else tiles)
      && (c.done <==> !(waiting && stopAfter.Some? && stopAfter.value < |tiles|))
      && (c.gap.Some? <==> from > watermark.value - LATE_ARRIVAL_GRACE)
      && (c.gap.Some? ==> c.gap.value == Window(watermark.value - LATE_ARRIVAL_GRACE, from))
  {
    if watermark.None? { return Cycle([], true, Option.None); }
    var from := watermark.value - LATE_ARRIVAL_GRACE;
    var gap := Option.None;
    if oldest.Some? && oldest.value > from {
      gap := Some(Window(from, oldest.value));
      from := oldest.value;
    }
    if !anyEntities { return Cycle([], true, gap); }
    var put, stopped := PutSlices(from, cutoff, stopAfter);
    c := Cycle(put, !(stopped && waiting), gap);
  }

  /** The slice loop; `stopped` when the stop event ended it. */
  method PutSlices(from: int, cutoff: int, stopAfter: Option<nat>) returns (put: seq<Window>, stopped: bool)
    ensures var tiles := Tiles(from, cutoff);
            && (stopped <==> stopAfter.Some? && stopAfter.value < |tiles|)
            && put == (if stopped then tiles[..stopAfter.value] else tiles)
  {
    hide SliceEnd;
    var sliceStart := from;
    put, stopped := [], false;
    while sliceStart < cutoff && !stopped
      invariant put + Tiles(sliceStart, cutoff) == Tiles(from, cutoff)
      invariant stopAfter.Some? ==> |put| <= stopAfter.value
      invariant stopped ==> stopAfter == Some(|put|) && sliceStart < cutoff
      decreases Max(0, cutoff - sliceStart), !stopped
    {
      if stopAfter == Some(|put|) {
        stopped := true;
      } else {
        var sliceEnd := SliceEnd(sliceStart, cutoff);
        SliceAdvances(sliceStart, cutoff);
        assert put + ([Window(sliceStart, sliceEnd)] + Tiles(sliceEnd, cutoff))
            == (put + [Window(sliceStart, sliceEnd)]) + Tiles(sliceEnd, cutoff);
        put := put + [Window(sliceStart, sliceEnd)];
        sliceStart := sliceEnd;
      }
    }
    assert Tiles(sliceStart, cutoff) != [] <==> sliceStart < cutoff;
    assert put == Tiles(from, cutoff)[..|put|];
  }

  lemma SliceAdvances(from: int, cutoff: int)
    requires from < cutoff
    ensures from < SliceEnd(from, cutoff) <= cutoff
  {}
}
