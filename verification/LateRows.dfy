/**
 Rows that land behind the frontier: how far one reaches, what marking it restores, and what a mark
 with an end leaves out.
 */
module LateRows {
  import opened Clock
  import opened Options
  import opened HeldReadings
  import opened MinuteRefresh
  import opened RollupState
  import opened MinuteJob

  // ---- How far a row reaches -----------------------------------------------------------------

  /**
   A reading at t would be held at some instant of minute m: at the first one from t on, if its hold
   lasts that long and no later reading has taken over by then.
   */
  predicate Reaches(s: Samples, h: Holds, t: int, m: int) {
    var x := Max(t, m);
    x < m + MINUTE && x < t + LongestHold(h) && forall u :: u in s && t < u <= x ==> s[u].None?
  }

  /** A row that does not reach a minute changes nothing in it, whatever its value. */
  lemma OutOfReach(s: Samples, h: Holds, t: int, value: Option<real>, m: int)
    requires !Reaches(s, h, t, m)
    ensures Reference(s[t := value], h, m) == Reference(s, h, m)
  {
    hide AtInstant;
    var s' := s[t := value];
    var f, g := x => AtInstant(s, h, x), x => AtInstant(s', h, x);
    forall x | m <= x < m + MINUTE ensures f(x) == g(x) { InstantOutOfReach(s, h, t, value, m, x); }
    SumAgrees(f, g, m, m + MINUTE);
  }

  lemma SameHolder(s: Samples, h: Holds, t: int, value: Option<real>, m: int, x: int, u: int)
    requires !Reaches(s, h, t, m) && m <= x < m + MINUTE
    ensures HeldFrom(s[t := value], h, u, x) <==> HeldFrom(s, h, u, x)
    ensures HeldFrom(s, h, u, x) ==> u in s && s[t := value][u] == s[u]
  {
    var s' := s[t := value];
    assert forall k :: k != t ==> (IsReading(s', k) <==> IsReading(s, k));
    if u <= t <= x {
      if x < t + LongestHold(h) {
        var k :| k in s && t < k <= Max(t, m) && s[k].Some?;
        assert IsReading(s, k) && IsReading(s', k);
      }
    }
  }

  lemma InstantOutOfReach(s: Samples, h: Holds, t: int, value: Option<real>, m: int, x: int)
    requires !Reaches(s, h, t, m) && m <= x < m + MINUTE
    ensures AtInstant(s[t := value], h, x) == AtInstant(s, h, x)
  {
    hide AtInstant;
    var s' := s[t := value];
    forall u ensures HeldFrom(s, h, u, x) <==> HeldFrom(s', h, u, x) {
      SameHolder(s, h, t, value, m, x, u);
    }
    forall u | HeldFrom(s, h, u, x) ensures u in s && u in s' && s[u] == s'[u] {
      SameHolder(s, h, t, value, m, x, u);
    }
    SameHolders(s, s', h, x);
  }

  lemma SameHolders(s: Samples, s': Samples, h: Holds, x: int)
    requires forall u :: HeldFrom(s, h, u, x) <==> HeldFrom(s', h, u, x)
    requires forall u :: HeldFrom(s, h, u, x) ==> u in s && u in s' && s[u] == s'[u]
    ensures AtInstant(s, h, x) == AtInstant(s', h, x)
  {
    if u :| HeldFrom(s, h, u, x) {
      AtHeldInstant(s, h, u, x);
      AtHeldInstant(s', h, u, x);
    }
  }

  /** Where a reading at t stops being the last one: the next reading, or the end of the range. */
  lemma NextReading(s: Samples, t: int, x: int, end: int) returns (hi: int)
    requires t <= x < end && forall u :: t < u <= x ==> !IsReading(s, u)
    ensures x < hi <= end && NextReadingAfter(s, t, hi)
    ensures hi < end ==> IsReading(s, hi)
  {
    var later := set u | u in s && x < u < end && IsReading(s, u);
    hi := if later == {} then end else Least(later);
    forall u | x < u < hi ensures !IsReading(s, u) { assert u !in later; }
  }

  /** From the next reading on, the value at t no longer matters. */
  lemma SameFrom(s: Samples, h: Holds, t: int, v: real, w: real, hi: int, end: int)
    requires t < hi <= end && (hi < end ==> IsReading(s, hi))
    ensures Area(s[t := Some(v)], h, hi, end) == Area(s[t := Some(w)], h, hi, end)
  {
    hide AtInstant;
    var s1, s2 := s[t := Some(v)], s[t := Some(w)];
    var f, g := x => AtInstant(s1, h, x), x => AtInstant(s2, h, x);
    forall x | hi <= x < end ensures f(x) == g(x) {
      assert IsReading(s1, hi) && IsReading(s2, hi);
      assert forall u :: u != t ==> (IsReading(s1, u) <==> IsReading(s2, u));
      assert forall u :: HeldFrom(s1, h, u, x) || HeldFrom(s2, h, u, x) ==> u >= hi;
      SameHolders(s1, s2, h, x);
    }
    SumAgrees(f, g, hi, end);
  }

  /** A reading of v at t gives a minute it reaches a part that v decides and two that it does not. */
  lemma ThreeParts(s: Samples, h: Holds, t: int, m: int) returns (before: Cell, hi: int, after: Cell)
    requires Reaches(s, h, t, m)
    ensures Max(t, m) < hi && before.covered >= 0 && after.covered >= 0
    ensures forall v :: v in {0.0, 1.0} ==>
              Area(s[t := Some(v)], h, m, m + MINUTE)
              == Plus(Plus(before, HeldBetween(v, Max(t, m), Min(hi, t + HoldOf(h, v)))), after)
  {
    hide Area, HeldBetween, HeldFrom;
    var x, end := Max(t, m), m + MINUTE;
    hi := NextReading(s, t, x, end);
    before, after := Area(s[t := Some(0.0)], h, m, x), Area(s[t := Some(0.0)], h, hi, end);
    AreaCovers(s[t := Some(0.0)], h, m, x);
    AreaCovers(s[t := Some(0.0)], h, hi, end);
    forall v | v in {0.0, 1.0}
      ensures Area(s[t := Some(v)], h, m, end)
              == Plus(Plus(before, HeldBetween(v, x, Min(hi, t + HoldOf(h, v)))), after)
    {
      var s' := s[t := Some(v)];
      AreaSplits(s', h, m, hi, end);
      AreaSplits(s', h, m, x, hi);
      if x == m {
        AreaEmpty(s', h, m, x);
        AreaEmpty(s[t := Some(0.0)], h, m, x);
      } else {
        AreaDependsOnReadings(s[t := Some(0.0)], s', h, m, x);
      }
      assert forall u :: u != t ==> (IsReading(s', u) <==> IsReading(s, u));
      AreaOfReading(s', h, t, x, hi);
      SameFrom(s, h, t, 0.0, v, hi, end);
    }
  }

  lemma AreaCovers(s: Samples, h: Holds, a: int, b: int)
    requires a <= b
    ensures Area(s, h, a, b).covered >= 0
  {
    SumBounds(x => AtInstant(s, h, x), a, b);
  }

  /** A zero and a one in a minute they reach cannot both be what is stored. */
  lemma ReachedMinuteDepends(s: Samples, h: Holds, t: int, m: int)
    requires Reaches(s, h, t, m)
    ensures Reference(s[t := Some(0.0)], h, m) != Reference(s[t := Some(1.0)], h, m)
  {
    hide Area;
    var before, hi, after := ThreeParts(s, h, t, m);
    var x := Max(t, m);
    var zero, one := Min(hi, t + HoldOf(h, 0.0)), Min(hi, t + HoldOf(h, 1.0));
    assert Area(s[t := Some(0.0)], h, m, m + MINUTE) == Plus(Plus(before, HeldBetween(0.0, x, zero)), after);
    assert Area(s[t := Some(1.0)], h, m, m + MINUTE) == Plus(Plus(before, HeldBetween(1.0, x, one)), after);
    assert HeldBetween(0.0, x, zero).integral == 0.0;
    if x < one {
      assert HeldBetween(1.0, x, one).integral == (one - x) as real;
    } else {
      assert x < zero;
    }
  }

  /**
   A row written and never marked, after a link outage longer than the lookback, say, leaves a settled
   minute accounted for whatever its value if and only if that minute is queued, awaits a mark, is another
   entity's, or is out of the row's reach.
   */
  lemma LateWriteReaches(r: Rollup, e: EntityId, t: int, lookback: int, x: EntityId, m: int)
    requires RollupInvariant(r, lookback) && Settled(r, x, m, lookback)
    ensures (forall v :: Accounted(Write(r, e, t, v), x, m)) <==>
            Queued(r, x, m) || AwaitsMark(r, x, m)
            || (x == e ==> !Reaches(SamplesOf(r, x), r.config[x].holds, t, m))
  {
    hide Reference, RowIs, Trunc, Reaches;
    assert Accounted(r, x, m);
    forall v ensures Queued(Write(r, e, t, v), x, m) <==> Queued(r, x, m) {}
    if x == e {
      var s, h := SamplesOf(r, e), r.config[e].holds;
      if Reaches(s, h, t, m) {
        ReachedMinuteDepends(s, h, t, m);
        var zero, one := Write(r, e, t, Some(0.0)), Write(r, e, t, Some(1.0));
        assert Want(zero, e, m) != Want(one, e, m);
        if RowIs(RowsOf(r, e), m, Want(zero, e, m)) { OneRowOnly(RowsOf(r, e), m, Want(zero, e, m), Want(one, e, m)); }
      } else {
        forall v ensures Want(Write(r, e, t, v), e, m) == Want(r, e, m) { OutOfReach(s, h, t, v, m); }
      }
    }
  }

  lemma OneRowOnly(rows: Minutes, m: int, c: Option<Cell>, d: Option<Cell>)
    requires RowIs(rows, m, c) && c != d
    ensures !RowIs(rows, m, d)
  {}

  /** Every settled minute the row reaches is in the queue, or a running backfill's mark will queue it. */
  ghost predicate Harmless(r: Rollup, e: EntityId, t: int, lookback: int) {
    forall m :: Settled(r, e, m, lookback) && Reaches(SamplesOf(r, e), r.config[e].holds, t, m) ==>
      Queued(r, e, m) || AwaitsMark(r, e, m)
  }

  lemma SettledAsBefore(r: Rollup, e: EntityId, t: int, value: Option<real>, lookback: int)
    ensures Clocks(Write(r, e, t, value)) <==> Clocks(r)
    ensures forall x, m :: Settled(Write(r, e, t, value), x, m, lookback) <==> Settled(r, x, m, lookback)
  {}

  lemma HarmlessKeeps(r: Rollup, e: EntityId, t: int, value: Option<real>, lookback: int)
    requires RollupInvariant(r, lookback) && Harmless(r, e, t, lookback)
    ensures RollupInvariant(Write(r, e, t, value), lookback)
  {
    hide Accounted, Reaches, AwaitsMark, Clocks, Queued;
    SettledAsBefore(r, e, t, value, lookback);
    forall x, m | Settled(r, x, m, lookback) ensures x in r.config && Accounted(Write(r, e, t, value), x, m) {
      LateWriteReaches(r, e, t, lookback, x, m);
    }
  }

  lemma KeptIsHarmless(r: Rollup, e: EntityId, t: int, lookback: int, m: int)
    requires RollupInvariant(r, lookback) && forall v :: RollupInvariant(Write(r, e, t, v), lookback)
    requires Settled(r, e, m, lookback) && Reaches(SamplesOf(r, e), r.config[e].holds, t, m)
    ensures Queued(r, e, m) || AwaitsMark(r, e, m)
  {
    hide Accounted, Reaches, AwaitsMark, Clocks, Queued;
    forall v ensures Accounted(Write(r, e, t, v), e, m) {
      assert RollupInvariant(Write(r, e, t, v), lookback);
      SettledAsBefore(r, e, t, v, lookback);
    }
    LateWriteReaches(r, e, t, lookback, e, m);
  }

  /** When a live row needs no mark: exactly when it is harmless. */
  lemma UnmarkedWriteKeepsExactlyWhen(r: Rollup, e: EntityId, t: int, lookback: int)
    requires RollupInvariant(r, lookback)
    ensures (forall v :: RollupInvariant(Write(r, e, t, v), lookback)) <==> Harmless(r, e, t, lookback)
  {
    hide RollupInvariant, Accounted, Reaches, AwaitsMark, Queued;
    if Harmless(r, e, t, lookback) {
      forall v ensures RollupInvariant(Write(r, e, t, v), lookback) { HarmlessKeeps(r, e, t, v, lookback); }
    }
    if forall v :: RollupInvariant(Write(r, e, t, v), lookback) {
      forall m | Settled(r, e, m, lookback) && Reaches(SamplesOf(r, e), r.config[e].holds, t, m)
        ensures Queued(r, e, m) || AwaitsMark(r, e, m)
      {
        KeptIsHarmless(r, e, t, lookback, m);
      }
    }
  }

  /** A row no older than the lookback is harmless, and so is one in the queued history of a new entity. */
  lemma InTimeIsHarmless(r: Rollup, e: EntityId, t: int, lookback: int)
    requires RollupInvariant(r, lookback) && InTime(r, e, t, lookback)
    ensures Harmless(r, e, t, lookback)
  {
    hide RollupInvariant, InTime, Harmless;
    forall v ensures RollupInvariant(Write(r, e, t, v), lookback) { WriteKeeps(r, e, t, v, lookback); }
    UnmarkedWriteKeepsExactlyWhen(r, e, t, lookback);
  }

  /**
   What a step must meet if nothing more is asked of rows that get no mark than that they are harmless.
   (A backfilled row of an entity without a frontier gets none.)
   */
  ghost predicate Tolerable(r: Rollup, s: Step, lookback: int) {
    match s
    case DoWrite(e, t, _) => Harmless(r, e, t, lookback)
    case DoWriteBackfilled(e, t, _) => e in r.config && r.config[e].filled.None? ==> Harmless(r, e, t, lookback)
    case _ => Allowed(r, s, lookback)
  }

  lemma BackfilledKeeps(r: Rollup, e: EntityId, t: int, value: Option<real>, lookback: int)
    requires RollupInvariant(r, lookback) && Tolerable(r, DoWriteBackfilled(e, t, value), lookback)
    ensures RollupInvariant(WriteBackfilled(r, e, t, value), lookback)
  {
    hide Harmless, Accounted, Reference, RowIs, Trunc;
    var w, r' := Write(r, e, t, value), WriteBackfilled(r, e, t, value);
    if e in r.config && r.config[e].filled.None? {
      HarmlessKeeps(r, e, t, value, lookback);
      forall x, m | Settled(r', x, m, lookback) ensures Accounted(r', x, m) {
        assert Settled(w, x, m, lookback) && Accounted(w, x, m);
        StillAwaits(w, r', x, m);
      }
    } else {
      WriteBackfilledKeeps(r, e, t, value, lookback);
    }
  }

  /** An earlier late row only adds to the minutes that await its mark. */
  lemma StillAwaits(r: Rollup, r': Rollup, e: EntityId, m: int)
    requires e in r.config && r' == r.(late := r'.late) && Accounted(r, e, m)
    requires r.late.Some? ==> r'.late.Some? && r'.late.value <= r.late.value
    ensures Accounted(r', e, m)
  {
    hide Reference, RowIs, Trunc;
    assert Queued(r, e, m) ==> Queued(r', e, m);
  }

  ghost predicate AllTolerable(r: Rollup, steps: seq<Step>, lookback: int)
    decreases |steps|
  {
    steps == []
    || (Tolerable(r, steps[0], lookback) && AllTolerable(Apply(r, steps[0], lookback), steps[1..], lookback))
  }

  /** The rollup's promise on every run, also with late unmarked rows, as long as each one is harmless. */
  lemma {:induction false} HarmlessRunKeeps(r: Rollup, steps: seq<Step>, lookback: int)
    requires RollupInvariant(r, lookback) && AllTolerable(r, steps, lookback) && lookback >= 0
    ensures RollupInvariant(ApplyAll(r, steps, lookback), lookback)
    decreases |steps|
  {
    hide RollupInvariant, Allowed, Harmless, WriteBackfilled, BackfillDone, MarkDirty, Tail, DirtyUnit, Reset, Remove;
    if steps != [] {
      match steps[0] {
        case DoWrite(e, t, value) => HarmlessKeeps(r, e, t, value, lookback);
        case DoWriteBackfilled(e, t, value) => BackfilledKeeps(r, e, t, value, lookback);
        case _ => StepKeeps(r, steps[0], lookback);
      }
      HarmlessRunKeeps(Apply(r, steps[0], lookback), steps[1..], lookback);
    }
  }

  /** A mark with an open end, from the row on, accounts for them again, however late the row. */
  lemma MarkRestores(r: Rollup, e: EntityId, t: int, value: Option<real>, order: seq<EntityId>, lookback: int)
    requires RollupInvariant(r, lookback) && lookback >= 0
    requires e in r.config && r.config[e].filled.Some? && forall x :: x in r.config ==> x in order
    ensures RollupInvariant(MarkDirty(Write(r, e, t, value), order, t, None), lookback)
  {
    hide Reference, RowIs, Trunc, MarkRows;
    var w := Write(r, e, t, value);
    var r' := MarkDirty(w, order, t, None);
    forall x, m | Settled(r', x, m, lookback) ensures Accounted(r', x, m) {
      assert Settled(r, x, m, lookback) && Accounted(r, x, m);
      if Queued(r, x, m) {
        var d :| d in r.dirty && d.entity == x && Trunc(d.from) <= m < Trunc(d.to);
        assert d in r'.dirty;
      } else if x == e && m + MINUTE <= t {
        WriteIsLocal(SamplesOf(r, e), r.config[e].holds, t, value, m);
      } else if x == e {
        assert BehindFrontier(w, e, t);
        var d :| d in MarkRows(w, order, t, None) && d.entity == e && d.from == t && d.to == r.now;
        assert d in r'.dirty;
        QueueTruncs(t, t, m, r.now);
      }
    }
  }

  // ---- Marks with an end -------------------------------------------------------------------------

  /** A closed minute that rows written in [from, to] can change. */
  predicate Reached(r: Rollup, e: EntityId, from: int, to: int, m: int)
    requires e in r.config
  {
    IsMinute(m) && m + MINUTE <= r.now && from < m + MINUTE && m < to + LongestHold(r.config[e].holds)
  }

  /** The mark queues the minute for the entity. */
  predicate Marked(r: Rollup, order: seq<EntityId>, from: int, to: Option<int>, e: EntityId, m: int) {
    exists d :: d in MarkRows(r, order, from, to) && d.entity == e && Trunc(d.from) <= m < Trunc(d.to)
  }

  lemma {:induction false} MarkedRows(r: Rollup, order: seq<EntityId>, from: int, to: int)
    ensures forall d :: d in MarkRows(r, order, from, Some(to)) ==>
              d.entity in r.config && d.from == from && d.to == Min(r.now, to + LongestHold(r.config[d.entity].holds))
    decreases order
  {
    if order != [] { MarkedRows(r, order[1..], from, to); }
  }

  /**
   A mark with an end queues every minute its rows can have changed exactly when that end, with the
   entity's longest hold, is a minute boundary or lies in the open minute.
   */
  lemma MarkCoversExactlyWhen(r: Rollup, order: seq<EntityId>, from: int, to: int, e: EntityId)
    requires e in order && BehindFrontier(r, e, from) && from <= to && LongestHold(r.config[e].holds) > 0
    ensures (forall m :: Reached(r, e, from, to, m) ==> Marked(r, order, from, Some(to), e, m))
            <==> (var end := to + LongestHold(r.config[e].holds);
                  IsMinute(end) || Trunc(end) + MINUTE > r.now)
  {
    hide Trunc, IsMinute, LongestHold;
    var hold := LongestHold(r.config[e].holds);
    MarkedRows(r, order, from, to);
    var d :| d in MarkRows(r, order, from, Some(to)) && d.entity == e && d.from == from
             && d.to == Min(r.now, to + hold);
    forall m ensures Marked(r, order, from, Some(to), e, m) <==> Trunc(from) <= m < Trunc(Min(r.now, to + hold)) {
    }
    MarkThroughCovers(from, to, hold, r.now);
    if forall m :: Reached(r, e, from, to, m) ==> Marked(r, order, from, Some(to), e, m) {
      forall m | IsMinute(m) && m + MINUTE <= r.now && from < m + MINUTE && m < to + hold
        ensures Trunc(from) <= m < Trunc(Min(r.now, to + hold))
      {
        assert Reached(r, e, from, to, m);
      }
    }
  }

  /** One reading of an entity held for half a minute, and a frontier far past it. */
  const LATE := 5 * MINUTE + 40 * SECOND

  function Quiet(): Rollup {
    Rollup(map[], map[], map["s" := Config(Holds(30, Option.None), Some(100 * MINUTE), 0)], [], Option.None,
           100 * MINUTE, 100 * MINUTE)
  }

  /** Its reading arrives late and unmarked: its own minute is settled, not queued, and wrong. */
  lemma LateWriteLeavesStale()
    ensures RollupInvariant(Quiet(), 15 * MINUTE)
    ensures var r := Write(Quiet(), "s", LATE, Some(1.0));
            && r.dirty == [] && r.late.None?
            && Settled(r, "s", 5 * MINUTE, 15 * MINUTE) && !Accounted(r, "s", 5 * MINUTE)
  {
    hide Area;
    QuietIsRight();
    var r := Write(Quiet(), "s", LATE, Some(1.0));
    var s, h := SamplesOf(r, "s"), r.config["s"].holds;
    assert s == map[LATE := Some(1.0)];
    AreaSplits(s, h, 5 * MINUTE, LATE, 6 * MINUTE);
    AreaCovers(s, h, 5 * MINUTE, LATE);
    AreaOfReading(s, h, LATE, LATE, 6 * MINUTE);
    assert Area(s, h, LATE, 6 * MINUTE).covered == 20 * SECOND;
  }

  /** What is stored once the mark's one range is worked off. */
  function Worked(): Rollup {
    DirtyUnit(MarkDirty(Write(Quiet(), "s", LATE, Some(1.0)), ["s"], LATE, Some(LATE)))
  }

  lemma QuietIsRight()
    ensures RollupInvariant(Quiet(), 15 * MINUTE)
  {
    hide Reference;
    var r := Quiet();
    forall e, m | Settled(r, e, m, 15 * MINUTE) ensures Accounted(r, e, m) {
      NothingBeforeHistory(map[], r.config[e].holds, m);
    }
  }

  lemma LateTruncs()
    ensures Trunc(LATE) == 5 * MINUTE && Upper(LATE + 30 * SECOND, 100 * MINUTE) == 6 * MINUTE
    ensures IsMinute(6 * MINUTE)
  {}

  lemma MarkOfLate()
    ensures MarkRows(Write(Quiet(), "s", LATE, Some(1.0)), ["s"], LATE, Some(LATE))
            == [Dirty("s", LATE, LATE + 30 * SECOND)]
  {
    assert ["s"][1..] == [];
    assert MarkRows(Write(Quiet(), "s", LATE, Some(1.0)), [], LATE, Some(LATE)) == [];
  }

  lemma WorkedOff()
    ensures Worked().dirty == [] && Worked().late.None?
    ensures Worked().samples == map["s" := map[LATE := Some(1.0)]] && Worked().config == Quiet().config
    ensures 6 * MINUTE !in RowsOf(Worked(), "s")
  {
    hide Refreshed, MarkRows, Newest, Trunc, Upper;
    MarkOfLate();
    var q := MarkDirty(Write(Quiet(), "s", LATE, Some(1.0)), ["s"], LATE, Some(LATE));
    assert Newest(q.dirty) == 0;
    assert Trunc(LATE) == 5 * MINUTE && Upper(LATE + 30 * SECOND, 100 * MINUTE) == 6 * MINUTE by { LateTruncs(); }
    RefreshIsReference(map[], SamplesOf(q, "s"), q.config["s"].holds, LATE, LATE + 30 * SECOND, q.now, 6 * MINUTE);
  }

  /**
   A settled minute can stay stale for good: a reading at 5:40 held for thirty seconds, marked
   through its own instant, changes minute 6, but the range queued ends at 6:10 and the refresh
   truncates that to 6:00.
   */
  lemma MarkWithAnEndLeavesStale()
    ensures RollupInvariant(Quiet(), 15 * MINUTE)
    ensures Settled(Worked(), "s", 6 * MINUTE, 15 * MINUTE) && Worked().dirty == [] && Worked().late.None?
    ensures !Accounted(Worked(), "s", 6 * MINUTE)
  {
    hide Worked;
    QuietIsRight();
    WorkedOff();
    var s, h := SamplesOf(Worked(), "s"), Worked().config["s"].holds;
    AreaOfReading(s, h, LATE, 6 * MINUTE, 7 * MINUTE);
    assert Area(s, h, 6 * MINUTE, 7 * MINUTE).covered == 10 * SECOND;
  }
}
