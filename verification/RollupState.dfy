/**
 The rollup as a state machine: samples arriving, the job's units of work (each one
 committed transaction), configuration syncs and mark-dirty, in any order.

 RollupInvariant keeps: every settled minute of a configured entity is stored at its
 reference value or lies in a queued dirty range.
 */
module RollupState {
  import opened Clock
  import opened Options
  import opened HeldReadings
  import opened MinuteRefresh

  type EntityId = string

  /**
   A states_minute_entities row. `syncedAt` is a history variable: the clock of the sync
   that wrote the row and queued the entity's history.
   */
  datatype Config = Config(holds: Holds, filled: Option<int>, syncedAt: int)

  /** A states_minute_dirty row. The identity column is its position in the queue. */
  datatype Dirty = Dirty(entity: EntityId, from: int, to: int)

  /**
   `late` is the states worker's _backfill_rollup_from: the earliest row written by the
   running backfill cycle. `jobEnd` is v_end of the job run in progress.
   */
  datatype Rollup = Rollup(
    samples: map<EntityId, Samples>,
    rows: map<EntityId, Minutes>,
    config: map<EntityId, Config>,
    dirty: seq<Dirty>,
    late: Option<int>,
    now: int,
    jobEnd: int)

  function SamplesOf(r: Rollup, e: EntityId): Samples { if e in r.samples then r.samples[e] else map[] }

  function RowsOf(r: Rollup, e: EntityId): Minutes { if e in r.rows then r.rows[e] else map[] }

  // ---- Steps ----------------------------------------------------------------------

  function Tick(r: Rollup, now: int): Rollup { r.(now := Max(r.now, now)) }

  /** A row of `states` is inserted, or overwritten at its last_updated. */
  function Write(r: Rollup, e: EntityId, t: int, value: Option<real>): Rollup {
    r.(samples := r.samples[e := SamplesOf(r, e)[t := value]])
  }

  /** A backfilled row: _note_rollup_rows remembers the earliest of a configured entity. */
  function WriteBackfilled(r: Rollup, e: EntityId, t: int, value: Option<real>): Rollup {
    var late := if e !in r.config then r.late
                else if r.late.None? then Some(t) else Some(Min(r.late.value, t));
    Write(r, e, t, value).(late := late)
  }

  /** states_minute_refresh; returns 0 rows when the entity is not configured. */
  function Refresh(r: Rollup, e: EntityId, from: int, to: int): Rollup {
    if e !in r.config then r
    else r.(rows := r.rows[e := Refreshed(RowsOf(r, e), SamplesOf(r, e), r.config[e].holds, from, to, r.now)])
  }

  function BeginJob(r: Rollup): Rollup { r.(jobEnd := Trunc(r.now)) }

  /** Where the tail starts: the lookback before the frontier. */
  function Front(r: Rollup, e: EntityId, lookback: int): int
    requires e in r.config
  {
    (if r.config[e].filled.Some? then r.config[e].filled.value else r.jobEnd) - lookback
  }

  /** The tail unit of one entity. */
  function Tail(r: Rollup, e: EntityId, lookback: int): Rollup {
    if e !in r.config then r else
      var front := Front(r, e, lookback);
      var dirty := if front < r.jobEnd - DAY then r.dirty + [Dirty(e, front, r.jobEnd - DAY)] else r.dirty;
      var r1 := Refresh(r.(dirty := dirty), e, Max(front, r.jobEnd - DAY), r.jobEnd);
      r1.(config := r1.config[e := r1.config[e].(filled := Some(r.jobEnd))])
  }

  /** ORDER BY to_ts DESC, id LIMIT 1 */
  function Newest(q: seq<Dirty>): (i: nat)
    requires q != []
    ensures i < |q|
    ensures forall j :: 0 <= j < |q| ==> q[j].to <= q[i].to
    ensures forall j :: 0 <= j < i ==> q[j].to < q[i].to
  {
    if |q| == 1 then 0 else
      var i := Newest(q[..|q| - 1]);
      if q[|q| - 1].to > q[i].to then |q| - 1 else i
  }

  function UnitFrom(d: Dirty): int { Max(d.from, d.to - DAY) }

  /** One unit of dirty work: the newest day of the newest range. */
  function DirtyUnit(r: Rollup): Rollup {
    if r.dirty == [] then r else
      var i := Newest(r.dirty);
      var d := r.dirty[i];
      var r1 := Refresh(r, d.entity, UnitFrom(d), d.to);
      r1.(dirty := if UnitFrom(d) <= d.from then r.dirty[..i] + r.dirty[i + 1..]
                   else r.dirty[i := d.(to := UnitFrom(d))])
  }

  /** DELETE FROM states_minute_dirty WHERE entity_id = e */
  function Without(q: seq<Dirty>, e: EntityId): (q': seq<Dirty>)
    ensures forall d :: d in q' <==> d in q && d.entity != e
  {
    if q == [] then [] else (if q[0].entity == e then [] else [q[0]]) + Without(q[1..], e)
  }

  /** The sync's reset of a new or changed entity: rows gone, history queued, no frontier. */
  function Reset(r: Rollup, e: EntityId, holds: Holds): Rollup {
    var s := SamplesOf(r, e);
    var history := if s == map[] then [] else [Dirty(e, Least(s.Keys), r.now)];
    r.(rows := r.rows[e := map[]],
       config := r.config[e := Config(holds, None, r.now)],
       dirty := Without(r.dirty, e) + history)
  }

  /** The sync's removal of an entity; its dirty rows go with it by ON DELETE CASCADE. */
  function Remove(r: Rollup, e: EntityId): Rollup {
    r.(rows := r.rows - {e}, config := r.config - {e}, dirty := Without(r.dirty, e))
  }

  predicate BehindFrontier(r: Rollup, e: EntityId, from: int) {
    e in r.config && r.config[e].filled.Some? && from < r.config[e].filled.value
  }

  /** The ranges mark-dirty inserts, in the order the entities are listed. */
  function MarkRows(r: Rollup, order: seq<EntityId>, from: int, to: Option<int>): (q: seq<Dirty>)
    ensures forall e :: e in order && BehindFrontier(r, e, from) ==>
              exists d :: d in q && d.entity == e && d.from == from
                          && d.to == (if to.None? then r.now
                                      else Min(r.now, to.value + LongestHold(r.config[e].holds)))
    ensures forall d :: d in q ==> d.entity in r.config && d.to <= r.now
  {
    if order == [] then [] else
      var e := order[0];
      var rest := MarkRows(r, order[1..], from, to);
      if !BehindFrontier(r, e, from) then rest
      else [Dirty(e, from, if to.None? then r.now
                           else Min(r.now, to.value + LongestHold(r.config[e].holds)))] + rest
  }

  function MarkDirty(r: Rollup, order: seq<EntityId>, from: int, to: Option<int>): Rollup {
    r.(dirty := r.dirty + MarkRows(r, order, from, to))
  }

  /** BACKFILL_DONE: the cycle's earliest late row is marked through now, and forgotten. */
  function BackfillDone(r: Rollup, order: seq<EntityId>): Rollup {
    if r.late.None? then r else MarkDirty(r, order, r.late.value, None).(late := None)
  }

  // ---- The invariant --------------------------------------------------------------

  ghost predicate Queued(r: Rollup, e: EntityId, m: int) {
    exists d :: d in r.dirty && d.entity == e && Trunc(d.from) <= m < Trunc(d.to)
  }

  /**
   The instant before which minutes are settled: the lookback before the frontier, or, while
   there is no frontier, the end of the history queued by the sync.
   */
  function Horizon(r: Rollup, e: EntityId, lookback: int): int
    requires e in r.config
  {
    if r.config[e].filled.Some? then r.config[e].filled.value - lookback else r.config[e].syncedAt
  }

  /** A running backfill wrote at or before this minute; its mark-dirty is still to come. */
  predicate AwaitsMark(r: Rollup, e: EntityId, m: int)
    requires e in r.config
  {
    r.config[e].filled.Some? && r.late.Some? && m + MINUTE > r.late.value
  }

  ghost function Want(r: Rollup, e: EntityId, m: int): Option<Cell>
    requires e in r.config
  {
    Reference(SamplesOf(r, e), r.config[e].holds, m)
  }

  ghost predicate Accounted(r: Rollup, e: EntityId, m: int)
    requires e in r.config
  {
    RowIs(RowsOf(r, e), m, Want(r, e, m)) || Queued(r, e, m) || AwaitsMark(r, e, m)
  }

  ghost predicate Settled(r: Rollup, e: EntityId, m: int, lookback: int) {
    e in r.config && IsMinute(m) && m + MINUTE <= Horizon(r, e, lookback)
  }

  ghost predicate Clocks(r: Rollup) {
    && IsMinute(r.jobEnd) && r.jobEnd <= r.now
    && (forall e :: e in r.config ==>
          && r.config[e].syncedAt <= r.now
          && (r.config[e].filled.Some? ==>
                IsMinute(r.config[e].filled.value) && r.config[e].filled.value <= r.jobEnd))
    && (forall d :: d in r.dirty ==> d.entity in r.config && d.to <= r.now)
  }

  ghost predicate RollupInvariant(r: Rollup, lookback: int) {
    && Clocks(r)
    && forall e, m :: Settled(r, e, m, lookback) ==> Accounted(r, e, m)
  }

  /**
   When a row may be written without a mark-dirty of its own. With a frontier: no older than
   the lookback. Without one: not older than the queued history, whose newest end is still
   queued.
   */
  predicate InTime(r: Rollup, e: EntityId, t: int, lookback: int) {
    e in r.config ==>
      if r.config[e].filled.Some? then t >= r.config[e].filled.value - lookback else NewerThanQueue(r, e, t)
  }

  predicate NewerThanQueue(r: Rollup, e: EntityId, t: int)
    requires e in r.config
  {
    t >= r.config[e].syncedAt
    || exists d :: d in r.dirty && d.entity == e && d.from <= t && r.config[e].syncedAt <= d.to
  }

  datatype Step =
    | DoTick(now: int)
    | DoWrite(e: EntityId, t: int, value: Option<real>)
    | DoWriteBackfilled(e: EntityId, t: int, value: Option<real>)
    | DoBackfillDone(order: seq<EntityId>)
    | DoMarkDirty(order: seq<EntityId>, from: int, to: Option<int>)
    | DoBeginJob
    | DoTail(e: EntityId)
    | DoDirtyUnit
    | DoReset(e: EntityId, holds: Holds)
    | DoRemove(e: EntityId)

  function Apply(r: Rollup, s: Step, lookback: int): Rollup {
    match s
    case DoTick(now) => Tick(r, now)
    case DoWrite(e, t, value) => Write(r, e, t, value)
    case DoWriteBackfilled(e, t, value) => WriteBackfilled(r, e, t, value)
    case DoBackfillDone(order) => BackfillDone(r, order)
    case DoMarkDirty(order, from, to) => MarkDirty(r, order, from, to)
    case DoBeginJob => BeginJob(r)
    case DoTail(e) => Tail(r, e, lookback)
    case DoDirtyUnit => DirtyUnit(r)
    case DoReset(e, holds) => Reset(r, e, holds)
    case DoRemove(e) => Remove(r, e)
  }

  /** The assumptions under which the rollup is promised to be right. */
  predicate Allowed(r: Rollup, s: Step, lookback: int) {
    match s
    case DoWrite(e, t, _) => InTime(r, e, t, lookback)
    case DoWriteBackfilled(e, t, _) =>
      e in r.config && r.config[e].filled.None? ==> NewerThanQueue(r, e, t)
    case DoBackfillDone(order) => forall e :: e in r.config ==> e in order
    case DoTail(e) =>
      e in r.config && r.config[e].filled.None? ==> r.jobEnd - lookback <= r.config[e].syncedAt
    case _ => true
  }

  predicate AllAllowed(r: Rollup, steps: seq<Step>, lookback: int)
    decreases |steps|
  {
    steps == [] || (Allowed(r, steps[0], lookback) && AllAllowed(Apply(r, steps[0], lookback), steps[1..], lookback))
  }

  function ApplyAll(r: Rollup, steps: seq<Step>, lookback: int): Rollup
    decreases |steps|
  {
    if steps == [] then r else ApplyAll(Apply(r, steps[0], lookback), steps[1..], lookback)
  }

  // ---- Each step keeps it ----------------------------------------------------------

  /** A row at t changes nothing in a minute that ends by t. */
  lemma WriteIsLocal(s: Samples, h: Holds, t: int, value: Option<real>, m: int)
    requires m + MINUTE <= t
    ensures Reference(s[t := value], h, m) == Reference(s, h, m)
  {
    AreaDependsOnReadings(s, s[t := value], h, m, m + MINUTE);
  }

  lemma QueueTruncs(from: int, t: int, m: int, to: int)
    requires IsMinute(m) && from <= t < m + MINUTE <= to
    ensures Trunc(from) <= m < Trunc(to)
  {
    TruncOrder(m, from);
    TruncOrder(m + MINUTE, to);
    MinuteStep(m, m + MINUTE);
  }

  lemma WriteKeeps(r: Rollup, e: EntityId, t: int, value: Option<real>, lookback: int)
    requires RollupInvariant(r, lookback) && InTime(r, e, t, lookback)
    ensures RollupInvariant(Write(r, e, t, value), lookback)
  {
    hide Reference, RowIs, Trunc;
    var r' := Write(r, e, t, value);
    forall x, m | Settled(r', x, m, lookback) ensures Accounted(r', x, m) {
      assert Settled(r, x, m, lookback) && Accounted(r, x, m);
      if x == e {
        SettledWrite(r, e, t, value, lookback, m);
      }
    }
  }

  lemma SettledWrite(r: Rollup, e: EntityId, t: int, value: Option<real>, lookback: int, m: int)
    requires Settled(r, e, m, lookback) && Accounted(r, e, m) && InTime(r, e, t, lookback)
    ensures Accounted(Write(r, e, t, value), e, m)
  {
    hide Reference, RowIs, Trunc;
    var r' := Write(r, e, t, value);
    assert r'.dirty == r.dirty;
    if m + MINUTE <= t {
      WriteIsLocal(SamplesOf(r, e), r.config[e].holds, t, value, m);
    } else {
      var d :| d in r.dirty && d.entity == e && d.from <= t && r.config[e].syncedAt <= d.to;
      QueueTruncs(d.from, t, m, d.to);
      assert Queued(r', e, m);
    }
  }

  lemma WriteBackfilledKeeps(r: Rollup, e: EntityId, t: int, value: Option<real>, lookback: int)
    requires RollupInvariant(r, lookback) && Allowed(r, DoWriteBackfilled(e, t, value), lookback)
    ensures RollupInvariant(WriteBackfilled(r, e, t, value), lookback)
  {
    hide Reference, RowIs, Trunc;
    var r' := WriteBackfilled(r, e, t, value);
    forall x, m | Settled(r', x, m, lookback) ensures Accounted(r', x, m) {
      assert Settled(r, x, m, lookback) && Accounted(r, x, m);
      if x == e {
        if r.config[e].filled.None? {
          SettledWrite(r, e, t, value, lookback, m);
        } else if m + MINUTE <= t {
          WriteIsLocal(SamplesOf(r, e), r.config[e].holds, t, value, m);
        } else {
          assert AwaitsMark(r', e, m);
        }
      }
    }
  }

  /** A refresh puts the minutes of its range at their reference and touches no other row. */
  lemma RefreshEffect(r: Rollup, e: EntityId, from: int, to: int, x: EntityId, m: int)
    requires e in r.config && x in r.config && IsMinute(m)
    ensures var r' := Refresh(r, e, from, to);
            && r' == r.(rows := r'.rows)
            && Want(r', x, m) == Want(r, x, m)
            && (x == e && Trunc(from) <= m < Upper(to, r.now) ==> RowIs(RowsOf(r', x), m, Want(r, x, m)))
            && (RowIs(RowsOf(r, x), m, Want(r, x, m)) ==> RowIs(RowsOf(r', x), m, Want(r, x, m)))
  {
    hide Reference, Refreshed;
    RefreshIsReference(RowsOf(r, e), SamplesOf(r, e), r.config[e].holds, from, to, r.now, m);
  }

  lemma BeforeUpper(m: int, to: int, now: int)
    requires IsMinute(m) && m + MINUTE <= to && m + MINUTE <= now
    ensures m < Upper(to, now)
  {
    MinuteStep(m, m + MINUTE);
    TruncOrder(m + MINUTE, to);
    TruncOrder(m + MINUTE, now);
  }

  /** A minute the tail newly settles is either refreshed or in the range it queues. */
  lemma TailCovers(r: Rollup, e: EntityId, lookback: int, m: int)
    requires e in r.config && IsMinute(m) && r.jobEnd <= r.now
    requires Front(r, e, lookback) < m + MINUTE <= r.jobEnd
    ensures var r' := Tail(r, e, lookback);
            RowIs(RowsOf(r', e), m, Want(r', e, m)) || Queued(r', e, m)
  {
    hide Reference, RowIs, Refreshed, Trunc, Upper;
    var r' := Tail(r, e, lookback);
    var front := Front(r, e, lookback);
    var from := Max(front, r.jobEnd - DAY);
    var dirty := if front < r.jobEnd - DAY then r.dirty + [Dirty(e, front, r.jobEnd - DAY)] else r.dirty;
    TruncOrder(m, front);
    if m >= Trunc(from) {
      BeforeUpper(m, r.jobEnd, r.now);
      RefreshEffect(r.(dirty := dirty), e, from, r.jobEnd, e, m);
    } else {
      assert Dirty(e, front, from) in r'.dirty;
    }
  }

  lemma TailKeeps(r: Rollup, e: EntityId, lookback: int)
    requires RollupInvariant(r, lookback) && Allowed(r, DoTail(e), lookback) && lookback >= 0
    ensures RollupInvariant(Tail(r, e, lookback), lookback)
  {
    hide Reference, RowIs, Refreshed, Trunc;
    if e in r.config {
      var r' := Tail(r, e, lookback);
      var front := Front(r, e, lookback);
      var from := Max(front, r.jobEnd - DAY);
      var dirty := if front < r.jobEnd - DAY then r.dirty + [Dirty(e, front, r.jobEnd - DAY)] else r.dirty;
      var r0 := r.(dirty := dirty);
      forall x, m | Settled(r', x, m, lookback) ensures Accounted(r', x, m) {
        RefreshEffect(r0, e, from, r.jobEnd, x, m);
        if Settled(r, x, m, lookback) {
          assert Accounted(r, x, m);
          if Queued(r, x, m) {
            var d :| d in r.dirty && d.entity == x && Trunc(d.from) <= m < Trunc(d.to);
            assert d in r'.dirty;
          }
        } else {
          TailCovers(r, e, lookback, m);
        }
      }
    }
  }

  lemma DirtyUnitKeeps(r: Rollup, lookback: int)
    requires RollupInvariant(r, lookback)
    ensures RollupInvariant(DirtyUnit(r), lookback)
  {
    hide Reference, RowIs, Refreshed, Trunc, Upper;
    if r.dirty != [] {
      var r', i := DirtyUnit(r), Newest(r.dirty);
      var d := r.dirty[i];
      assert d in r.dirty;
      forall x, m | Settled(r', x, m, lookback) ensures Accounted(r', x, m) {
        assert Settled(r, x, m, lookback) && Accounted(r, x, m);
        RefreshEffect(r, d.entity, UnitFrom(d), d.to, x, m);
        if Queued(r, x, m) {
          UnitLeaves(r, x, m);
        }
      }
    }
  }

  /** A queued minute is either refreshed by the unit or still queued after it. */
  lemma UnitLeaves(r: Rollup, e: EntityId, m: int)
    requires Clocks(r) && r.dirty != [] && IsMinute(m) && e in r.config && Queued(r, e, m)
    ensures var r' := DirtyUnit(r);
            RowIs(RowsOf(r', e), m, Want(r', e, m)) || Queued(r', e, m)
  {
    hide Want, RowIs, Refreshed, Trunc;
    var r', i := DirtyUnit(r), Newest(r.dirty);
    var d := r.dirty[i];
    var q :| q in r.dirty && q.entity == e && Trunc(q.from) <= m < Trunc(q.to);
    var j :| 0 <= j < |r.dirty| && r.dirty[j] == q;
    if j != i {
      var j' := if UnitFrom(d) <= d.from && j > i then j - 1 else j;
      assert r'.dirty[j'] == q;
      assert q in r'.dirty;
    } else if m < Trunc(UnitFrom(d)) {
      assert r'.dirty[i] == d.(to := UnitFrom(d));
      assert r'.dirty[i] in r'.dirty;
    } else {
      UnitRefreshes(r, e, m);
    }
  }

  lemma UnitRefreshes(r: Rollup, e: EntityId, m: int)
    requires Clocks(r) && r.dirty != [] && IsMinute(m) && e in r.config
    requires var d := r.dirty[Newest(r.dirty)]; d.entity == e && Trunc(UnitFrom(d)) <= m < Trunc(d.to)
    ensures RowIs(RowsOf(DirtyUnit(r), e), m, Want(DirtyUnit(r), e, m))
  {
    hide Reference, RowIs, Refreshed;
    var d := r.dirty[Newest(r.dirty)];
    assert d in r.dirty;
    MinuteStep(m, Trunc(d.to));
    BeforeUpper(m, d.to, r.now);
    RefreshEffect(r, e, UnitFrom(d), d.to, e, m);
  }

  /** Before an entity's first row of `states` there is nothing to store. */
  lemma NothingBeforeHistory(s: Samples, h: Holds, m: int)
    requires s == map[] || m + MINUTE <= Least(s.Keys)
    ensures Reference(s, h, m) == Option.None
  {
    hide Area;
    AreaNothingHeld(s, h, m, m + MINUTE);
  }

  lemma ResetKeeps(r: Rollup, e: EntityId, holds: Holds, lookback: int)
    requires RollupInvariant(r, lookback)
    ensures RollupInvariant(Reset(r, e, holds), lookback)
  {
    hide Reference, Trunc;
    var r', s := Reset(r, e, holds), SamplesOf(r, e);
    forall x, m | Settled(r', x, m, lookback) ensures Accounted(r', x, m) {
      if x != e {
        assert Settled(r, x, m, lookback) && Accounted(r, x, m);
        if Queued(r, x, m) {
          var d :| d in r.dirty && d.entity == x && Trunc(d.from) <= m < Trunc(d.to);
          assert d in r'.dirty;
        }
      } else if s == map[] || m + MINUTE <= Least(s.Keys) {
        NothingBeforeHistory(s, holds, m);
      } else {
        QueueTruncs(Least(s.Keys), Least(s.Keys), m, r.now);
        assert Dirty(e, Least(s.Keys), r.now) in r'.dirty;
      }
    }
  }

  lemma RemoveKeeps(r: Rollup, e: EntityId, lookback: int)
    requires RollupInvariant(r, lookback)
    ensures RollupInvariant(Remove(r, e), lookback)
  {
    hide Reference, RowIs, Trunc;
    var r' := Remove(r, e);
    forall x, m | Settled(r', x, m, lookback) ensures Accounted(r', x, m) {
      assert Settled(r, x, m, lookback) && Accounted(r, x, m);
      if Queued(r, x, m) {
        var d :| d in r.dirty && d.entity == x && Trunc(d.from) <= m < Trunc(d.to);
        assert d in r'.dirty;
      }
    }
  }

  lemma MarkDirtyKeeps(r: Rollup, order: seq<EntityId>, from: int, to: Option<int>, lookback: int)
    requires RollupInvariant(r, lookback)
    ensures RollupInvariant(MarkDirty(r, order, from, to), lookback)
  {
    hide Reference, RowIs, Trunc, MarkRows;
    var r' := MarkDirty(r, order, from, to);
    forall x, m | Settled(r', x, m, lookback) ensures Accounted(r', x, m) {
      assert Settled(r, x, m, lookback) && Accounted(r, x, m);
      if Queued(r, x, m) {
        var d :| d in r.dirty && d.entity == x && Trunc(d.from) <= m < Trunc(d.to);
        assert d in r'.dirty;
      }
    }
  }

  /** Marking through now queues every settled minute the late rows can have changed. */
  lemma BackfillDoneKeeps(r: Rollup, order: seq<EntityId>, lookback: int)
    requires RollupInvariant(r, lookback) && lookback >= 0
    requires forall e :: e in r.config ==> e in order
    ensures RollupInvariant(BackfillDone(r, order), lookback)
  {
    hide Reference, RowIs, Trunc, MarkRows;
    if r.late.Some? {
      var from, r' := r.late.value, BackfillDone(r, order);
      var r1 := MarkDirty(r, order, from, None);
      MarkDirtyKeeps(r, order, from, None, lookback);
      forall x, m | Settled(r', x, m, lookback) ensures Accounted(r', x, m) {
        assert Settled(r1, x, m, lookback) && Accounted(r1, x, m);
        if AwaitsMark(r1, x, m) {
          assert BehindFrontier(r, x, from);
          var d :| d in MarkRows(r, order, from, None) && d.entity == x && d.from == from && d.to == r.now;
          assert d in r'.dirty;
          QueueTruncs(from, from, m, r.now);
        }
      }
    }
  }

  lemma StepKeeps(r: Rollup, s: Step, lookback: int)
    requires RollupInvariant(r, lookback) && Allowed(r, s, lookback) && lookback >= 0
    ensures RollupInvariant(Apply(r, s, lookback), lookback)
  {
    hide Reference, RowIs, Trunc, Tail, DirtyUnit, Reset, Remove, MarkDirty, BackfillDone, WriteBackfilled, Write;
    hide RollupInvariant, Tick, BeginJob;
    match s
    case DoWrite(e, t, value) => WriteKeeps(r, e, t, value, lookback);
    case DoWriteBackfilled(e, t, value) => WriteBackfilledKeeps(r, e, t, value, lookback);
    case DoBackfillDone(order) => BackfillDoneKeeps(r, order, lookback);
    case DoMarkDirty(order, from, to) => MarkDirtyKeeps(r, order, from, to, lookback);
    case DoTail(e) => TailKeeps(r, e, lookback);
    case DoDirtyUnit => DirtyUnitKeeps(r, lookback);
    case DoReset(e, holds) => ResetKeeps(r, e, holds, lookback);
    case DoRemove(e) => RemoveKeeps(r, e, lookback);
    case DoTick(now) => ClockKeeps(r, now, lookback);
    case DoBeginJob => ClockKeeps(r, r.now, lookback);
  }

  lemma ClockKeeps(r: Rollup, now: int, lookback: int)
    requires RollupInvariant(r, lookback)
    ensures RollupInvariant(Tick(r, now), lookback) && RollupInvariant(BeginJob(r), lookback)
  {
    hide Settled, Accounted;
    SameRollup(r, Tick(r, now), lookback);
    SameRollup(r, BeginJob(r), lookback);
  }

  lemma SameRollup(r: Rollup, r': Rollup, lookback: int)
    requires RollupInvariant(r, lookback)
    requires r' == r.(now := r'.now, jobEnd := r'.jobEnd) && Clocks(r')
    ensures RollupInvariant(r', lookback)
  {
    hide Reference, RowIs, Trunc;
    forall x, m | Settled(r', x, m, lookback) ensures Accounted(r', x, m) {
      assert Settled(r, x, m, lookback) && Accounted(r, x, m);
    }
  }

  /** An empty installation. */
  function Initial(now: int): Rollup { Rollup(map[], map[], map[], [], Option.None, now, Trunc(now)) }

  lemma {:induction false} RunKeeps(r: Rollup, steps: seq<Step>, lookback: int)
    requires RollupInvariant(r, lookback) && AllAllowed(r, steps, lookback) && lookback >= 0
    ensures RollupInvariant(ApplyAll(r, steps, lookback), lookback)
    decreases |steps|
  {
    hide RollupInvariant, Apply, Allowed;
    if steps != [] {
      StepKeeps(r, steps[0], lookback);
      RunKeeps(Apply(r, steps[0], lookback), steps[1..], lookback);
    }
  }

  /**
   The rollup's promise, over every run: once the dirty queue is empty and no backfill is
   under way, every settled minute of a configured entity is stored exactly at its
   reference value.
   */
  lemma EveryRunIsRight(now: int, steps: seq<Step>, lookback: int, e: EntityId, m: int)
    requires AllAllowed(Initial(now), steps, lookback) && lookback >= 0
    ensures var r := ApplyAll(Initial(now), steps, lookback);
            Settled(r, e, m, lookback) ==> Accounted(r, e, m)
    ensures var r := ApplyAll(Initial(now), steps, lookback);
            Settled(r, e, m, lookback) && r.dirty == [] && r.late.None? ==>
              RowIs(RowsOf(r, e), m, Want(r, e, m))
  {
    hide Apply, Allowed, Reference, RowIs;
    RunKeeps(Initial(now), steps, lookback);
  }
}
