/** The rollup's tables as mutable state, and the procedures that work on them. */
module RollupDb {
  import opened Clock
  import opened Options
  import opened HeldReadings
  import opened MinuteRefresh
  import opened RollupState
  import opened MinuteJob
  import opened JobRuns

  class Database {
    var samples: map<EntityId, Samples>
    var rows: map<EntityId, Minutes>
    var config: map<EntityId, Config>
    var dirty: seq<Dirty>
    var late: Option<int>
    var now: int
    var jobEnd: int

    ghost function State(): Rollup
      reads this
    {
      Rollup(samples, rows, config, dirty, late, now, jobEnd)
    }

    constructor (now: int)
      ensures State() == Initial(now)
    {
      samples, rows, config, dirty, late := map[], map[], map[], [], Option.None;
      this.now, jobEnd := now, Trunc(now);
    }

    /**
     states_minute_refresh: the number of rows written. Every minute of the truncated, capped range
     is then at its reference value, and no minute of any entity that was stops being so.
     */
    method RefreshMinutes(e: EntityId, from: int, to: int) returns (written: nat)
      modifies `rows
      ensures State() == Refresh(old(State()), e, from, to)
      ensures forall m :: e in config && IsMinute(m) && Trunc(from) <= m < Upper(to, now) ==> Fresh(State(), e, m)
      ensures forall x, m :: IsMinute(m) && Fresh(old(State()), x, m) ==> Fresh(State(), x, m)
      ensures written == if e in config && Trunc(from) < Upper(to, now)
                         then |Computed(SamplesOf(old(State()), e), config[e].holds, Trunc(from), Upper(to, now))|
                         else 0
    {
      RefreshIsFresh(State(), e, from, to);
      var lower, upper := Trunc(from), Upper(to, now);
      if e !in config {
        return 0;
      }
      var kept := if e in rows then rows[e] else map[];
      if upper <= lower {
        rows := rows[e := kept];
        return 0;
      }
      var s := if e in samples then samples[e] else map[];
      var computed := Computed(s, config[e].holds, lower, upper);
      kept := map m | m in kept && !(lower <= m < upper) :: kept[m];
      rows := rows[e := kept + computed];
      return |computed|;
    }

    /** The tail unit of one entity; FOUND may be false when a sync removed it. */
    method TailUnit(e: EntityId, lookback: int)
      modifies `rows, `config, `dirty
      ensures State() == Tail(old(State()), e, lookback)
      ensures lookback >= 0 && old(RollupInvariant(State(), lookback) && Allowed(State(), DoTail(e), lookback)) ==>
        RollupInvariant(State(), lookback)
    {
      hide Refreshed, RollupInvariant, Allowed, Fresh;
      if lookback >= 0 && RollupInvariant(State(), lookback) && Allowed(State(), DoTail(e), lookback) {
        TailKeeps(State(), e, lookback);
      }
      if e in config {
        var frontier := if config[e].filled.Some? then config[e].filled.value else jobEnd;
        var from := frontier - lookback;
        if from < jobEnd - DAY {
          dirty := dirty + [Dirty(e, from, jobEnd - DAY)];
          from := jobEnd - DAY;
        }
        var _ := RefreshMinutes(e, from, jobEnd);
        config := config[e := config[e].(filled := Some(jobEnd))];
      }
    }

    /** The job's first loop: the tail of every configured entity. */
    method TailPass(ids: seq<EntityId>, lookback: int)
      modifies `rows, `config, `dirty
      ensures State() == Tails(old(State()), ids, lookback)
    {
      var i := 0;
      assert ids[..0] == [];
      while i < |ids|
        invariant i <= |ids|
        invariant State() == Tails(old(State()), ids[..i], lookback)
      {
        hide Tail;
        TailsConcat(old(State()), ids[..i], ids[i], lookback);
        TailUnit(ids[i], lookback);
        assert ids[..i + 1] == ids[..i] + [ids[i]];
        i := i + 1;
      }
      assert ids[..i] == ids;
    }

    /**
     One unit of dirty work: the newest day of the newest range is at its reference value and off
     the queue, nothing else is, and whatever the rollup had right stays right.
     */
    method WorkUnit(ghost lookback: int)
      requires dirty != []
      modifies `rows, `dirty
      ensures State() == DirtyUnit(old(State()))
      ensures old(RollupInvariant(State(), lookback)) ==> RollupInvariant(State(), lookback)
      ensures Owed(old(dirty)) == Owed(dirty) + multiset{NextPiece(old(State()))}
      ensures var (e, p) := NextPiece(old(State()));
              forall m :: e in config && IsMinute(m) && Trunc(p.from) <= m < Upper(p.to, now) ==> Fresh(State(), e, m)
    {
      hide Refreshed, RollupInvariant, Fresh, Owed, Work;
      UnitOwesOneLess(State());
      ghost var (x, p) := NextPiece(State());
      forall m | x in config && IsMinute(m) && Trunc(p.from) <= m < Upper(p.to, now)
        ensures Fresh(DirtyUnit(State()), x, m)
      {
        UnitFreshens(State(), x, m);
      }
      if RollupInvariant(State(), lookback) { DirtyUnitKeeps(State(), lookback); }
      var i := Newest(dirty);
      var d := dirty[i];
      var from := UnitFrom(d);
      var _ := RefreshMinutes(d.entity, from, d.to);
      if from <= d.from {
        dirty := dirty[..i] + dirty[i + 1..];
      } else {
        dirty := dirty[i := d.(to := from)];
      }
    }

    /**
     The job's second loop: units of dirty work until the queue is empty or the budget is
     spent. At least one unit is done when there is work.
     */
    method DrainDirty(clock: nat -> int, started: int, budget: int) returns (units: nat)
      modifies `rows, `dirty, `now
      ensures units <= Work(old(dirty))
      ensures Done(old(State()), clock, units) + Owed(dirty) == Owed(old(dirty))
      ensures State() == Units(old(State()), clock, units)
      ensures dirty == [] || (units > 0 && now - started > budget)
      ensures forall k :: 0 < k < units ==> Units(old(State()), clock, k).now - started <= budget
    {
      hide DirtyUnit, Work, Refreshed, Units, Done, Owed, Fresh, RollupInvariant, NextPiece;
      units := 0;
      assert State() == Units(State(), clock, 0) by { NoUnits(State(), clock); }
      while dirty != []
        invariant State() == Units(old(State()), clock, units)
        invariant Work(dirty) == Work(old(dirty)) - units
        invariant forall k :: 0 < k <= units ==> Units(old(State()), clock, k).now - started <= budget
        decreases Work(dirty)
      {
        UnitWorks(State());
        NextUnit(old(State()), clock, units);
        WorkUnit(0);
        now := Max(now, clock(units));
        units := units + 1;
        if now - started > budget {
          break;
        }
      }
      UnitsRefreshThePieces(old(State()), clock, units);
    }

    /**
     CALL states_minute_job: the tails of all configured entities, then dirty work within the
     budget. The rollup's invariant is kept: every settled minute is stored right or queued. Every
     frontier is at the run's start, every closed minute of each tail is stored at its reference
     value, and what the units took off the queue is what they refreshed.
     */
    method RunJob(ids: seq<EntityId>, lookback: int, budget: int, clock: nat -> int) returns (units: nat)
      requires forall e :: e in ids <==> e in config
      requires lookback >= 0 && RollupInvariant(State(), lookback)
      requires FirstTailInTime(BeginJob(State()), lookback)
      modifies this
      ensures RollupInvariant(State(), lookback)
      ensures forall e :: e in old(config) ==> e in config && config[e].filled == Some(Trunc(old(now)))
      ensures forall e, m ::
                (e in old(config) && IsMinute(m)
                 && Trunc(TailFrom(BeginJob(old(State())), e, lookback)) <= m < Trunc(old(now))) ==>
                  Fresh(State(), e, m)
      ensures var tailed := Tails(BeginJob(old(State())), ids, lookback);
              && State() == Units(tailed, clock, units) && units <= Work(tailed.dirty)
              && Done(tailed, clock, units) + Owed(dirty) == Owed(tailed.dirty)
      ensures dirty == [] || now - old(now) > budget
    {
      hide RollupInvariant, FirstTailInTime, Fresh, Units, Tails, Done, Owed, TailFrom, Work;
      var started := now;
      jobEnd := Trunc(now);
      TailPass(ids, lookback);
      units := DrainDirty(clock, started, budget);
      JobKeeps(old(State()), ids, clock, units, lookback);
      forall e, m | e in old(config)
        ensures e in config && config[e].filled == Some(Trunc(old(now)))
        ensures IsMinute(m) && Trunc(TailFrom(BeginJob(old(State())), e, lookback)) <= m < Trunc(old(now)) ==>
                  Fresh(State(), e, m)
      {
        JobFreshens(old(State()), ids, clock, units, lookback, e, m);
      }
    }

    /** schema.sync_minute_rollup: removals first, then new and changed entities. */
    method SyncMinuteRollup(current: seq<EntityId>, order: seq<EntityId>, wanted: map<EntityId, Holds>,
                            ghost lookback: int)
      requires forall e :: e in current <==> e in config
      requires forall e :: e in order <==> e in wanted
      modifies `rows, `config, `dirty
      ensures State() == ApplyAll(old(State()), SyncSteps(old(config), current, order, wanted), 0)
      ensures forall e :: e in config <==> e in wanted
      ensures old(RollupInvariant(State(), lookback)) ==> RollupInvariant(State(), lookback)
    {
      hide RollupInvariant, Untouched, SyncSteps, Reset, Remove;
      var before := config;
      if RollupInvariant(State(), lookback) { SyncKeeps(State(), current, order, wanted, lookback); }
      forall e ensures e in ApplyAll(State(), SyncSteps(before, current, order, wanted), 0).config <==> e in wanted {
        SyncMatches(State(), current, order, wanted, e);
      }
      ApplySync(State(), current, order, wanted);
      RemoveMissing(current, wanted);
      ResetChanged(before, order, wanted);
    }

    method RemoveEntity(e: EntityId)
      modifies `rows, `config, `dirty
      ensures State() == Remove(old(State()), e)
    {
      rows := rows - {e};
      config := config - {e};
      dirty := Without(dirty, e);
    }

    method ResetEntity(e: EntityId, holds: Holds)
      modifies `rows, `config, `dirty
      ensures State() == Reset(old(State()), e, holds)
    {
      var s := if e in samples then samples[e] else map[];
      rows := rows[e := map[]];
      config := config[e := Config(holds, Option.None, now)];
      dirty := Without(dirty, e);
      if s != map[] {
        dirty := dirty + [Dirty(e, Least(s.Keys), now)];
      }
    }

    method RemoveMissing(current: seq<EntityId>, wanted: map<EntityId, Holds>)
      modifies `rows, `config, `dirty
      ensures State() == ApplyAll(old(State()), RemoveSteps(current, wanted), 0)
    {
      var i := 0;
      assert current[0..] == current;
      while i < |current|
        invariant i <= |current|
        invariant ApplyAll(old(State()), RemoveSteps(current, wanted), 0)
               == ApplyAll(State(), RemoveSteps(current[i..], wanted), 0)
      {
        hide Remove;
        ghost var rest := RemoveSteps(current[i + 1..], wanted);
        assert current[i..][1..] == current[i + 1..];
        if current[i] !in wanted {
          OneStep(State(), DoRemove(current[i]), rest);
          RemoveEntity(current[i]);
        } else {
          assert RemoveSteps(current[i..], wanted) == rest;
        }
        i := i + 1;
      }
    }

    method ResetChanged(before: map<EntityId, Config>, order: seq<EntityId>, wanted: map<EntityId, Holds>)
      requires forall e :: e in order ==> e in wanted
      modifies `rows, `config, `dirty
      ensures State() == ApplyAll(old(State()), ResetSteps(before, order, wanted), 0)
    {
      var i := 0;
      assert order[0..] == order;
      while i < |order|
        invariant i <= |order|
        invariant ApplyAll(old(State()), ResetSteps(before, order, wanted), 0)
               == ApplyAll(State(), ResetSteps(before, order[i..], wanted), 0)
      {
        hide Reset;
        ghost var rest := ResetSteps(before, order[i + 1..], wanted);
        assert order[i..][1..] == order[i + 1..];
        if !Unchanged(before, order[i], wanted[order[i]]) {
          OneStep(State(), DoReset(order[i], wanted[order[i]]), rest);
          ResetEntity(order[i], wanted[order[i]]);
        } else {
          assert ResetSteps(before, order[i..], wanted) == rest;
        }
        i := i + 1;
      }
    }

    /** _mark_rollup_dirty with the cycle's earliest late row, and its reset. */
    method MarkRollupDirty(order: seq<EntityId>, ghost lookback: int)
      requires lookback >= 0 && RollupInvariant(State(), lookback) && forall e :: e in config ==> e in order
      modifies `dirty, `late
      ensures State() == BackfillDone(old(State()), order)
      ensures RollupInvariant(State(), lookback) && late == Option.None
    {
      hide RollupInvariant;
      BackfillDoneKeeps(State(), order, lookback);
      if late.None? {
        return;
      }
      var from, i, found := late.value, |order|, [];
      while i > 0
        invariant 0 <= i <= |order|
        invariant found == MarkRows(State(), order[i..], from, Option.None)
      {
        i := i - 1;
        var e := order[i];
        assert order[i..][1..] == order[i + 1..];
        if e in config && config[e].filled.Some? && from < config[e].filled.value {
          found := [Dirty(e, from, now)] + found;
        }
      }
      assert order[i..] == order;
      MarkRowsFrame(State(), order, from);
      dirty := dirty + found;
      late := Option.None;
    }
  }

  lemma MarkRowsFrame(r: Rollup, order: seq<EntityId>, from: int)
    ensures MarkRows(r, order, from, Option.None) == MarkRows(r.(late := Option.None), order, from, Option.None)
  {
  }

  lemma RefreshIsFresh(r: Rollup, e: EntityId, from: int, to: int)
    ensures var r' := Refresh(r, e, from, to);
            && (forall m :: e in r.config && IsMinute(m) && Trunc(from) <= m < Upper(to, r.now) ==> Fresh(r', e, m))
            && (forall x, m :: IsMinute(m) && Fresh(r, x, m) ==> Fresh(r', x, m))
  {
    hide Trunc, Upper, Refresh, RowIs, Reference;
    forall x, m | IsMinute(m) && x in r.config
      ensures x == e && Trunc(from) <= m < Upper(to, r.now) ==> Fresh(Refresh(r, e, from, to), x, m)
      ensures Fresh(r, x, m) ==> Fresh(Refresh(r, e, from, to), x, m)
    {
      RefreshFreshens(r, e, from, to, x, m);
    }
  }

  lemma ApplySync(r: Rollup, current: seq<EntityId>, order: seq<EntityId>, wanted: map<EntityId, Holds>)
    requires forall e :: e in order ==> e in wanted
    ensures ApplyAll(r, SyncSteps(r.config, current, order, wanted), 0)
            == ApplyAll(ApplyAll(r, RemoveSteps(current, wanted), 0), ResetSteps(r.config, order, wanted), 0)
  {
    ApplyAllConcat(r, RemoveSteps(current, wanted), ResetSteps(r.config, order, wanted), 0);
  }
}
