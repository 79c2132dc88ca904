/** A job run and a sync as runs of the rollup's state machine, and what they leave behind. */
module JobRuns {
  import opened Clock
  import opened Options
  import opened HeldReadings
  import opened MinuteRefresh
  import opened RefreshLaws
  import opened RollupState
  import opened MinuteJob

  // ---- Steps ----------------------------------------------------------------------------------

  function TailSteps(ids: seq<EntityId>): seq<Step> {
    if ids == [] then [] else [DoTail(ids[0])] + TailSteps(ids[1..])
  }

  function UnitSteps(clock: nat -> int, n: nat): seq<Step> {
    if n == 0 then [] else UnitSteps(clock, n - 1) + [DoDirtyUnit, DoTick(clock(n - 1))]
  }

  /** CALL states_minute_job, with `n` units of dirty work. */
  function JobSteps(ids: seq<EntityId>, clock: nat -> int, n: nat): seq<Step> {
    [DoBeginJob] + (TailSteps(ids) + UnitSteps(clock, n))
  }

  lemma {:induction false} StepsJoin(r: Rollup, p: seq<Step>, q: seq<Step>, lookback: int)
    ensures ApplyAll(r, p + q, lookback) == ApplyAll(ApplyAll(r, p, lookback), q, lookback)
    ensures AllAllowed(r, p, lookback) && AllAllowed(ApplyAll(r, p, lookback), q, lookback) ==>
      AllAllowed(r, p + q, lookback)
    decreases |p|
  {
    hide Apply, Allowed;
    if p == [] {
      assert p + q == q;
    } else {
      assert (p + q)[0] == p[0] && (p + q)[1..] == p[1..] + q;
      StepsJoin(Apply(r, p[0], lookback), p[1..], q, lookback);
    }
  }

  /** The first tail after a sync comes within the lookback. */
  predicate FirstTailInTime(r: Rollup, lookback: int) {
    forall e :: e in r.config && r.config[e].filled.None? ==> r.jobEnd - lookback <= r.config[e].syncedAt
  }

  lemma TailStaysInTime(r: Rollup, e: EntityId, lookback: int)
    requires FirstTailInTime(r, lookback)
    ensures FirstTailInTime(Tail(r, e, lookback), lookback) && Tail(r, e, lookback).jobEnd == r.jobEnd
  {
    hide Refreshed;
  }

  lemma {:induction false} TailsAreSteps(r: Rollup, ids: seq<EntityId>, lookback: int)
    requires FirstTailInTime(r, lookback)
    ensures ApplyAll(r, TailSteps(ids), lookback) == Tails(r, ids, lookback)
    ensures AllAllowed(r, TailSteps(ids), lookback)
    decreases ids
  {
    hide Tail, FirstTailInTime;
    if ids != [] {
      assert TailSteps(ids)[0] == DoTail(ids[0]) && TailSteps(ids)[1..] == TailSteps(ids[1..]);
      assert Allowed(r, DoTail(ids[0]), lookback) by { TailIsAllowed(r, ids[0], lookback); }
      TailStaysInTime(r, ids[0], lookback);
      TailsAreSteps(Tail(r, ids[0], lookback), ids[1..], lookback);
    }
  }

  lemma TailIsAllowed(r: Rollup, e: EntityId, lookback: int)
    requires FirstTailInTime(r, lookback)
    ensures Allowed(r, DoTail(e), lookback)
  {}

  lemma {:induction false} UnitsAreSteps(r: Rollup, clock: nat -> int, n: nat, lookback: int)
    ensures ApplyAll(r, UnitSteps(clock, n), lookback) == Units(r, clock, n)
    ensures AllAllowed(r, UnitSteps(clock, n), lookback)
  {
    hide DirtyUnit;
    if n > 0 {
      var more := [DoDirtyUnit, DoTick(clock(n - 1))];
      UnitsAreSteps(r, clock, n - 1, lookback);
      StepsJoin(r, UnitSteps(clock, n - 1), more, lookback);
      var u := Units(r, clock, n - 1);
      assert more[1..] == [DoTick(clock(n - 1))] && more[1..][1..] == [];
      assert AllAllowed(DirtyUnit(u), more[1..], lookback) by {
        assert AllAllowed(Apply(DirtyUnit(u), more[1], lookback), [], lookback);
      }
      assert ApplyAll(u, more, lookback) == ApplyAll(DirtyUnit(u), more[1..], lookback);
      assert ApplyAll(DirtyUnit(u), more[1..], lookback) == ApplyAll(Tick(DirtyUnit(u), clock(n - 1)), [], lookback);
    }
  }

  /** A job run is a run of the state machine, and an allowed one if first tails are in time. */
  lemma JobIsARun(r: Rollup, ids: seq<EntityId>, clock: nat -> int, n: nat, lookback: int)
    requires FirstTailInTime(BeginJob(r), lookback)
    ensures ApplyAll(r, JobSteps(ids, clock, n), lookback)
            == Units(Tails(BeginJob(r), ids, lookback), clock, n)
    ensures AllAllowed(r, JobSteps(ids, clock, n), lookback)
  {
    hide Tails, Units, TailSteps, UnitSteps, FirstTailInTime;
    var b := BeginJob(r);
    TailsAreSteps(b, ids, lookback);
    UnitsAreSteps(Tails(b, ids, lookback), clock, n, lookback);
    StepsJoin(b, TailSteps(ids), UnitSteps(clock, n), lookback);
    var steps := JobSteps(ids, clock, n);
    assert steps[0] == DoBeginJob && steps[1..] == TailSteps(ids) + UnitSteps(clock, n);
  }

  /** So a job run keeps the rollup's invariant. */
  lemma JobKeeps(r: Rollup, ids: seq<EntityId>, clock: nat -> int, n: nat, lookback: int)
    requires RollupInvariant(r, lookback) && lookback >= 0 && FirstTailInTime(BeginJob(r), lookback)
    ensures RollupInvariant(Units(Tails(BeginJob(r), ids, lookback), clock, n), lookback)
  {
    hide RollupInvariant, FirstTailInTime, Tails, Units, JobSteps;
    JobIsARun(r, ids, clock, n, lookback);
    RunKeeps(r, JobSteps(ids, clock, n), lookback);
  }

  // ---- Fresh minutes ---------------------------------------------------------------------------

  /** The minute is stored exactly at its reference value. */
  ghost predicate Fresh(r: Rollup, e: EntityId, m: int) {
    e in r.config && RowIs(RowsOf(r, e), m, Want(r, e, m))
  }

  lemma RefreshFreshens(r: Rollup, x: EntityId, from: int, to: int, e: EntityId, m: int)
    requires IsMinute(m) && e in r.config
    ensures Fresh(r, e, m) || (e == x && Trunc(from) <= m < Upper(to, r.now)) ==> Fresh(Refresh(r, x, from, to), e, m)
  {
    hide Reference, Trunc, Upper, RowIs;
    if x in r.config { RefreshEffect(r, x, from, to, e, m); }
  }

  /** Where a tail unit's refresh starts: the lookback before the frontier, but at most a day back. */
  function TailFrom(r: Rollup, e: EntityId, lookback: int): int
    requires e in r.config
  {
    Max(Front(r, e, lookback), r.jobEnd - DAY)
  }

  lemma TailFreshens(r: Rollup, x: EntityId, lookback: int, e: EntityId, m: int)
    requires IsMinute(m) && e in r.config && IsMinute(r.jobEnd) && r.jobEnd <= r.now
    requires Fresh(r, e, m) || (e == x && Trunc(TailFrom(r, e, lookback)) <= m < r.jobEnd)
    ensures Fresh(Tail(r, x, lookback), e, m) && e in Tail(r, x, lookback).config
  {
    hide Reference, RowIs, Refreshed;
    if x in r.config {
      var front := Front(r, x, lookback);
      var dirty := if front < r.jobEnd - DAY then r.dirty + [Dirty(x, front, r.jobEnd - DAY)] else r.dirty;
      TruncOrder(r.jobEnd, r.now);
      TruncOrder(r.jobEnd, r.jobEnd);
      RefreshFreshens(r.(dirty := dirty), x, TailFrom(r, x, lookback), r.jobEnd, e, m);
    }
  }

  lemma TailMovesFrontier(r: Rollup, x: EntityId, lookback: int, e: EntityId)
    requires e in r.config
    ensures var r' := Tail(r, x, lookback);
            && e in r'.config && r'.jobEnd == r.jobEnd && r'.now == r.now
            && r'.config[e] == if e == x then r.config[e].(filled := Some(r.jobEnd)) else r.config[e]
  {
    hide Refreshed;
  }

  /** After the tails of all listed entities, each one's tail is fresh and its frontier has moved. */
  lemma {:induction false} TailsFreshen(r: Rollup, ids: seq<EntityId>, lookback: int, e: EntityId, m: int)
    requires IsMinute(m) && e in r.config && IsMinute(r.jobEnd) && r.jobEnd <= r.now
    requires Fresh(r, e, m) || (e in ids && Trunc(TailFrom(r, e, lookback)) <= m < r.jobEnd)
    ensures Fresh(Tails(r, ids, lookback), e, m)
    decreases ids
  {
    hide Fresh, Tail, TailFrom, Trunc;
    if ids != [] {
      TailMovesFrontier(r, ids[0], lookback, e);
      if Fresh(r, e, m) || e == ids[0] {
        TailFreshens(r, ids[0], lookback, e, m);
      } else {
        assert TailFrom(Tail(r, ids[0], lookback), e, lookback) == TailFrom(r, e, lookback) by {
          SameTailFrom(r, Tail(r, ids[0], lookback), e, lookback);
        }
      }
      TailsFreshen(Tail(r, ids[0], lookback), ids[1..], lookback, e, m);
    }
  }

  lemma SameTailFrom(r: Rollup, r': Rollup, e: EntityId, lookback: int)
    requires e in r.config && e in r'.config && r'.config[e] == r.config[e] && r'.jobEnd == r.jobEnd
    ensures TailFrom(r', e, lookback) == TailFrom(r, e, lookback)
  {}

  lemma {:induction false} TailsMoveFrontiers(r: Rollup, ids: seq<EntityId>, lookback: int, e: EntityId)
    requires e in r.config
    ensures var r' := Tails(r, ids, lookback);
            && e in r'.config && r'.jobEnd == r.jobEnd
            && r'.config[e] == if e in ids then r.config[e].(filled := Some(r.jobEnd)) else r.config[e]
    decreases ids
  {
    hide Tail;
    if ids != [] {
      TailMovesFrontier(r, ids[0], lookback, e);
      TailsMoveFrontiers(Tail(r, ids[0], lookback), ids[1..], lookback, e);
    }
  }

  lemma UnitFreshens(r: Rollup, e: EntityId, m: int)
    requires IsMinute(m) && e in r.config
    requires Fresh(r, e, m) || (r.dirty != [] && var d := r.dirty[Newest(r.dirty)];
               d.entity == e && Trunc(UnitFrom(d)) <= m < Upper(d.to, r.now))
    ensures Fresh(DirtyUnit(r), e, m) && DirtyUnit(r).config == r.config
  {
    hide Reference, RowIs, Refreshed, Trunc, Upper;
    if r.dirty != [] {
      var d := r.dirty[Newest(r.dirty)];
      RefreshFreshens(r, d.entity, UnitFrom(d), d.to, e, m);
    }
  }

  lemma {:induction false} UnitsStayFresh(r: Rollup, clock: nat -> int, n: nat, e: EntityId, m: int)
    requires IsMinute(m) && Fresh(r, e, m)
    ensures Fresh(Units(r, clock, n), e, m)
  {
    hide DirtyUnit, RowIs, Reference;
    if n > 0 {
      UnitsStayFresh(r, clock, n - 1, e, m);
      UnitFreshens(Units(r, clock, n - 1), e, m);
    }
  }

  lemma {:induction false} UnitsKeepConfig(r: Rollup, clock: nat -> int, n: nat)
    ensures Units(r, clock, n).config == r.config && Units(r, clock, n).jobEnd == r.jobEnd
  {
    hide Refreshed;
    if n > 0 { UnitsKeepConfig(r, clock, n - 1); }
  }

  /**
   What a job run is for: every configured entity's frontier is at the run's start, and every closed
   minute of its tail is stored at its reference value.
   */
  lemma JobFreshens(r: Rollup, ids: seq<EntityId>, clock: nat -> int, n: nat, lookback: int, e: EntityId, m: int)
    requires e in r.config && e in ids
    ensures var b := BeginJob(r);
            var r' := Units(Tails(b, ids, lookback), clock, n);
            && e in r'.config && r'.config[e].filled == Some(Trunc(r.now))
            && (IsMinute(m) && Trunc(TailFrom(b, e, lookback)) <= m < Trunc(r.now) ==> Fresh(r', e, m))
  {
    hide Fresh, Tails, Units;
    var b := BeginJob(r);
    TailsMoveFrontiers(b, ids, lookback, e);
    UnitsKeepConfig(Tails(b, ids, lookback), clock, n);
    if IsMinute(m) && Trunc(TailFrom(b, e, lookback)) <= m < Trunc(r.now) {
      TailsFreshen(b, ids, lookback, e, m);
      UnitsStayFresh(Tails(b, ids, lookback), clock, n, e, m);
    }
  }

  // ---- Sync -----------------------------------------------------------------------------------

  predicate OnlyConfig(steps: seq<Step>) { forall k :: 0 <= k < |steps| ==> steps[k].DoReset? || steps[k].DoRemove? }

  lemma {:induction false} ConfigKeeps(r: Rollup, steps: seq<Step>, lookback: int)
    requires RollupInvariant(r, lookback) && OnlyConfig(steps)
    ensures RollupInvariant(ApplyAll(r, steps, 0), lookback)
    decreases |steps|
  {
    hide RollupInvariant, Reset, Remove;
    if steps != [] {
      match steps[0] {
        case DoReset(e, holds) => ResetKeeps(r, e, holds, lookback);
        case DoRemove(e) => RemoveKeeps(r, e, lookback);
      }
      assert OnlyConfig(steps[1..]);
      ConfigKeeps(Apply(r, steps[0], 0), steps[1..], lookback);
    }
  }

  lemma {:induction false} RemovesAreConfig(current: seq<EntityId>, wanted: map<EntityId, Holds>)
    ensures OnlyConfig(RemoveSteps(current, wanted))
  {
    if current != [] { RemovesAreConfig(current[1..], wanted); }
  }

  lemma {:induction false} ResetsAreConfig(config: map<EntityId, Config>, order: seq<EntityId>,
                                            wanted: map<EntityId, Holds>)
    requires forall e :: e in order ==> e in wanted
    ensures OnlyConfig(ResetSteps(config, order, wanted))
  {
    if order != [] { ResetsAreConfig(config, order[1..], wanted); }
  }

  /** A sync keeps the rollup's invariant, whatever it removes and resets. */
  lemma SyncKeeps(r: Rollup, current: seq<EntityId>, order: seq<EntityId>, wanted: map<EntityId, Holds>, lookback: int)
    requires RollupInvariant(r, lookback) && forall e :: e in order ==> e in wanted
    ensures RollupInvariant(ApplyAll(r, SyncSteps(r.config, current, order, wanted), 0), lookback)
  {
    hide RollupInvariant;
    RemovesAreConfig(current, wanted);
    ResetsAreConfig(r.config, order, wanted);
    ConfigKeeps(r, SyncSteps(r.config, current, order, wanted), lookback);
  }

  // ---- Which pieces the units refresh --------------------------------------------------------------

  /** What a queue still owes: the pieces of each of its rows. */
  function Owed(q: seq<Dirty>): multiset<(EntityId, Piece)> {
    if q == [] then multiset{} else OfRow(q[0].entity, Pieces(q[0].from, q[0].to)) + Owed(q[1..])
  }

  function OfRow(e: EntityId, ps: seq<Piece>): multiset<(EntityId, Piece)> {
    if ps == [] then multiset{} else multiset{(e, ps[0])} + OfRow(e, ps[1..])
  }

  lemma {:induction false} OwedConcat(p: seq<Dirty>, q: seq<Dirty>)
    ensures Owed(p + q) == Owed(p) + Owed(q)
    decreases |p|
  {
    hide OfRow;
    if p == [] {
      assert p + q == q;
    } else {
      assert (p + q)[0] == p[0] && (p + q)[1..] == p[1..] + q;
      OwedConcat(p[1..], q);
    }
  }

  lemma OwedOne(d: Dirty)
    ensures Owed([d]) == OfRow(d.entity, Pieces(d.from, d.to))
  {
    hide OfRow, Pieces;
    assert Owed([d]) == OfRow(d.entity, Pieces(d.from, d.to)) + Owed([d][1..]);
  }

  lemma OwedAt(q: seq<Dirty>, i: nat)
    requires i < |q|
    ensures Owed(q) == Owed(q[..i]) + OfRow(q[i].entity, Pieces(q[i].from, q[i].to)) + Owed(q[i + 1..])
  {
    hide OfRow, Pieces, Owed;
    assert q == q[..i] + ([q[i]] + q[i + 1..]);
    OwedConcat(q[..i], [q[i]] + q[i + 1..]);
    OwedConcat([q[i]], q[i + 1..]);
    OwedOne(q[i]);
  }

  /** The piece the next unit refreshes. */
  function NextPiece(r: Rollup): (EntityId, Piece)
    requires r.dirty != []
  {
    var d := r.dirty[Newest(r.dirty)];
    (d.entity, Piece(UnitFrom(d), d.to))
  }

  /**
   A unit takes the first piece of the newest row and leaves the rest of that row's pieces, in
   order: the row with its shortened end, or no row if that was the last piece.
   */
  lemma UnitTakesFirstPiece(r: Rollup)
    requires r.dirty != []
    ensures var d := r.dirty[Newest(r.dirty)];
            var ps := Pieces(d.from, d.to);
            && ps[0] == NextPiece(r).1
            && (if UnitFrom(d) <= d.from then |ps| == 1 else ps[1..] == Pieces(d.from, UnitFrom(d)))
    ensures DirtyUnit(r).rows == Refresh(r, NextPiece(r).0, NextPiece(r).1.from, NextPiece(r).1.to).rows
  {
    hide Refreshed;
  }

  lemma FirstOfRow(e: EntityId, ps: seq<Piece>)
    requires ps != []
    ensures OfRow(e, ps) == multiset{(e, ps[0])} + OfRow(e, ps[1..])
  {}

  lemma UnitOwesOneLess(r: Rollup)
    requires r.dirty != []
    ensures Owed(r.dirty) == Owed(DirtyUnit(r).dirty) + multiset{NextPiece(r)}
  {
    hide Refresh, OfRow, Owed, Pieces;
    var i, q := Newest(r.dirty), DirtyUnit(r).dirty;
    var d := r.dirty[i];
    var ps := Pieces(d.from, d.to);
    UnitTakesFirstPiece(r);
    OwedAt(r.dirty, i);
    FirstOfRow(d.entity, ps);
    if UnitFrom(d) <= d.from {
      assert OfRow(d.entity, ps[1..]) == multiset{} by { NothingOfRow(d.entity, ps[1..]); }
      OwedConcat(r.dirty[..i], r.dirty[i + 1..]);
    } else {
      assert q[..i] == r.dirty[..i] && q[i + 1..] == r.dirty[i + 1..];
      OwedAt(q, i);
    }
  }

  lemma NothingOfRow(e: EntityId, ps: seq<Piece>)
    requires ps == []
    ensures OfRow(e, ps) == multiset{}
  {}

  /** The pieces the first n units refresh. */
  function Done(r: Rollup, clock: nat -> int, n: nat): multiset<(EntityId, Piece)> {
    if n == 0 || Units(r, clock, n - 1).dirty == [] then multiset{}
    else Done(r, clock, n - 1) + multiset{NextPiece(Units(r, clock, n - 1))}
  }

  lemma OneMoreDone(r: Rollup, clock: nat -> int, n: nat)
    requires Units(r, clock, n).dirty != []
    ensures Done(r, clock, n + 1) == Done(r, clock, n) + multiset{NextPiece(Units(r, clock, n))}
    ensures Owed(Units(r, clock, n).dirty) ==
            Owed(Units(r, clock, n + 1).dirty) + multiset{NextPiece(Units(r, clock, n))}
  {
    hide DirtyUnit, Pieces, Newest, Owed, NextPiece;
    UnitOwesOneLess(Units(r, clock, n));
    NextUnit(r, clock, n);
  }

  /** Working off the queue refreshes each piece of each of its rows exactly once, and nothing else. */
  lemma {:induction false} UnitsRefreshThePieces(r: Rollup, clock: nat -> int, n: nat)
    requires n <= Work(r.dirty)
    ensures Done(r, clock, n) + Owed(Units(r, clock, n).dirty) == Owed(r.dirty)
    ensures n == Work(r.dirty) ==> Done(r, clock, n) == Owed(r.dirty)
  {
    hide Owed, NextPiece, Units, Done, Work;
    UnitsFinish(r, clock, n);
    assert Owed([]) == multiset{} by { NothingOwed(); }
    if n == 0 {
      NoUnits(r, clock);
      assert Done(r, clock, 0) == multiset{} by { NothingDone(r, clock); }
    } else {
      UnitsRefreshThePieces(r, clock, n - 1);
      UnitsFinish(r, clock, n - 1);
      assert Units(r, clock, n - 1).dirty != [] by { NoWork(); }
      OneMoreDone(r, clock, n - 1);
    }
  }

  lemma NothingOwed()
    ensures Owed([]) == multiset{}
  {}

  lemma NoWork()
    ensures Work([]) == 0
  {}

  lemma NothingDone(r: Rollup, clock: nat -> int)
    ensures Done(r, clock, 0) == multiset{}
  {}
}
