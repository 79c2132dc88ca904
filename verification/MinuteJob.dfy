/** The job procedure and the configuration sync, as the loops that perform the steps. */
module MinuteJob {
  import opened Clock
  import opened Options
  import opened HeldReadings
  import opened MinuteRefresh
  import opened RefreshLaws
  import opened RollupState

  // ---- Dirty work --------------------------------------------------------------------

  /** The units one range takes, in the order they are done. */
  function Pieces(from: int, to: int): (q: seq<Piece>)
    ensures |q| >= 1
    decreases Max(0, to - from)
  {
    if to - DAY <= from then [Piece(from, to)] else [Piece(to - DAY, to)] + Pieces(from, to - DAY)
  }

  /** Units tile the range exactly, newest first, each at most a day long. */
  lemma {:induction false} PiecesTile(from: int, to: int)
    requires from < to
    ensures var q := Pieces(from, to);
            && q[0].to == to && q[|q| - 1].from == from
            && (forall i :: 0 <= i < |q| ==> q[i].from < q[i].to <= q[i].from + DAY)
            && (forall i :: 0 <= i < |q| - 1 ==> q[i].from == q[i + 1].to)
    decreases Max(0, to - from)
  {
    if to - DAY > from {
      PiecesTile(from, to - DAY);
      var rest := Pieces(from, to - DAY);
      assert Pieces(from, to) == [Piece(to - DAY, to)] + rest;
    }
  }

  function Work(q: seq<Dirty>): nat {
    if q == [] then 0 else |Pieces(q[0].from, q[0].to)| + Work(q[1..])
  }

  lemma {:induction false} WorkConcat(p: seq<Dirty>, q: seq<Dirty>)
    ensures Work(p + q) == Work(p) + Work(q)
    decreases |p|
  {
    if p == [] {
      assert p + q == q;
    } else {
      assert (p + q)[0] == p[0] && (p + q)[1..] == p[1..] + q;
      WorkConcat(p[1..], q);
    }
  }

  lemma WorkAt(q: seq<Dirty>, i: nat)
    requires i < |q|
    ensures Work(q) == Work(q[..i]) + |Pieces(q[i].from, q[i].to)| + Work(q[i + 1..])
  {
    assert q == q[..i] + ([q[i]] + q[i + 1..]);
    WorkConcat(q[..i], [q[i]] + q[i + 1..]);
    WorkConcat([q[i]], q[i + 1..]);
    assert Work([q[i]]) == |Pieces(q[i].from, q[i].to)|;
  }

  /** Every unit finishes exactly one piece: the loop's measure. */
  lemma UnitWorks(r: Rollup)
    requires r.dirty != []
    ensures Work(DirtyUnit(r).dirty) == Work(r.dirty) - 1
  {
    hide Refreshed;
    var i, q := Newest(r.dirty), DirtyUnit(r).dirty;
    var d := r.dirty[i];
    WorkAt(r.dirty, i);
    if UnitFrom(d) <= d.from {
      WorkConcat(r.dirty[..i], r.dirty[i + 1..]);
    } else {
      assert q[..i] == r.dirty[..i] && q[i + 1..] == r.dirty[i + 1..];
      WorkAt(q, i);
    }
  }

  /** n units, the clock read after each. */
  function Units(r: Rollup, clock: nat -> int, n: nat): Rollup {
    if n == 0 then r else Tick(DirtyUnit(Units(r, clock, n - 1)), clock(n - 1))
  }

  lemma NoUnits(r: Rollup, clock: nat -> int)
    ensures Units(r, clock, 0) == r
  {}

  lemma NextUnit(r: Rollup, clock: nat -> int, n: nat)
    ensures Units(r, clock, n + 1) == Tick(DirtyUnit(Units(r, clock, n)), clock(n))
  {}

  /** Working the queue off takes exactly its number of pieces, whatever the clock says. */
  lemma {:induction false} UnitsFinish(r: Rollup, clock: nat -> int, n: nat)
    requires n <= Work(r.dirty)
    ensures Work(Units(r, clock, n).dirty) == Work(r.dirty) - n
    ensures n == Work(r.dirty) ==> Units(r, clock, n).dirty == []
  {
    hide DirtyUnit;
    if n > 0 {
      UnitsFinish(r, clock, n - 1);
      UnitWorks(Units(r, clock, n - 1));
    }
  }

  function Tails(r: Rollup, ids: seq<EntityId>, lookback: int): Rollup
    decreases |ids|
  {
    if ids == [] then r else Tails(Tail(r, ids[0], lookback), ids[1..], lookback)
  }

  lemma {:induction false} TailsConcat(r: Rollup, ids: seq<EntityId>, e: EntityId, lookback: int)
    ensures Tails(r, ids + [e], lookback) == Tail(Tails(r, ids, lookback), e, lookback)
    decreases |ids|
  {
    if ids == [] {
      assert [e][1..] == [];
    } else {
      assert (ids + [e])[0] == ids[0] && (ids + [e])[1..] == ids[1..] + [e];
      TailsConcat(Tail(r, ids[0], lookback), ids[1..], e, lookback);
    }
  }

  // ---- Configuration sync ------------------------------------------------------------

  predicate Unchanged(config: map<EntityId, Config>, e: EntityId, holds: Holds) {
    e in config && config[e].holds == holds
  }

  function RemoveSteps(current: seq<EntityId>, wanted: map<EntityId, Holds>): seq<Step> {
    if current == [] then []
    else (if current[0] in wanted then [] else [DoRemove(current[0])]) + RemoveSteps(current[1..], wanted)
  }

  function ResetSteps(config: map<EntityId, Config>, order: seq<EntityId>, wanted: map<EntityId, Holds>): seq<Step>
    requires forall e :: e in order ==> e in wanted
  {
    if order == [] then []
    else (if Unchanged(config, order[0], wanted[order[0]]) then [] else [DoReset(order[0], wanted[order[0]])])
         + ResetSteps(config, order[1..], wanted)
  }

  lemma {:induction false} ApplyAllConcat(r: Rollup, p: seq<Step>, q: seq<Step>, lookback: int)
    ensures ApplyAll(r, p + q, lookback) == ApplyAll(ApplyAll(r, p, lookback), q, lookback)
    decreases |p|
  {
    if p == [] {
      assert p + q == q;
    } else {
      assert (p + q)[0] == p[0] && (p + q)[1..] == p[1..] + q;
      ApplyAllConcat(Apply(r, p[0], lookback), p[1..], q, lookback);
    }
  }

  /** What a sync may do to one entity it leaves configured with the same holds: nothing. */
  ghost predicate Untouched(r: Rollup, r': Rollup, e: EntityId) {
    && (e in r'.config <==> e in r.config) && (e in r.config ==> r'.config[e] == r.config[e])
    && RowsOf(r', e) == RowsOf(r, e)
    && (forall d: Dirty :: d.entity == e ==> (d in r'.dirty <==> d in r.dirty))
  }

  lemma {:induction false} RemovesRemove(r: Rollup, current: seq<EntityId>, wanted: map<EntityId, Holds>, e: EntityId)
    ensures var r' := ApplyAll(r, RemoveSteps(current, wanted), 0);
            && r'.samples == r.samples
            && (e in current && e !in wanted ==> e !in r'.config && RowsOf(r', e) == map[])
            && (e in wanted ==> Untouched(r, r', e))
            && (e in r'.config ==> e in r.config)
            && (e !in r.config && RowsOf(r, e) == map[] ==> RowsOf(r', e) == map[])
    decreases |current|
  {
    if current != [] {
      var first := if current[0] in wanted then [] else [DoRemove(current[0])];
      ApplyAllConcat(r, first, RemoveSteps(current[1..], wanted), 0);
      var r1 := ApplyAll(r, first, 0);
      assert r1 == if current[0] in wanted then r else Remove(r, current[0]);
      RemovesRemove(r1, current[1..], wanted, e);
    }
  }

  ghost predicate IsReset(r: Rollup, r': Rollup, e: EntityId, holds: Holds) {
    && e in r'.config && r'.config[e] == Config(holds, Option.None, r.now)
    && RowsOf(r', e) == map[]
    && (forall d :: d in r'.dirty && d.entity == e ==>
          SamplesOf(r, e) != map[] && d == Dirty(e, Least(SamplesOf(r, e).Keys), r.now))
    && (SamplesOf(r, e) != map[] ==> Dirty(e, Least(SamplesOf(r, e).Keys), r.now) in r'.dirty)
  }

  lemma ResetOne(r: Rollup, x: EntityId, holds: Holds, e: EntityId)
    ensures var r' := Reset(r, x, holds);
            && r'.samples == r.samples && r'.now == r.now
            && (if e == x then IsReset(r, r', e, holds) else Untouched(r, r', e))
  {
  }

  lemma ResetThenUntouched(r: Rollup, r1: Rollup, r': Rollup, e: EntityId, holds: Holds)
    requires r1.samples == r.samples && r1.now == r.now && Untouched(r1, r', e)
    ensures IsReset(r, r1, e, holds) ==> IsReset(r, r', e, holds)
    ensures Untouched(r, r1, e) ==> Untouched(r, r', e)
  {
  }

  lemma UntouchedThenReset(r: Rollup, r1: Rollup, r': Rollup, e: EntityId, holds: Holds)
    requires r1.samples == r.samples && r1.now == r.now && IsReset(r1, r', e, holds)
    ensures IsReset(r, r', e, holds)
  {
  }

  lemma {:induction false} ResetsReset(r: Rollup, config: map<EntityId, Config>, order: seq<EntityId>,
                                       wanted: map<EntityId, Holds>, e: EntityId)
    requires forall x :: x in order ==> x in wanted
    ensures var r' := ApplyAll(r, ResetSteps(config, order, wanted), 0);
            && r'.samples == r.samples && r'.now == r.now
            && (if e in order && !Unchanged(config, e, wanted[e]) then IsReset(r, r', e, wanted[e])
                else Untouched(r, r', e))
    decreases |order|
  {
    hide Reset, IsReset, Untouched, Unchanged;
    if order == [] {
      SelfUntouched(r, e);
    } else {
      var x := order[0];
      var rest := ResetSteps(config, order[1..], wanted);
      var r1 := if Unchanged(config, x, wanted[x]) then r else Reset(r, x, wanted[x]);
      ResetsReset(r1, config, order[1..], wanted, e);
      var r' := ApplyAll(r1, rest, 0);
      if Unchanged(config, x, wanted[x]) {
        assert ResetSteps(config, order, wanted) == rest;
      } else {
        ResetOne(r, x, wanted[x], e);
        OneStep(r, DoReset(x, wanted[x]), rest);
        assert ResetSteps(config, order, wanted) == [DoReset(x, wanted[x])] + rest;
      }
      assert e in order <==> e == x || e in order[1..];
      if e in order[1..] && !Unchanged(config, e, wanted[e]) {
        UntouchedThenReset(r, r1, r', e, wanted[e]);
      } else {
        SelfUntouched(r, e);
        ResetThenUntouched(r, r1, r', e, wanted[x]);
      }
    }
  }

  lemma SelfUntouched(r: Rollup, e: EntityId)
    ensures Untouched(r, r, e)
  {
  }

  lemma OneStep(r: Rollup, s: Step, rest: seq<Step>)
    ensures ApplyAll(r, [s] + rest, 0) == ApplyAll(Apply(r, s, 0), rest, 0)
  {
    assert ([s] + rest)[1..] == rest;
  }

  function SyncSteps(config: map<EntityId, Config>, current: seq<EntityId>, order: seq<EntityId>,
                     wanted: map<EntityId, Holds>): seq<Step>
    requires forall e :: e in order ==> e in wanted
  {
    RemoveSteps(current, wanted) + ResetSteps(config, order, wanted)
  }

  /**
   A sync makes the configured set match: every entity no longer wanted is gone with its
   rows, every new or changed one starts over with its whole history queued, and an
   unchanged one keeps its frontier, rows and queue.
   */
  lemma SyncMatches(r: Rollup, current: seq<EntityId>, order: seq<EntityId>, wanted: map<EntityId, Holds>, e: EntityId)
    requires forall x :: x in current <==> x in r.config
    requires forall x :: x in order <==> x in wanted
    ensures var r' := ApplyAll(r, SyncSteps(r.config, current, order, wanted), 0);
            && (e in r'.config <==> e in wanted)
            && (e in wanted && Unchanged(r.config, e, wanted[e]) ==> Untouched(r, r', e))
            && (e in wanted && !Unchanged(r.config, e, wanted[e]) ==>
                  e in r'.config && r'.config[e].holds == wanted[e] && r'.config[e].filled.None?
                  && RowsOf(r', e) == map[])
            && (e in r.config && e !in wanted ==> RowsOf(r', e) == map[])
  {
    var removes, resets := RemoveSteps(current, wanted), ResetSteps(r.config, order, wanted);
    ApplyAllConcat(r, removes, resets, 0);
    RemovesRemove(r, current, wanted, e);
    ResetsReset(ApplyAll(r, removes, 0), r.config, order, wanted, e);
  }

  // ---- Mark-dirty with an end ---------------------------------------------------------

  /**
   Rows written in [from, to] can change every minute they reach. The range queued for them
   is truncated at its end, so it holds all of those minutes, up to the last closed one,
   exactly when it ends on a minute boundary or in the open minute.
   */
  lemma MarkThroughCovers(from: int, to: int, hold: int, now: int)
    requires from <= to && hold > 0
    ensures (forall m :: IsMinute(m) && m + MINUTE <= now && from < m + MINUTE && m < to + hold ==>
               Trunc(from) <= m < Trunc(Min(now, to + hold)))
            <==> IsMinute(to + hold) || Trunc(to + hold) + MINUTE > now
  {
    hide Trunc, IsMinute;
    var end, m := to + hold, Trunc(to + hold);
    BoundaryIsItself(end);
    if !IsMinute(end) && m + MINUTE <= now {
      assert from < m + MINUTE;
      assert m < end && !(m < Trunc(Min(now, end)));
    } else {
      forall m | IsMinute(m) && m + MINUTE <= now && from < m + MINUTE && m < end
        ensures Trunc(from) <= m < Trunc(Min(now, end))
      {
        ReachedIsQueued(from, end, now, m);
      }
    }
  }

  lemma BoundaryIsItself(t: int)
    ensures Trunc(t) <= t < Trunc(t) + MINUTE && IsMinute(Trunc(t))
    ensures IsMinute(t) <==> Trunc(t) == t
  {
    if IsMinute(t) && Trunc(t) < t {
      MinuteStep(Trunc(t), t);
    }
  }

  lemma ReachedIsQueued(from: int, end: int, now: int, m: int)
    requires IsMinute(end) || Trunc(end) + MINUTE > now
    requires IsMinute(m) && m + MINUTE <= now && from < m + MINUTE && m < end
    ensures Trunc(from) <= m < Trunc(Min(now, end))
  {
    hide Trunc, IsMinute;
    BoundaryIsItself(end);
    TruncOrder(m, from);
    NextMinute(m);
    TruncOrder(m + MINUTE, Min(now, end));
    TruncOrder(m, end);
    if IsMinute(end) {
      MinuteStep(m, end);
    } else if m < Trunc(end) {
      MinuteStep(m, Trunc(end));
    }
  }

  lemma NextMinute(m: int)
    requires IsMinute(m)
    ensures IsMinute(m + MINUTE)
  {
  }
}
