/** A backfill never deadlocks, and an empty `states` table is the one way it gives events up. */
module BackfillProgress {
  import opened Options
  import opened Ingestion
  import opened NoEventLost

  /** Everything but new events, time, and crashes. */
  predicate Advances(step: Step) { !step.Tick? && !step.Emit? && !step.Crash? }

  /** How far a backfill is from its end: stage, time left to fetch, then what the worker holds. */
  datatype Rank = Rank(stage: nat, span: nat, packets: nat, rows: nat, turns: nat)

  predicate Below(a: Rank, b: Rank) {
    || a.stage < b.stage
    || (a.stage == b.stage && a.span < b.span)
    || (a.stage == b.stage && a.span == b.span && a.packets < b.packets)
    || (a.stage == b.stage && a.span == b.span && a.packets == b.packets && a.rows < b.rows)
    || (a.stage == b.stage && a.span == b.span && a.packets == b.packets && a.rows == b.rows && a.turns < b.turns)
  }

  function Stage(s: State): nat {
    if s.pendingSet || s.orchestrator.Crashed? then 8
    else if s.request then 7
    else match s.orchestrator
      case Cleared(_) => 6
      case Slicing(_, _) => 5
      case Holding(_, _, _, _) => 5
      case Finishing => 4
      case _ => 3
  }

  function Span(o: Orchestrator): nat {
    match o
    case Slicing(from, cutoff) => 2 * Max(0, cutoff - from) + 1
    case Holding(from, _, cutoff, _) => 2 * Max(0, cutoff - from)
    case _ => 0
  }

  function RankOf(s: State): Rank {
    Rank(Stage(s), Span(s.orchestrator), |s.packets|, |s.buffer|,
         (if s.phase.Top? then 0 else 1) + (if s.orchestrator.NotStarted? then 1 else 0))
  }

  /** A slice in hand is the next one, and not empty. */
  predicate HoldsNext(s: State) {
    s.orchestrator.Holding? ==>
      s.orchestrator.from < s.orchestrator.end == SliceEnd(s.orchestrator.from, s.orchestrator.cutoff)
  }

  lemma StepKeepsHold(s: State, step: Step)
    requires HoldsNext(s) && Enabled(s, step)
    ensures HoldsNext(After(s, step))
  {
    hide Elements, Between, Watermark;
  }

  /** Every step of the protocol brings the backfill closer to its end. */
  lemma StepsAdvance(s: State, step: Step)
    requires Handshake(s) && HoldsNext(s) && s.mode.Backfill? && Enabled(s, step) && Advances(step)
    ensures After(s, step).mode.Live? || (After(s, step).mode.Backfill? && Below(RankOf(After(s, step)), RankOf(s)))
  {
    hide Elements, Between, Watermark, SlicesFirst;
  }

  lemma {:induction false} Listed(es: set<Event>) returns (rows: seq<Event>)
    ensures Elements(rows) == es
    decreases |es|
  {
    if es == {} {
      rows := [];
    } else {
      var e := AnyOf(es);
      var rest := Listed(es - {e});
      rows := [e] + rest;
      assert Elements(rows) == {e} + Elements(rest);
    }
  }

  /** No deadlock: after at most the recorder's commit lag, someone can move. */
  lemma SomeoneCanMove(s: State) returns (wait: nat, step: Step)
    requires Handshake(s) && s.mode.Backfill?
    ensures Advances(step) && Enabled(After(s, Tick(wait)), step)
  {
    hide Elements, Between, Watermark;
    wait := 0;
    if s.phase.Flushing? {
      step := if s.buffer != [] then InsertChunk else EndFlush;
    } else if s.packets != [] {
      step := TakePacket;
    } else if s.pendingSet {
      step := RunCallback;
    } else {
      match s.orchestrator {
        case NotStarted => step := Spawn;
        case Idle => step := StartCycle;
        case Cleared(_) => step := ReadWatermark;
        case Slicing(from, cutoff) =>
          if from < cutoff {
            var end := SliceEnd(from, cutoff);
            var rows := Listed(Between(s, from, end));
            wait := Max(0, end + RECORDER_COMMIT_LAG - s.clock);
            assert Between(After(s, Tick(wait)), from, end) == Between(s, from, end) by {
              TickKeepsRecorder(s, wait, from, end);
            }
            step := Fetch(rows);
          } else {
            step := EndSlices;
          }
        case Holding(_, _, _, _) => step := PutSlice;
        case Finishing => step := PutDone;
        case Crashed => step := Relaunch;
      }
    }
  }

  lemma TickKeepsRecorder(s: State, wait: nat, from: int, end: int)
    ensures Between(After(s, Tick(wait)), from, end) == Between(s, from, end)
  {}

  lemma TickKeepsRank(s: State, wait: nat)
    requires Handshake(s) && HoldsNext(s)
    ensures var t := After(s, Tick(wait)); RankOf(t) == RankOf(s) && Handshake(t) && HoldsNext(t) && t.mode == s.mode
  {}

  /** From every reachable point of a backfill some continuation without crashes ends it in LIVE. */
  lemma {:induction false} BackfillCanEnd(s: State) returns (steps: seq<Step>)
    requires Handshake(s) && HoldsNext(s) && s.mode.Backfill?
    ensures Possible(s, steps) && End(s, steps).mode.Live? && forall k :: 0 <= k < |steps| ==> !steps[k].Crash?
    decreases RankOf(s).stage, RankOf(s).span, RankOf(s).packets, RankOf(s).rows, RankOf(s).turns
  {
    hide Handshake, HoldsNext, Enabled, After, RankOf;
    var wait, step := SomeoneCanMove(s);
    assert Enabled(s, Tick(wait)) by { TickIsEnabled(s, wait); }
    var t := After(s, Tick(wait));
    TickKeepsRank(s, wait);
    StepsAdvance(t, step);
    StepKeepsHandshake(t, step);
    StepKeepsHold(t, step);
    var u := After(t, step);
    var rest := [];
    if u.mode.Backfill? { rest := BackfillCanEnd(u); }
    assert Possible(u, rest) && End(u, rest).mode.Live?;
    TwoSteps(s, Tick(wait), step, rest);
    steps := [Tick(wait), step] + rest;
  }

  lemma {:induction false} RunKeepsHold(s: State, steps: seq<Step>)
    requires HoldsNext(s) && Possible(s, steps)
    ensures HoldsNext(End(s, steps))
    decreases steps
  {
    hide HoldsNext, After, Enabled;
    if steps != [] {
      StepKeepsHold(s, steps[0]);
      RunKeepsHold(After(s, steps[0]), steps[1..]);
    }
  }

  /** No run of a fresh worker, crashes and relaunches included, can get stuck in BACKFILL. */
  lemma NoDeadlock(s: State, steps: seq<Step>) returns (more: seq<Step>)
    requires IsStart(s) && Possible(s, steps) && End(s, steps).mode.Backfill?
    ensures Possible(End(s, steps), more) && End(End(s, steps), more).mode.Live?
    ensures forall k :: 0 <= k < |more| ==> !more[k].Crash?
  {
    StartIsFine(s);
    HandshakeHolds(s, steps);
    RunKeepsHold(s, steps);
    more := BackfillCanEnd(End(s, steps));
  }

  lemma TickIsEnabled(s: State, wait: nat)
    ensures Enabled(s, Tick(wait))
  {}

  lemma TwoSteps(s: State, a: Step, b: Step, rest: seq<Step>)
    requires Enabled(s, a) && Enabled(After(s, a), b) && Possible(After(After(s, a), b), rest)
    ensures Possible(s, [a, b] + rest) && End(s, [a, b] + rest) == End(After(After(s, a), b), rest)
  {
    hide Enabled, After;
    var steps := [a, b] + rest;
    assert steps[0] == a && steps[1..] == [b] + rest;
    assert ([b] + rest)[0] == b && ([b] + rest)[1..] == rest;
    assert Possible(After(s, a), [b] + rest);
  }

  // ---- The empty table ----------------------------------------------------------------------------

  /** A first install, up to the clear: one event was queued, and nothing is stored yet. */
  lemma FirstEventIsCleared(s: State, e: Event)
    requires s == State(10, {}, [], false, {}, Init, Top, [], {}, false, false, NotStarted, [], {}, {})
    requires e == Event("sensor.a", 5, 10)
    ensures var steps := [Emit(e)] + ([Check, RunCallback] + [Spawn, StartCycle]);
            && Possible(s, steps)
            && End(s, steps)
                == State(10, {e}, [], false, {}, Backfill, Top, [], {}, false, false, Cleared(10), [], {e}, {})
  {
    var s1 := After(s, Emit(e));
    assert s1 == State(10, {e}, [e], false, {}, Init, Top, [], {}, false, false, NotStarted, [], {}, {});
    var s3 := After(After(s1, Check), RunCallback);
    assert s3 == State(10, {e}, [e], false, {}, Backfill, Top, [], {}, false, true, NotStarted, [], {}, {});
    var s5 := After(After(s3, Spawn), StartCycle);
    assert s5.owed == {e};
    assert Possible(s5, []) && End(s5, []) == s5;
    assert [Spawn, StartCycle] + [] == [Spawn, StartCycle];
    TwoSteps(s3, Spawn, StartCycle, []);
    TwoSteps(s1, Check, RunCallback, [Spawn, StartCycle]);
    OneStep(s, Emit(e), [Check, RunCallback] + [Spawn, StartCycle]);
  }

  lemma NoWatermarkNoFetch(s: State, e: Event)
    requires s == State(10, {e}, [], false, {}, Backfill, Top, [], {}, false, false, Cleared(10), [], {e}, {})
    ensures var steps := [ReadWatermark, PutDone] + [TakePacket];
            && Possible(s, steps)
            && End(s, steps) == State(10, {e}, [], false, {}, Live, Top, [], {}, false, false, Idle, [], {}, {e})
  {
    var s1 := After(s, ReadWatermark);
    assert s1 == State(10, {e}, [], false, {}, Backfill, Top, [], {}, false, false, Finishing, [], {}, {e});
    var s2 := After(s1, PutDone);
    assert s2 == State(10, {e}, [], false, {}, Backfill, Top, [], {}, false, false, Idle, [Done], {}, {e});
    var s3 := After(s2, TakePacket);
    assert Possible(s3, []) && End(s3, []) == s3;
    assert [TakePacket] + [] == [TakePacket];
    OneStep(s2, TakePacket, []);
    TwoSteps(s, ReadWatermark, PutDone, [TakePacket]);
  }

  lemma {:induction false} RunsJoin(s: State, xs: seq<Step>, ys: seq<Step>)
    requires Possible(s, xs) && Possible(End(s, xs), ys)
    ensures Possible(s, xs + ys) && End(s, xs + ys) == End(End(s, xs), ys)
    decreases xs
  {
    hide Enabled, After;
    if xs == [] {
      assert xs + ys == ys;
    } else {
      assert (xs + ys)[0] == xs[0] && (xs + ys)[1..] == xs[1..] + ys;
      RunsJoin(After(s, xs[0]), xs[1..], ys);
    }
  }

  /**
   The grace and the recorder do not help a first install: an event that arrives before the first
   cycle is cleared from the queue, the empty table yields no watermark, and nothing fetches it.
   */
  lemma FirstInstallLosesEvents() returns (s: State, steps: seq<Step>, e: Event)
    ensures IsStart(s) && Possible(s, steps)
    ensures var t := End(s, steps);
            t.mode.Live? && e in t.recorded && !Written(t, e) && !Waiting(t, e) && t.lost == {e}
  {
    hide Possible, End;
    s := State(10, {}, [], false, {}, Init, Top, [], {}, false, false, NotStarted, [], {}, {});
    e := Event("sensor.a", 5, 10);
    var xs, ys := [Emit(e)] + ([Check, RunCallback] + [Spawn, StartCycle]), [ReadWatermark, PutDone] + [TakePacket];
    FirstEventIsCleared(s, e);
    NoWatermarkNoFetch(End(s, xs), e);
    RunsJoin(s, xs, ys);
    steps := xs + ys;
  }

  lemma OneStep(s: State, a: Step, rest: seq<Step>)
    requires Enabled(s, a) && Possible(After(s, a), rest)
    ensures Possible(s, [a] + rest) && End(s, [a] + rest) == End(After(s, a), rest)
  {
    assert ([a] + rest)[0] == a && ([a] + rest)[1..] == rest;
  }
}
