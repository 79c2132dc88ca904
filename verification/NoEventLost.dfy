/**
 No event is lost across overflow. Everything the live queue drops, or a backfill cycle clears
 from it, lies in the window that cycle reads back from the recorder, because nothing enqueued
 after the first drop is written before the cycle starts.
 */
module NoEventLost {
  import opened Options
  import opened Ingestion

  /** In the table, or on the worker's way there. */
  predicate Written(s: State, e: Event) {
    || e in s.stored
    || e in s.buffer
    || InPackets(s.packets, e)
  }

  /** Still in the live queue, or to be read back. */
  predicate Waiting(s: State, e: Event) { e in s.live || e in s.dropped || e in s.owed }

  /** What a step moves towards the table. */
  predicate Arrives(s: State, step: Step, e: Event)
    requires Enabled(s, step)
  {
    match step
    case TakeLive(_) => e == s.live[0]
    case PutSlice => e in s.orchestrator.rows
    case _ => false
  }

  predicate InPackets(q: seq<Packet>, e: Event) { exists k :: 0 <= k < |q| && q[k].Slice? && e in q[k].rows }

  lemma PacketsAdd(q: seq<Packet>, p: Packet, e: Event)
    ensures InPackets(q + [p], e) <==> InPackets(q, e) || (p.Slice? && e in p.rows)
  {
    var more := q + [p];
    assert forall k :: 0 <= k < |q| ==> more[k] == q[k];
    assert more[|q|] == p;
  }

  lemma PacketsLose(q: seq<Packet>, e: Event)
    requires q != []
    ensures InPackets(q, e) <==> InPackets(q[1..], e) || (q[0].Slice? && e in q[0].rows)
  {
    assert forall k :: 0 <= k < |q| - 1 ==> q[1..][k] == q[k + 1];
    assert forall k :: 0 < k < |q| ==> q[k] == q[1..][k - 1];
  }

  lemma ChunkMoves(s: State, e: Event)
    requires Enabled(s, InsertChunk)
    ensures var s' := After(s, InsertChunk); e in s'.stored || e in s'.buffer <==> e in s.stored || e in s.buffer
  {
    var n := Min(INSERT_CHUNK_SIZE, |s.buffer|);
    assert s.buffer == s.buffer[..n] + s.buffer[n..];
    ElementsAre(s.buffer[..n], e);
  }

  lemma WrittenMoves(s: State, step: Step, e: Event)
    requires Enabled(s, step)
    ensures Written(After(s, step), e) <==> Written(s, e) || Arrives(s, step, e)
  {
    hide Elements, Between, Watermark, SliceEnd, InPackets;
    match step
    case PutSlice => PacketsAdd(s.packets, Slice(s.orchestrator.rows), e);
    case PutDone => PacketsAdd(s.packets, Done, e);
    case TakePacket => PacketsLose(s.packets, e);
    case InsertChunk => ChunkMoves(s, e);
    case _ =>
  }

  lemma ElementsAre(es: seq<Event>, e: Event)
    ensures e in Elements(es) <==> e in es
  {}

  lemma WaitingMoves(s: State, step: Step, e: Event)
    requires Enabled(s, step)
    ensures Waiting(After(s, step), e) ==> Waiting(s, e) || step == Emit(e)
    ensures Waiting(s, e) || step == Emit(e) ==>
      Waiting(After(s, step), e) || Arrives(s, step, e) || e in After(s, step).lost
  {
    hide Elements, Between, Watermark, SliceEnd;
    match step
    case TakeLive(_) => assert s.live == [s.live[0]] + s.live[1..];
    case StartCycle => ElementsAre(s.live, e);
    case PutSlice => ElementsAre(s.orchestrator.rows, e);
    case _ =>
  }

  // ---- Clocks ---------------------------------------------------------------------------------

  /** Emitted after last_updated, by no more than the grace. */
  predicate InTime(e: Event, clock: int) { e.time < e.at <= clock && e.at <= e.time + LATE_ARRIVAL_GRACE }

  ghost predicate Clocked(s: State) {
    && (forall e :: e in s.recorded ==> InTime(e, s.clock))
    && (forall e :: Waiting(s, e) ==> e in s.recorded)
    && (forall e :: Written(s, e) ==> e.time < s.clock)
    && (forall i, j :: 0 <= i < j < |s.live| ==> s.live[i].at <= s.live[j].at)
  }

  /** While the worker is about to take from the queue, its front is older than every drop. */
  ghost predicate FrontIsOldest(s: State) {
    && (s.overflowed <==> s.dropped != {})
    && (s.overflowed && s.phase.Getting? ==> s.live != [] && forall x :: x in s.dropped ==> s.live[0].at <= x.at)
  }

  lemma StepKeepsFront(s: State, step: Step)
    requires Clocked(s) && FrontIsOldest(s) && Enabled(s, step)
    ensures FrontIsOldest(After(s, step))
  {
    hide Elements, Between, Watermark, SliceEnd, Written;
    if step.Emit? && s.live != [] {
      assert Waiting(s, s.live[0]);
    }
  }

  lemma ClockOnlyAdvances(s: State, step: Step)
    requires Enabled(s, step)
    ensures s.clock <= After(s, step).clock && s.recorded <= After(s, step).recorded
    ensures forall e :: e in After(s, step).recorded ==>
      e in s.recorded || (step == Emit(e) && InTime(e, s.clock))
  {
    hide Elements, Between, Watermark, SliceEnd;
  }

  lemma StillInOrder(s: State, step: Step)
    requires Clocked(s) && Enabled(s, step)
    ensures var q := After(s, step).live; forall i, j :: 0 <= i < j < |q| ==> q[i].at <= q[j].at
  {
    hide Elements, Between, Watermark, SliceEnd, Written;
    if step.Emit? {
      forall i | 0 <= i < |s.live| ensures s.live[i].at <= s.clock {
        assert Waiting(s, s.live[i]);
      }
    }
  }

  lemma StepKeepsClocks(s: State, step: Step)
    requires Clocked(s) && Window(s) && Enabled(s, step)
    ensures Clocked(After(s, step))
  {
    hide After, Enabled, Window, Arrives, Written, Waiting;
    var s' := After(s, step);
    ClockOnlyAdvances(s, step);
    StillInOrder(s, step);
    forall e | Waiting(s', e) ensures e in s'.recorded {
      WaitingMoves(s, step, e);
      if step == Emit(e) { EmitIsRecorded(s, e); }
    }
    forall e | Written(s', e) ensures e.time < s'.clock {
      WrittenMoves(s, step, e);
      if Arrives(s, step, e) { ArrivalIsRecorded(s, step, e); }
    }
  }

  lemma EmitIsRecorded(s: State, e: Event)
    requires Enabled(s, Emit(e))
    ensures e in After(s, Emit(e)).recorded
  {}

  lemma QueuedIsWaiting(s: State, i: nat)
    requires i < |s.live|
    ensures Waiting(s, s.live[i])
  {}

  lemma ArrivalIsRecorded(s: State, step: Step, e: Event)
    requires Clocked(s) && Window(s) && Enabled(s, step) && Arrives(s, step, e)
    ensures e in s.recorded
  {
    hide Written;
    if step.TakeLive? { QueuedIsWaiting(s, 0); }
  }

  // ---- The window -----------------------------------------------------------------------------

  /** Nothing still in the queue was emitted before the cycle's clear. */
  ghost predicate LaterThan(s: State, cutoff: int) {
    cutoff <= s.clock && forall x :: x in s.live || x in s.dropped ==> cutoff <= x.at
  }

  /** Where the orchestrator is, and which part of the owed events it still has to fetch. */
  ghost predicate Window(s: State) {
    match s.orchestrator
    case Cleared(cutoff) => LaterThan(s, cutoff) && forall x :: x in s.owed ==> x.at <= cutoff
    case Slicing(from, cutoff) => LaterThan(s, cutoff) && forall x :: x in s.owed ==> from <= x.time < cutoff
    case Holding(from, end, cutoff, rows) =>
      && LaterThan(s, cutoff) && end <= cutoff && (forall x :: x in s.owed ==> from <= x.time < cutoff)
      && (forall x :: x in s.owed && x.time < end ==> x in rows)
      && (forall x :: x in rows ==> x in s.recorded && x.time < end)
    case Finishing => s.owed == {}
    case Crashed => true
    case _ => s.owed != {} ==> s.request
  }

  /** No written row is more than the grace ahead of an event still waiting. */
  ghost predicate Bounded(s: State) {
    forall p, x :: Written(s, p) && Waiting(s, x) ==> p.time <= x.time + LATE_ARRIVAL_GRACE
  }

  /** What the next cycle will read back includes everything owed. */
  lemma WindowReachesBack(s: State)
    requires Clocked(s) && Window(s) && Bounded(s) && s.orchestrator.Cleared? && s.stored != {}
    ensures forall x :: x in s.owed ==>
      Watermark(s.stored) - LATE_ARRIVAL_GRACE <= x.time < s.orchestrator.cutoff
  {
    var w :| w in s.stored && w.time == Watermark(s.stored);
    forall x | x in s.owed ensures w.time - LATE_ARRIVAL_GRACE <= x.time < s.orchestrator.cutoff {
      assert Written(s, w) && Waiting(s, x);
    }
  }

  lemma CycleOpensWindow(s: State)
    requires Clocked(s) && Enabled(s, StartCycle)
    ensures Window(After(s, StartCycle))
  {
    hide Written, InTime;
    var s' := After(s, StartCycle);
    forall x | x in s'.owed ensures x.at <= s.clock {
      ElementsAre(s.live, x);
      assert Waiting(s, x);
      EmittedByNow(x, s.clock);
    }
  }

  lemma FetchKeepsWindow(s: State, rows: seq<Event>)
    requires Clocked(s) && Window(s) && Enabled(s, Fetch(rows))
    ensures Window(After(s, Fetch(rows)))
  {
    hide Written, InTime, Elements;
    var s' := After(s, Fetch(rows));
    var end := SliceEnd(s.orchestrator.from, s.orchestrator.cutoff);
    forall x | x in s.owed && x.time < end ensures x in rows {
      assert Waiting(s, x);
      assert x in Between(s, s.orchestrator.from, end);
      ElementsAre(rows, x);
    }
    forall x | x in rows ensures x in s.recorded && x.time < end { ElementsAre(rows, x); }
  }

  lemma PutKeepsWindow(s: State)
    requires Clocked(s) && Window(s) && Enabled(s, PutSlice)
    ensures Window(After(s, PutSlice))
  {
    hide Written, InTime, Elements;
    var s' := After(s, PutSlice);
    forall x | x in s'.owed ensures s.orchestrator.end <= x.time { ElementsAre(s.orchestrator.rows, x); }
  }

  lemma ReadKeepsWindow(s: State)
    requires Clocked(s) && Window(s) && Bounded(s) && Enabled(s, ReadWatermark)
    ensures Window(After(s, ReadWatermark))
  {
    hide Written, InTime, Watermark;
    if s.stored != {} { WindowReachesBack(s); }
  }

  lemma OrchestratorKeepsWindow(s: State, step: Step)
    requires Window(s) && Handshake(s) && Enabled(s, step)
    requires step.Spawn? || step.EndSlices? || step.PutDone? || step.Crash? || step.Relaunch? || step.RunCallback?
    ensures Window(After(s, step))
  {
    hide SlicesFirst;
  }

  /** The worker and new events only shrink, or extend at the back, what the window watches. */
  lemma OthersKeepWindow(s: State, step: Step)
    requires Window(s) && Enabled(s, step)
    requires step.Check? || step.TakeNothing? || step.InsertChunk? || step.EndFlush? || step.TakePacket?
    ensures Window(After(s, step))
  {
    hide After, Enabled, Window;
    WorkerLeavesQueues(s, step);
    WindowFollows(s, After(s, step));
  }

  lemma WorkerLeavesQueues(s: State, step: Step)
    requires Enabled(s, step)
    requires step.Check? || step.TakeNothing? || step.InsertChunk? || step.EndFlush? || step.TakePacket?
    ensures SameQueues(s, After(s, step))
  {
    hide Elements, Between, Watermark, SliceEnd;
  }

  /** Nothing the window watches has changed. */
  predicate SameQueues(s: State, t: State) {
    && t.orchestrator == s.orchestrator && t.clock == s.clock && t.live == s.live && t.dropped == s.dropped
    && t.owed == s.owed && t.recorded == s.recorded && t.request == s.request
  }

  lemma WindowFollows(s: State, t: State)
    requires Window(s) && SameQueues(s, t)
    ensures Window(t)
  {}

  lemma TickKeepsWindow(s: State, step: Step)
    requires Window(s) && Enabled(s, step) && step.Tick?
    ensures Window(After(s, step))
  {}

  lemma QueueKeepsWindow(s: State, step: Step)
    requires Window(s) && Enabled(s, step) && (step.Emit? || step.TakeLive?)
    ensures Window(After(s, step))
  {
    hide Elements, Between, Watermark, SliceEnd;
  }

  lemma StepKeepsWindow(s: State, step: Step)
    requires Clocked(s) && Window(s) && Bounded(s) && Handshake(s) && Enabled(s, step)
    ensures Window(After(s, step))
  {
    hide After, Enabled, Window, Clocked, Bounded, Handshake;
    match step
    case StartCycle => CycleOpensWindow(s);
    case ReadWatermark => ReadKeepsWindow(s);
    case Fetch(rows) => FetchKeepsWindow(s, rows);
    case PutSlice => PutKeepsWindow(s);
    case Spawn => OrchestratorKeepsWindow(s, step);
    case EndSlices => OrchestratorKeepsWindow(s, step);
    case PutDone => OrchestratorKeepsWindow(s, step);
    case Crash => OrchestratorKeepsWindow(s, step);
    case Relaunch => OrchestratorKeepsWindow(s, step);
    case RunCallback => OrchestratorKeepsWindow(s, step);
    case Emit(_) => QueueKeepsWindow(s, step);
    case TakeLive(_) => QueueKeepsWindow(s, step);
    case Tick(_) => TickKeepsWindow(s, step);
    case _ => OthersKeepWindow(s, step);
  }

  lemma EmittedByNow(e: Event, clock: int)
    requires InTime(e, clock)
    ensures e.at <= clock && e.time < clock
  {}

  lemma StepKeepsBounded(s: State, step: Step)
    requires Clocked(s) && FrontIsOldest(s) && Window(s) && Bounded(s) && Handshake(s) && Enabled(s, step)
    ensures Bounded(After(s, step))
  {
    hide After, Enabled, Written, Waiting, Handshake, Window, Arrives, FrontIsOldest;
    var s' := After(s, step);
    forall p, x | Written(s', p) && Waiting(s', x) ensures p.time <= x.time + LATE_ARRIVAL_GRACE {
      WrittenMoves(s, step, p);
      WaitingMoves(s, step, x);
      if step.Emit? {
        NoArrivalOnEmit(s, step.e, p);
        EmitIsLate(s, step.e);
      } else if Arrives(s, step, p) {
        ArrivalIsBounded(s, step, p, x);
      }
    }
  }

  lemma EmitIsLate(s: State, e: Event)
    requires Enabled(s, Emit(e))
    ensures s.clock <= e.time + LATE_ARRIVAL_GRACE
  {}

  lemma NoArrivalOnEmit(s: State, e: Event, p: Event)
    requires Enabled(s, Emit(e))
    ensures !Arrives(s, Emit(e), p)
  {}

  /** What arrives is not ahead of what keeps waiting. */
  lemma ArrivalIsBounded(s: State, step: Step, p: Event, x: Event)
    requires Clocked(s) && FrontIsOldest(s) && Window(s) && Handshake(s) && Enabled(s, step)
    requires Arrives(s, step, p) && Waiting(After(s, step), x) && !step.Emit?
    ensures p.time <= x.time + LATE_ARRIVAL_GRACE
  {
    hide Written, Watermark, Between, Elements, SliceEnd;
    WaitingMoves(s, step, x);
    assert x in s.recorded && InTime(x, s.clock);
    match step
    case TakeLive(_) =>
      QueuedIsWaiting(s, 0);
      assert InTime(p, s.clock);
      assert s.owed == {};
      if x in s.live {
        var k :| 0 <= k < |s.live| && s.live[k] == x;
      }
    case PutSlice =>
      ElementsAre(s.orchestrator.rows, x);
    case _ =>
  }

  // ---- Every run --------------------------------------------------------------------------------

  /** Every event so far is written, waiting, or was given up on. */
  ghost predicate Accounted(s: State) {
    forall e :: e in s.recorded ==> Written(s, e) || Waiting(s, e) || e in s.lost
  }

  ghost predicate Invariant(s: State) {
    Handshake(s) && Clocked(s) && FrontIsOldest(s) && Window(s) && Bounded(s) && Accounted(s)
  }

  lemma StepKeepsAccounted(s: State, step: Step)
    requires Accounted(s) && Enabled(s, step)
    ensures Accounted(After(s, step))
  {
    hide Written, Waiting, Arrives;
    var s' := After(s, step);
    forall e | e in s'.recorded ensures Written(s', e) || Waiting(s', e) || e in s'.lost {
      WrittenMoves(s, step, e);
      WaitingMoves(s, step, e);
    }
  }

  lemma StepKeeps(s: State, step: Step)
    requires Invariant(s) && Enabled(s, step)
    ensures Invariant(After(s, step))
  {
    hide After, Enabled, Handshake, Clocked, FrontIsOldest, Window, Bounded, Accounted;
    StepKeepsHandshake(s, step);
    StepKeepsClocks(s, step);
    StepKeepsFront(s, step);
    StepKeepsWindow(s, step);
    StepKeepsBounded(s, step);
    StepKeepsAccounted(s, step);
  }

  lemma {:induction false} RunKeeps(s: State, steps: seq<Step>)
    requires Invariant(s) && Possible(s, steps)
    ensures Invariant(End(s, steps))
    decreases steps
  {
    hide After, Enabled, Invariant;
    if steps != [] {
      StepKeeps(s, steps[0]);
      RunKeeps(After(s, steps[0]), steps[1..]);
    }
  }

  lemma StartIsFine(s: State)
    requires IsStart(s)
    ensures Invariant(s)
  {}

  /** LIVE is quiet and BACKFILL has exactly one mover, on every run of a fresh worker. */
  lemma HandshakeOnEveryRun(s: State, steps: seq<Step>)
    requires IsStart(s) && Possible(s, steps)
    ensures var e := End(s, steps);
            && (e.mode.Live? ==> !e.pendingSet && !e.request && e.orchestrator.Idle? && e.packets == [])
            && (e.mode.Backfill? ==> Tokens(e) == 1)
            && |e.packets| <= BACKFILL_QUEUE_MAXSIZE
  {
    StartIsFine(s);
    HandshakeHolds(s, steps);
  }

  /** Only a watermark read over an empty table gives events up, and it gives up all it owes. */
  lemma LossIsAnEmptyTable(s: State, step: Step)
    requires Enabled(s, step)
    ensures var s' := After(s, step);
            s'.lost == if step.ReadWatermark? && s.stored == {} then s.lost + s.owed else s.lost
    ensures s.stored <= After(s, step).stored
  {
    hide Elements, Between, Watermark, SliceEnd;
  }

  lemma {:induction false} NonEmptyStaysLossless(s: State, steps: seq<Step>)
    requires Possible(s, steps) && s.stored != {} && s.lost == {}
    ensures End(s, steps).lost == {} && s.stored <= End(s, steps).stored
    decreases steps
  {
    hide After, Enabled;
    if steps != [] {
      LossIsAnEmptyTable(s, steps[0]);
      NonEmptyStaysLossless(After(s, steps[0]), steps[1..]);
    }
  }

  /**
   No event is lost: on every run over a table that holds a row, through overflows, crashes and
   relaunches, every event is stored, on its way, queued, or owed by a cycle that will fetch it.
   */
  lemma NoEventIsLost(s: State, steps: seq<Step>)
    requires IsStart(s) && s.stored != {} && Possible(s, steps)
    ensures var e := End(s, steps); forall x :: x in e.recorded ==> Written(e, x) || Waiting(e, x)
  {
    hide Written, Waiting, Handshake, Clocked, FrontIsOldest, Window, Bounded;
    StartIsFine(s);
    RunKeeps(s, steps);
    NonEmptyStaysLossless(s, steps);
  }

  /**
   Stored by BACKFILL_DONE: back in LIVE, nothing is owed any more, so every event is in the
   table or in hand, still queued, or dropped since and about to cause the next cycle.
   */
  lemma LiveOwesNothing(s: State, steps: seq<Step>)
    requires IsStart(s) && s.stored != {} && Possible(s, steps) && End(s, steps).mode.Live?
    ensures var e := End(s, steps);
            && (forall x :: x in e.recorded ==> x in e.stored || x in e.buffer || x in e.live || x in e.dropped)
            && (e.overflowed <==> e.dropped != {})
  {
    hide Clocked, Bounded, Possible, End;
    NoEventIsLost(s, steps);
    StartIsFine(s);
    RunKeeps(s, steps);
    var e := End(s, steps);
    forall x | x in e.recorded ensures x in e.stored || x in e.buffer || x in e.live || x in e.dropped {
      assert Written(e, x) || Waiting(e, x);
    }
  }

  /** The window at every watermark read of every run: it reaches back to everything owed. */
  lemma EveryWindowReachesBack(s: State, steps: seq<Step>)
    requires IsStart(s) && Possible(s, steps)
    requires End(s, steps).orchestrator.Cleared? && End(s, steps).stored != {}
    ensures var e := End(s, steps);
            forall x :: x in e.owed ==>
              Watermark(e.stored) - LATE_ARRIVAL_GRACE <= x.time < e.orchestrator.cutoff
  {
    hide Watermark, Possible, End;
    StartIsFine(s);
    RunKeeps(s, steps);
    WindowReachesBack(End(s, steps));
  }
}
