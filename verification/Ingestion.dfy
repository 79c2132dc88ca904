/**
 The ingestion protocol: state events on the event loop, a bounded dropping queue, the states
 worker's three modes, and the backfill orchestrator that refills from Home Assistant's own
 recorder. Threads and tasks interleave between the steps below; each step is atomic because
 it holds the queue's lock, commits one transaction, or runs on the loop without awaiting.
 */
module Ingestion {
  import opened Options

  const LIVE_QUEUE_MAXSIZE := 10000
  const BACKFILL_QUEUE_MAXSIZE := 2
  const INSERT_CHUNK_SIZE := 200
  const SLICE_WINDOW := 300_000_000
  const LATE_ARRIVAL_GRACE := 600_000_000
  const RECORDER_COMMIT_LAG := 5_000_000

  /** A state change: `time` is last_updated, `at` the instant its callback ran. */
  datatype Event = Event(entity: string, time: int, at: int)

  datatype Packet = Slice(rows: seq<Event>) | Done

  datatype Mode = Init | Backfill | Live

  /** Where the worker is in its loop; a flush before a backfill request ends in the request. */
  datatype Phase = Top | Getting | Flushing(thenRequest: bool)

  /** The orchestrator, by what it awaits next. `from` is the next slice's start. */
  datatype Orchestrator =
    | NotStarted
    | Idle
    | Cleared(cutoff: int)
    | Slicing(from: int, cutoff: int)
    | Holding(from: int, end: int, cutoff: int, rows: seq<Event>)
    | Finishing
    | Crashed

  /**
   `recorded` is the recorder: every event so far. `dropped` are the events refused by the full
   queue since it was last cleared, `owed` those dropped or cleared before the current cycle and
   not yet handed to the worker, `lost` those given up on: no cycle owes them any more, though a later
   window may happen to reach back to them. The three are history.
   */
  datatype State = State(
    clock: int, recorded: set<Event>,
    live: seq<Event>, overflowed: bool, dropped: set<Event>,
    mode: Mode, phase: Phase, buffer: seq<Event>, stored: set<Event>,
    pendingSet: bool, request: bool, orchestrator: Orchestrator, packets: seq<Packet>,
    owed: set<Event>, lost: set<Event>)

  datatype Step =
    | Tick(us: nat)
    | Emit(e: Event)
    | Check                  // loop top in INIT or LIVE
    | TakeLive(flush: bool)
    | TakeNothing            // get() timed out
    | InsertChunk
    | EndFlush
    | TakePacket
    | RunCallback            // the event loop runs the worker's backfill_request.set
    | Spawn                  // Home Assistant has started
    | StartCycle
    | ReadWatermark
    | Fetch(rows: seq<Event>)
    | PutSlice
    | EndSlices
    | PutDone
    | Crash
    | Relaunch

  function Elements(es: seq<Event>): set<Event> { set e | e in es }

  predicate Busy(o: Orchestrator) { !o.NotStarted? && !o.Idle? }

  predicate Running(o: Orchestrator) { Busy(o) && !o.Crashed? }

  function SliceEnd(from: int, cutoff: int): int { Min(from + SLICE_WINDOW, cutoff) }

  /** Recorder rows with last_updated in [from, end). */
  function Between(s: State, from: int, end: int): set<Event> {
    set e | e in s.recorded && from <= e.time < end
  }

  predicate Enabled(s: State, step: Step) {
    match step
    case Tick(_) => true
    case Emit(e) => e.at == s.clock && e.time < s.clock <= e.time + LATE_ARRIVAL_GRACE
    case Check => s.phase.Top? && !s.mode.Backfill?
    case TakeLive(_) => s.phase.Getting? && s.live != []
    case TakeNothing => s.phase.Getting? && s.live == []
    case InsertChunk => s.phase.Flushing? && s.buffer != []
    case EndFlush => s.phase.Flushing? && s.buffer == []
    case TakePacket => s.phase.Top? && s.mode.Backfill? && s.packets != []
    case RunCallback => s.pendingSet
    case Spawn => s.orchestrator.NotStarted?
    case StartCycle => s.orchestrator.Idle? && s.request
    case ReadWatermark => s.orchestrator.Cleared?
    case Fetch(rows) =>
      && s.orchestrator.Slicing? && s.orchestrator.from < s.orchestrator.cutoff
      && var end := SliceEnd(s.orchestrator.from, s.orchestrator.cutoff);
         s.clock >= end + RECORDER_COMMIT_LAG && Elements(rows) == Between(s, s.orchestrator.from, end)
    case PutSlice => s.orchestrator.Holding? && |s.packets| < BACKFILL_QUEUE_MAXSIZE
    case EndSlices => s.orchestrator.Slicing? && s.orchestrator.from >= s.orchestrator.cutoff
    case PutDone => s.orchestrator.Finishing? && |s.packets| < BACKFILL_QUEUE_MAXSIZE
    case Crash => Running(s.orchestrator)
    case Relaunch => s.orchestrator.Crashed?
  }

  /** call_soon_threadsafe(backfill_request.set), then MODE_BACKFILL. */
  function Requesting(s: State): State { s.(pendingSet := true, mode := Backfill, phase := Top) }

  /** MAX(last_updated) */
  function Watermark(stored: set<Event>): (w: int)
    requires stored != {}
    ensures (forall e :: e in stored ==> e.time <= w) && exists e :: e in stored && e.time == w
  {
    LatestExists(stored);
    var e :| e in stored && forall f :: f in stored ==> f.time <= e.time;
    e.time
  }

  lemma {:induction false} LatestExists(stored: set<Event>)
    requires stored != {}
    ensures exists e :: e in stored && forall f :: f in stored ==> f.time <= e.time
    decreases |stored|
  {
    var e := AnyOf(stored);
    if stored != {e} {
      LatestExists(stored - {e});
      var m :| m in stored - {e} && forall f :: f in stored - {e} ==> f.time <= m.time;
      var best := if e.time <= m.time then m else e;
      assert forall f :: f in stored ==> f == e || f in stored - {e};
      assert best in stored && forall f :: f in stored ==> f.time <= best.time;
    }
  }

  function After(s: State, step: Step): State
    requires Enabled(s, step)
  {
    match step
    case Tick(us) => s.(clock := s.clock + us)
    case Emit(e) =>
      if |s.live| < LIVE_QUEUE_MAXSIZE then s.(recorded := s.recorded + {e}, live := s.live + [e])
      else s.(recorded := s.recorded + {e}, overflowed := true, dropped := s.dropped + {e})
    case Check =>
      if s.mode.Init? || s.overflowed
      then (if s.buffer != [] then s.(phase := Flushing(true)) else Requesting(s))
      else s.(phase := Getting)
    case TakeLive(flush) =>
      s.(live := s.live[1..], buffer := s.buffer + [s.live[0]], phase := if flush then Flushing(false) else Top)
    case TakeNothing => s.(phase := Flushing(false))
    case InsertChunk =>
      var n := Min(INSERT_CHUNK_SIZE, |s.buffer|);
      s.(stored := s.stored + Elements(s.buffer[..n]), buffer := s.buffer[n..])
    case EndFlush => if s.phase.thenRequest then Requesting(s) else s.(phase := Top)
    case TakePacket =>
      var rest := s.packets[1..];
      (match s.packets[0]
       case Slice(rows) => s.(packets := rest, buffer := s.buffer + rows, phase := Flushing(false))
       case Done => s.(packets := rest, mode := Live))
    case RunCallback => s.(pendingSet := false, request := true)
    case Spawn => s.(orchestrator := Idle)
    case StartCycle =>
      s.(request := false, orchestrator := Cleared(s.clock), live := [], overflowed := false, dropped := {},
         owed := s.owed + s.dropped + Elements(s.live))
    case ReadWatermark =>
      if s.stored == {} then s.(orchestrator := Finishing, lost := s.lost + s.owed, owed := {})
      else s.(orchestrator := Slicing(Watermark(s.stored) - LATE_ARRIVAL_GRACE, s.orchestrator.cutoff))
    case Fetch(rows) =>
      var o := s.orchestrator;
      s.(orchestrator := Holding(o.from, SliceEnd(o.from, o.cutoff), o.cutoff, rows))
    case PutSlice =>
      var o := s.orchestrator;
      s.(orchestrator := Slicing(o.end, o.cutoff), packets := s.packets + [Slice(o.rows)],
         owed := s.owed - Elements(o.rows))
    case EndSlices => s.(orchestrator := Finishing)
    case PutDone => s.(orchestrator := Idle, packets := s.packets + [Done])
    case Crash => s.(orchestrator := Crashed)
    case Relaunch => s.(orchestrator := Idle, request := s.request || s.mode.Backfill?)
  }

  /** A fresh worker over a table that may already hold rows, none of them from the future. */
  predicate IsStart(s: State) {
    && s.live == [] && !s.overflowed && s.dropped == {} && s.recorded == {}
    && s.mode.Init? && s.phase.Top? && s.buffer == [] && (forall e :: e in s.stored ==> e.time < s.clock)
    && !s.pendingSet && !s.request && s.orchestrator.NotStarted? && s.packets == []
    && s.owed == {} && s.lost == {}
  }

  predicate Possible(s: State, steps: seq<Step>)
    decreases steps
  {
    steps == [] || (Enabled(s, steps[0]) && Possible(After(s, steps[0]), steps[1..]))
  }

  function End(s: State, steps: seq<Step>): State
    requires Possible(s, steps)
    decreases steps
  {
    if steps == [] then s else End(After(s, steps[0]), steps[1..])
  }

  // ---- The handshake --------------------------------------------------------------------------

  predicate DoneComes(q: seq<Packet>) { q != [] && q[|q| - 1].Done? }

  /** Only the last packet can be BACKFILL_DONE. */
  predicate SlicesFirst(q: seq<Packet>) { forall k :: 0 <= k < |q| - 1 ==> q[k].Slice? }

  /** Who is to move next in a backfill: the loop, the orchestrator, the relaunch, or the worker. */
  function Tokens(s: State): nat {
    (if s.pendingSet then 1 else 0) + (if s.request then 1 else 0)
    + (if Busy(s.orchestrator) then 1 else 0) + (if DoneComes(s.packets) then 1 else 0)
  }

  predicate Handshake(s: State) {
    && |s.packets| <= BACKFILL_QUEUE_MAXSIZE
    && SlicesFirst(s.packets)
    && (if s.mode.Backfill? then Tokens(s) == 1 && !s.phase.Getting? && s.phase != Flushing(true)
        else Tokens(s) == 0 && s.packets == [])
    && (s.mode.Init? ==> s.phase.Top? && s.buffer == [])
    && (s.mode.Live? || DoneComes(s.packets) ==> !s.orchestrator.NotStarted?)
    && (s.mode.Backfill? && s.phase.Top? ==> s.buffer == [])
    && (s.phase == Flushing(true) ==> s.mode.Live?)
  }

  /** Steps that are not the worker's. */
  predicate Foreign(step: Step) { Elsewhere(step) || step.PutSlice? || step.PutDone? }

  /** Steps that move neither the worker nor the backfill queue. */
  predicate Elsewhere(step: Step) {
    step.Tick? || step.Emit? || step.RunCallback? || step.Spawn? || step.StartCycle? || step.ReadWatermark?
    || step.Fetch? || step.EndSlices? || step.Crash? || step.Relaunch?
  }

  lemma ElsewhereKeepsHandshake(s: State, step: Step)
    requires Handshake(s) && Enabled(s, step) && Elsewhere(step)
    ensures Handshake(After(s, step))
  {
    hide Elements, Between, Watermark, SliceEnd, SlicesFirst;
  }

  lemma WorkerKeepsHandshake(s: State, step: Step)
    requires Handshake(s) && Enabled(s, step)
    requires step.Check? || step.TakeLive? || step.TakeNothing? || step.InsertChunk? || step.EndFlush?
    ensures Handshake(After(s, step))
  {
    hide Elements, Between, Watermark, SliceEnd, SlicesFirst;
  }

  lemma PacketsKeepHandshake(s: State, step: Step)
    requires Handshake(s) && Enabled(s, step) && (step.TakePacket? || step.PutSlice? || step.PutDone?)
    ensures Handshake(After(s, step))
  {
    hide Elements, Between, Watermark, SliceEnd;
  }

  lemma StepKeepsHandshake(s: State, step: Step)
    requires Handshake(s) && Enabled(s, step)
    ensures Handshake(After(s, step))
  {
    hide Handshake, Enabled, After;
    if Elsewhere(step) {
      ElsewhereKeepsHandshake(s, step);
    } else if step.TakePacket? || step.PutSlice? || step.PutDone? {
      PacketsKeepHandshake(s, step);
    } else {
      WorkerKeepsHandshake(s, step);
    }
  }

  /**
   The handshake: in LIVE no request is pending, the orchestrator is idle and its queue is
   empty; in BACKFILL exactly one party is to move.
   */
  lemma {:induction false} HandshakeHolds(s: State, steps: seq<Step>)
    requires Handshake(s) && Possible(s, steps)
    ensures var e := End(s, steps);
            && Handshake(e)
            && (e.mode.Live? ==> !e.pendingSet && !e.request && e.orchestrator.Idle? && e.packets == [])
            && (e.mode.Backfill? ==> Tokens(e) == 1)
    decreases steps
  {
    hide After, Enabled;
    if steps != [] {
      StepKeepsHandshake(s, steps[0]);
      HandshakeHolds(After(s, steps[0]), steps[1..]);
    }
  }
}
