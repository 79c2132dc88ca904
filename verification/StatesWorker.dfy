/** The states worker's backfill mode: write each slice, and queue the rollup it lands behind. */
module StatesWorkers {
  import opened Options
  import opened Ingestion
  import opened NoEventLost

  const BATCH_FLUSH_SIZE := 200

  function Times(rows: seq<Event>, rollup: set<string>): set<int> {
    set e | e in rows && e.entity in rollup :: e.time
  }

  /** All rows of the slices before the sentinel. */
  function RowsOf(packets: seq<Packet>): seq<Event> {
    if packets == [] || packets[0].Done? then [] else packets[0].rows + RowsOf(packets[1..])
  }

  ghost predicate IsEarliest(m: Option<int>, times: set<int>) {
    && (m.None? <==> times == {})
    && (m.Some? ==> m.value in times && forall t :: t in times ==> m.value <= t)
  }

  class StatesWorker {
    const rollupEntityIds: set<string>
    var mode: Mode
    var stored: set<Event>
    /** Earliest rollup row written in the current cycle. */
    var backfillRollupFrom: Option<int>
    /** The `from` of every mark-dirty sent, each with an open end. */
    var marks: seq<int>

    constructor (ids: set<string>)
      ensures rollupEntityIds == ids && mode.Init? && stored == {} && backfillRollupFrom == Option.None && marks == []
    {
      rollupEntityIds, mode, stored, backfillRollupFrom, marks := ids, Init, {}, Option.None, [];
    }

    method NoteRollupRows(rows: seq<Event>, ghost before: set<int>)
      requires IsEarliest(backfillRollupFrom, before)
      modifies this`backfillRollupFrom
      ensures IsEarliest(backfillRollupFrom, before + Times(rows, rollupEntityIds))
    {
      assert before + Times([], rollupEntityIds) == before;
      for k := 0 to |rows|
        invariant IsEarliest(backfillRollupFrom, before + Times(rows[..k], rollupEntityIds))
      {
        var e := rows[k];
        assert rows[..k + 1] == rows[..k] + [e];
        assert Times(rows[..k + 1], rollupEntityIds)
            == Times(rows[..k], rollupEntityIds) + (if e.entity in rollupEntityIds then {e.time} else {});
        if e.entity in rollupEntityIds && (backfillRollupFrom.None? || e.time < backfillRollupFrom.value) {
          backfillRollupFrom := Some(e.time);
        }
      }
      assert rows[..|rows|] == rows;
    }

    /**
     MODE_BACKFILL, from the first packet to BACKFILL_DONE: every row of the cycle is written, and
     exactly one mark-dirty follows if any belongs to a rollup entity, from the earliest of them.
     */
    method DrainBackfill(packets: seq<Packet>) returns (used: nat)
      requires mode.Backfill? && backfillRollupFrom.None? && DoneComes(packets)
      modifies this
      ensures used < |packets| && packets[used].Done? && forall k :: 0 <= k < used ==> packets[k].Slice?
      ensures mode.Live? && backfillRollupFrom.None?
      ensures stored == old(stored) + Elements(RowsOf(packets))
      ensures var times := Times(RowsOf(packets), rollupEntityIds);
              if times == {} then marks == old(marks)
              else |marks| == |old(marks)| + 1 && marks[..|old(marks)|] == old(marks)
                   && IsEarliest(Some(marks[|old(marks)|]), times)
    {
      used := 0;
      ghost var seen: seq<Event> := [];
      assert RowsOf(packets[0..]) == RowsOf(packets) by { assert packets[0..] == packets; }
      while packets[used].Slice?
        invariant used < |packets| && mode.Backfill? && marks == old(marks)
        invariant forall k :: 0 <= k < used ==> packets[k].Slice?
        invariant seen + RowsOf(packets[used..]) == RowsOf(packets)
        invariant stored == old(stored) + Elements(seen)
        invariant IsEarliest(backfillRollupFrom, Times(seen, rollupEntityIds))
        decreases |packets| - used
      {
        var rows := packets[used].rows;
        NoteRollupRows(rows, Times(seen, rollupEntityIds));
        stored := stored + Elements(rows);
        assert packets[used..][1..] == packets[used + 1..];
        assert seen + (rows + RowsOf(packets[used + 1..])) == (seen + rows) + RowsOf(packets[used + 1..]);
        TimesAdd(seen, rows, rollupEntityIds);
        seen := seen + rows;
        used := used + 1;
      }
      assert RowsOf(packets[used..]) == [] && seen == RowsOf(packets);
      if backfillRollupFrom.Some? {
        marks := marks + [backfillRollupFrom.value];
        backfillRollupFrom := Option.None;
      }
      mode := Live;
    }
  }

  /**
   The main loop, cut at the points where other threads and the event loop get their turn. Each
   method is one stretch of the loop body, is one step of the ingestion protocol, and keeps its
   invariant: every event is written, on its way, queued, or owed by a backfill cycle.
   */
  class MainLoop {
    var mode: Mode
    var phase: Phase
    var buffer: seq<Event>
    var stored: set<Event>
    var live: seq<Event>
    var overflowed: bool
    var packets: seq<Packet>
    var pendingSet: bool
    /** Everything the worker neither reads nor writes. */
    var world: State

    function View(): State reads this {
      world.(mode := mode, phase := phase, buffer := buffer, stored := stored, live := live,
             overflowed := overflowed, packets := packets, pendingSet := pendingSet)
    }

    /** A fresh worker, over the table it finds. */
    constructor (world: State)
      requires IsStart(world)
      ensures View() == world && Invariant(View())
    {
      this.mode, this.phase, this.buffer, this.stored := Init, Top, [], world.stored;
      this.live, this.overflowed, this.packets, this.pendingSet := [], false, [], false;
      this.world := world;
      new;
      StartIsFine(world);
    }

    /** The other threads and the event loop take their steps; the worker's own fields stay as they are. */
    method Others(steps: seq<Step>)
      requires Invariant(View()) && Possible(View(), steps) && AllForeign(steps)
      modifies `live, `overflowed, `packets, `pendingSet, `world
      ensures View() == End(old(View()), steps) && Invariant(View())
      ensures mode.Live? ==> old(live) <= live
      ensures old(packets) <= packets
    {
      hide Invariant;
      OthersKeep(View(), steps);
      world := End(View(), steps);
      live, overflowed, packets, pendingSet := world.live, world.overflowed, world.packets, world.pendingSet;
    }

    method RequestBackfill()
      modifies `pendingSet, `mode, `phase
      ensures View() == Requesting(old(View()))
    {
      pendingSet := true;
      mode := Backfill;
      phase := Top;
    }

    /**
     Before anything else is taken from the live queue, an overflow leads to a request: the worker
     goes on to the queue only if nothing was dropped.
     */
    method CheckOverflow()
      requires Invariant(View()) && Enabled(View(), Check)
      modifies `pendingSet, `mode, `phase
      ensures View() == After(old(View()), Check) && Invariant(View())
      ensures phase.Getting? ==> !overflowed && world.dropped == {}
      ensures phase.Top? ==> mode.Backfill? && pendingSet && buffer == []
    {
      hide Clocked, Window, Bounded, Accounted, Handshake;
      StepKeeps(View(), Check);
      if mode.Init? || overflowed {
        if buffer != [] { phase := Flushing(true); } else { RequestBackfill(); }
      } else {
        phase := Getting;
      }
    }

    /**
     The queue's get, and the thresholds: a full batch or an elapsed interval flushes. The event
     taken is the oldest queued, and older than every event dropped since.
     */
    method TakeFromLive(elapsed: bool)
      requires Invariant(View()) && Enabled(View(), TakeLive(elapsed || |buffer| + 1 >= BATCH_FLUSH_SIZE))
      modifies `live, `buffer, `phase
      ensures View() == After(old(View()), TakeLive(elapsed || |old(buffer)| + 1 >= BATCH_FLUSH_SIZE))
      ensures Invariant(View()) && buffer == old(buffer) + [old(live)[0]]
      ensures forall x :: x in live || x in world.dropped ==> old(live)[0].at <= x.at
    {
      hide Window, Bounded, Accounted, Handshake, Waiting, Written;
      StepKeeps(View(), TakeLive(elapsed || |buffer| + 1 >= BATCH_FLUSH_SIZE));
      var item := live[0];
      live := live[1..];
      buffer := buffer + [item];
      phase := if |buffer| >= BATCH_FLUSH_SIZE || elapsed then Flushing(false) else Top;
    }

    method TimeOut()
      requires Invariant(View()) && Enabled(View(), TakeNothing)
      modifies `phase
      ensures View() == After(old(View()), TakeNothing) && Invariant(View())
    {
      hide Invariant;
      StepKeeps(View(), TakeNothing);
      phase := Flushing(false);
    }

    method FlushChunk()
      requires Invariant(View()) && Enabled(View(), InsertChunk)
      modifies `stored, `buffer
      ensures View() == After(old(View()), InsertChunk) && Invariant(View())
    {
      hide Invariant;
      StepKeeps(View(), InsertChunk);
      var n := Min(INSERT_CHUNK_SIZE, |buffer|);
      stored := stored + Elements(buffer[..n]);
      buffer := buffer[n..];
    }

    method FlushDone()
      requires Invariant(View()) && Enabled(View(), EndFlush)
      modifies `pendingSet, `mode, `phase
      ensures View() == After(old(View()), EndFlush) && Invariant(View())
    {
      hide Invariant;
      StepKeeps(View(), EndFlush);
      if phase.thenRequest { RequestBackfill(); } else { phase := Top; }
    }

    /**
     A slice is buffered whole; the sentinel leads to LIVE, and by then nothing is owed: every
     event is stored, queued, or dropped since.
     */
    method TakeFromBackfill()
      requires Invariant(View()) && Enabled(View(), TakePacket)
      modifies `packets, `buffer, `phase, `mode
      ensures View() == After(old(View()), TakePacket) && Invariant(View())
      ensures mode.Live? ==> world.owed == {} && packets == [] && buffer == []
    {
      hide Clocked, Bounded, Accounted;
      StepKeeps(View(), TakePacket);
      var item := packets[0];
      packets := packets[1..];
      match item {
        case Slice(rows) =>
          buffer := buffer + rows;
          phase := Flushing(false);
        case Done => mode := Live;
      }
    }

    /**
     A whole flush, others taking their steps before each chunk and before its end: the buffer is in the
     table, in chunks, and the loop moves on.
     */
    method Flush(others: Environment)
      requires Invariant(View()) && phase.Flushing? && Feasible(others)
      modifies this
      ensures Invariant(View())
      ensures buffer == [] && stored == old(stored) + Elements(old(buffer)) && phase == Top
      ensures mode == (if old(phase).thenRequest then Backfill else old(mode))
      ensures old(phase).thenRequest ==> pendingSet
      ensures old(mode).Live? ==> old(live) <= live
      ensures old(packets) <= packets
    {
      hide Invariant, Elements, Feasible, Possible, AllForeign;
      ghost var written: seq<Event> := [];
      assert Elements([]) == {} by { NoElements(); }
      while buffer != []
        invariant Invariant(View())
        invariant phase == old(phase) && mode == old(mode)
        invariant mode.Live? ==> old(live) <= live
        invariant old(packets) <= packets
        invariant written + buffer == old(buffer) && stored == old(stored) + Elements(written)
        decreases |buffer|
      {
        FeasibleHere(others, View());
        Others(others(View()));
        var n := Min(INSERT_CHUNK_SIZE, |buffer|);
        assert buffer == buffer[..n] + buffer[n..];
        assert written + buffer == (written + buffer[..n]) + buffer[n..];
        TimesAdd(written, buffer[..n], {});
        assert stored + Elements(buffer[..n]) == old(stored) + Elements(written + buffer[..n]);
        written := written + buffer[..n];
        FlushChunk();
      }
      assert written == old(buffer);
      FeasibleHere(others, View());
      Others(others(View()));
      FlushDone();
    }

    /** The get with its timeout: what is taken is the oldest queued event, and the loop then flushes or not. */
    method GetFromLive(elapsed: bool) returns (ghost taken: seq<Event>)
      requires Invariant(View()) && phase.Getting?
      modifies `live, `buffer, `phase
      ensures Invariant(View()) && (phase.Top? || phase == Flushing(false))
      ensures |taken| <= 1 && taken + live == old(live) && (taken == [] ==> old(live) == [] && phase.Flushing?)
      ensures buffer == old(buffer) + taken
    {
      hide Invariant;
      taken := [];
      if live == [] {
        TimeOut();
        assert buffer + [] == buffer;
      } else {
        taken := [live[0]];
        TakeFromLive(elapsed);
      }
    }

    /**
     One turn of the loop in INIT or LIVE, others taking their steps at every point between the worker's.
     An overflow ends it in BACKFILL with everything in hand stored and the request sent; otherwise the
     oldest queued event, if there is one by then, is in hand or stored, and an idle queue leaves nothing
     in hand.
     */
    method LiveTurn(elapsed: bool, others: Environment) returns (ghost taken: seq<Event>)
      requires Invariant(View()) && phase.Top? && !mode.Backfill? && Feasible(others)
      modifies this
      ensures Invariant(View()) && phase.Top?
      ensures old(overflowed || mode.Init?) ==>
                mode.Backfill? && pendingSet && buffer == [] && stored == old(stored) + Elements(old(buffer))
      ensures !old(overflowed || mode.Init?) ==>
                && mode.Live? && old(live) <= taken + live && |taken| <= 1
                && stored + Elements(buffer) == old(stored) + Elements(old(buffer) + taken)
                && (old(live) != [] ==> taken != [])
                && (taken == [] ==> buffer == [])
    {
      hide Invariant, Feasible, Possible, AllForeign, Elements;
      taken := [];
      CheckOverflow();
      NoElements();
      assert old(stored) + {} == old(stored) && old(buffer) + [] == old(buffer);
      if phase.Flushing? {
        Flush(others);
      } else if phase.Getting? {
        FeasibleHere(others, View());
        Others(others(View()));
        ghost var queued := live;
        taken := GetFromLive(elapsed);
        assert taken + live == queued;
        if phase.Flushing? { Flush(others); }
      }
    }

    /** One turn in BACKFILL with a packet waiting: its rows are stored, or the cycle is over. */
    method BackfillTurn(others: Environment)
      requires Invariant(View()) && Enabled(View(), TakePacket) && Feasible(others)
      modifies this
      ensures Invariant(View()) && phase.Top? && old(packets)[1..] <= packets && buffer == []
      ensures old(packets)[0].Slice? ==> mode.Backfill? && stored == old(stored) + Elements(old(packets)[0].rows)
      ensures old(packets)[0].Done? ==> mode.Live? && stored == old(stored) && world.owed == {}
    {
      hide Clocked, Bounded, Accounted, Window, Feasible;
      assert buffer == [];
      TakeFromBackfill();
      if phase.Flushing? { Flush(others); }
    }
  }

  predicate AllForeign(steps: seq<Step>) { forall k :: 0 <= k < |steps| ==> Foreign(steps[k]) }

  /** What the other threads and the event loop do when they get their turn. */
  type Environment = State -> seq<Step>

  ghost predicate Feasible(others: Environment) {
    forall s :: Possible(s, others(s)) && AllForeign(others(s))
  }

  lemma FeasibleHere(others: Environment, s: State)
    requires Feasible(others)
    ensures Possible(s, others(s)) && AllForeign(others(s))
  {}

  /** The other threads cannot take from the live queue while the worker is in LIVE. */
  lemma OtherKeeps(s: State, step: Step)
    requires Invariant(s) && Enabled(s, step) && Foreign(step)
    ensures Invariant(After(s, step))
    ensures var t := After(s, step);
            && t.mode == s.mode && t.phase == s.phase && t.buffer == s.buffer && t.stored == s.stored
            && s.packets <= t.packets && (s.mode.Live? ==> s.live <= t.live)
  {
    hide Clocked, Bounded, Accounted, Window, SlicesFirst, Between, Watermark;
    StepKeeps(s, step);
  }

  lemma {:induction false} OthersKeep(s: State, steps: seq<Step>)
    requires Invariant(s) && Possible(s, steps) && AllForeign(steps)
    ensures Invariant(End(s, steps))
    ensures var t := End(s, steps);
            && t.mode == s.mode && t.phase == s.phase && t.buffer == s.buffer && t.stored == s.stored
            && s.packets <= t.packets && (s.mode.Live? ==> s.live <= t.live)
    decreases steps
  {
    hide Invariant, After, Enabled, Foreign;
    if steps != [] {
      OtherKeeps(s, steps[0]);
      OthersKeep(After(s, steps[0]), steps[1..]);
    }
  }

  lemma TimesAdd(xs: seq<Event>, ys: seq<Event>, rollup: set<string>)
    ensures Times(xs + ys, rollup) == Times(xs, rollup) + Times(ys, rollup)
    ensures Elements(xs + ys) == Elements(xs) + Elements(ys)
  {}

  lemma NoElements()
    ensures Elements([]) == {}
  {}
}
