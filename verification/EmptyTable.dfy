/**
 The one way events are given up: a watermark read over an empty `states` table. What that costs a
 first install, and when any run pays it.
 */
module EmptyTable {
  import opened Ingestion
  import opened NoEventLost

  /** A first install that has not read a watermark yet: every event is queued, dropped or owed. */
  predicate Barren(s: State) {
    && s.stored == {} && s.buffer == [] && s.packets == [] && s.lost == {}
    && !s.mode.Live? && s.phase.Top?
    && (s.orchestrator.NotStarted? || s.orchestrator.Idle? || s.orchestrator.Cleared? || s.orchestrator.Crashed?)
    && s.recorded == Elements(s.live) + s.dropped + s.owed
  }

  lemma ElementsAdd(es: seq<Event>, e: Event)
    ensures Elements(es + [e]) == Elements(es) + {e}
  {}

  lemma EmitStaysBarren(s: State, e: Event)
    requires Barren(s) && Enabled(s, Emit(e))
    ensures Barren(After(s, Emit(e))) && After(s, Emit(e)).owed == s.owed
  {
    ElementsAdd(s.live, e);
  }

  lemma ClearStaysBarren(s: State)
    requires Barren(s) && Enabled(s, StartCycle)
    ensures Barren(After(s, StartCycle)) && After(s, StartCycle).owed == s.recorded
  {}

  lemma OtherStaysBarren(s: State, step: Step)
    requires Barren(s) && Enabled(s, step) && !step.ReadWatermark? && !step.Emit? && !step.StartCycle?
    ensures Barren(After(s, step)) && After(s, step).owed == s.owed
  {
    hide Between, Watermark, SliceEnd, Elements;
    assert step.Tick? || step.Check? || step.RunCallback? || step.Spawn? || step.Crash? || step.Relaunch?;
  }

  lemma StepStaysBarren(s: State, step: Step)
    requires Barren(s) && Enabled(s, step) && !step.ReadWatermark?
    ensures Barren(After(s, step))
    ensures After(s, step).owed == if step.StartCycle? then s.recorded else s.owed
  {
    hide Barren, After, Enabled;
    match step
    case Emit(e) => EmitStaysBarren(s, e);
    case StartCycle => ClearStaysBarren(s);
    case _ => OtherStaysBarren(s, step);
  }

  predicate NoReads(steps: seq<Step>) { forall k :: 0 <= k < |steps| ==> !steps[k].ReadWatermark? }

  predicate NoClears(steps: seq<Step>) { forall k :: 0 <= k < |steps| ==> !steps[k].StartCycle? }

  lemma {:induction false} RunStaysBarren(s: State, steps: seq<Step>)
    requires Barren(s) && Possible(s, steps) && NoReads(steps)
    ensures Barren(End(s, steps))
    ensures NoClears(steps) ==> End(s, steps).owed == s.owed
    decreases steps
  {
    hide Barren, After, Enabled;
    if steps != [] {
      assert !steps[0].ReadWatermark? && (NoClears(steps) ==> !steps[0].StartCycle?);
      StepStaysBarren(s, steps[0]);
      assert NoReads(steps[1..]) && (NoClears(steps) ==> NoClears(steps[1..]));
      RunStaysBarren(After(s, steps[0]), steps[1..]);
    }
  }

  /**
   A first install gives up all it has heard: on every run over an empty table, with crashes and
   relaunches anywhere, the first watermark read finds the table empty, and what it gives up is
   exactly every event emitted before its cycle's clear.
   */
  lemma FirstReadGivesUpEverything(s: State, before: seq<Step>, since: seq<Step>)
    requires IsStart(s) && s.stored == {} && Possible(s, before) && NoReads(before)
    requires Enabled(End(s, before), StartCycle)
    requires Possible(After(End(s, before), StartCycle), since) && NoReads(since) && NoClears(since)
    requires Enabled(End(After(End(s, before), StartCycle), since), ReadWatermark)
    ensures var read := End(After(End(s, before), StartCycle), since);
            read.stored == {} && After(read, ReadWatermark).lost == End(s, before).recorded
  {
    hide Possible, End, Enabled, After;
    assert Barren(s);
    RunStaysBarren(s, before);
    StepStaysBarren(End(s, before), StartCycle);
    RunStaysBarren(After(End(s, before), StartCycle), since);
    var read := End(After(End(s, before), StartCycle), since);
    assert read.stored == {} && read.lost == {} by { BarrenHoldsNothing(read); }
    LossIsAnEmptyTable(read, ReadWatermark);
  }

  lemma BarrenHoldsNothing(s: State)
    requires Barren(s)
    ensures s.stored == {} && s.lost == {}
  {}

  // ---- Any run ------------------------------------------------------------------------------

  /** The k-th step reads a watermark, finds the table empty, and something is owed. */
  ghost predicate GivesUpAt(s: State, steps: seq<Step>, k: nat) {
    && k < |steps| && steps[k].ReadWatermark? && Possible(s, steps[..k])
    && End(s, steps[..k]).stored == {} && End(s, steps[..k]).owed != {}
  }

  lemma GivesUpLater(s: State, steps: seq<Step>, k: nat)
    requires Possible(s, steps) && steps != []
    ensures GivesUpAt(s, steps, k + 1) <==> GivesUpAt(After(s, steps[0]), steps[1..], k)
  {
    hide After, Enabled;
    if k < |steps| - 1 {
      assert steps[..k + 1][0] == steps[0] && steps[..k + 1][1..] == steps[1..][..k];
    }
  }

  /** Over a whole run events are given up iff some step of it reads an empty table owing some. */
  lemma {:induction false} GivenUpExactlyWhen(s: State, steps: seq<Step>)
    requires Possible(s, steps)
    ensures End(s, steps).lost != {} <==> s.lost != {} || exists k: nat :: GivesUpAt(s, steps, k)
    decreases steps
  {
    hide After, Enabled;
    if steps == [] {
      assert forall k: nat :: !GivesUpAt(s, steps, k);
    } else {
      var t, rest := After(s, steps[0]), steps[1..];
      LossIsAnEmptyTable(s, steps[0]);
      assert steps[..0] == [] && End(s, []) == s;
      assert GivesUpAt(s, steps, 0) <==> steps[0].ReadWatermark? && s.stored == {} && s.owed != {};
      forall k: nat ensures GivesUpAt(s, steps, k + 1) <==> GivesUpAt(t, rest, k) { GivesUpLater(s, steps, k); }
      GivenUpExactlyWhen(t, rest);
      GivesUpNowOrLater(s, steps);
    }
  }

  lemma GivesUpNowOrLater(s: State, steps: seq<Step>)
    requires Possible(s, steps) && steps != []
    ensures (exists k: nat :: GivesUpAt(s, steps, k)) <==>
            GivesUpAt(s, steps, 0) || exists k: nat :: GivesUpAt(After(s, steps[0]), steps[1..], k)
  {
    hide GivesUpAt, Enabled, After;
    if k: nat :| GivesUpAt(s, steps, k) {
      if k > 0 { GivesUpLater(s, steps, k - 1); }
    }
    if k: nat :| GivesUpAt(After(s, steps[0]), steps[1..], k) { GivesUpLater(s, steps, k); }
  }

  /** For a fresh worker: nothing is given up unless, and always when, an empty table is read owing. */
  lemma LossOnEveryRun(s: State, steps: seq<Step>)
    requires IsStart(s) && Possible(s, steps)
    ensures End(s, steps).lost != {} <==> exists k: nat :: GivesUpAt(s, steps, k)
    ensures s.stored != {} ==> End(s, steps).lost == {}
  {
    hide After, Enabled, GivesUpAt;
    GivenUpExactlyWhen(s, steps);
    if s.stored != {} { NonEmptyStaysLossless(s, steps); }
  }
}
