/**
 The hand-off from registry event callbacks to the file queue: a buffer the callbacks append
 to, one drain task that moves it in batches, and a shutdown that must neither lose the batch
 in flight nor write it twice. Awaits are the points where other steps interleave.
 */
module RegistryListeners {
  import opened Options

  datatype Progress = Running | Succeeded | Failed

  /** The append task in the executor, and the batch it carries. */
  datatype Append<T> = Append(batch: seq<T>, progress: Progress)

  /** Where the drain task is, then where async_stop is. */
  datatype Phase = Waiting | Flushing | Backoff | Settling | Stopping | FinalFlush | LastResort | Stopped

  /** `persisted` is the queue file; `events` is history: everything ever buffered, in order. */
  datatype State<T> = State(
    buffer: seq<T>, ready: bool, inflight: Option<Append<T>>, phase: Phase,
    persisted: seq<T>, events: seq<T>)

  datatype Step<T> =
    | Event(items: seq<T>)    // a callback, or the snapshot's single buffer append
    | TakeBatch               // _flush_buffer up to its await
    | AppendEnds(ok: bool)    // the executor
    | Resume                  // _flush_buffer after its await
    | Wake                    // the backoff sleep ends
    | Cancel                  // async_stop unsubscribes and cancels the drain task
    | Settle                  // _settle_inflight
    | AppendBlocking(ok: bool)

  predicate Subscribed(p: Phase) { p == Waiting || p == Flushing || p == Backoff }

  predicate Enabled<T>(s: State<T>, e: Step<T>) {
    match e
    case Event(items) => Subscribed(s.phase)
    case TakeBatch => (s.phase == Waiting && s.ready) || s.phase == Stopping
    case AppendEnds(_) => s.inflight.Some? && s.inflight.value.progress == Running
    case Resume =>
      (s.phase == Flushing || s.phase == FinalFlush) && s.inflight.Some? && s.inflight.value.progress != Running
    case Wake => s.phase == Backoff
    case Cancel => Subscribed(s.phase)
    case Settle => s.phase == Settling && (s.inflight.None? || s.inflight.value.progress != Running)
    case AppendBlocking(_) => s.phase == LastResort
  }

  /** The failed batch goes back to the front. */
  function Requeued<T>(s: State<T>): State<T>
    requires s.inflight.Some?
  {
    if s.inflight.value.progress == Failed
    then s.(buffer := s.inflight.value.batch + s.buffer, ready := true, inflight := Option.None)
    else s.(inflight := Option.None)
  }

  function After<T>(s: State<T>, e: Step<T>): State<T>
    requires Enabled(s, e)
  {
    match e
    case Event(items) => s.(buffer := s.buffer + items, ready := true, events := s.events + items)
    case TakeBatch =>
      var final := s.phase == Stopping;
      if s.buffer == [] then s.(ready := false, phase := if final then Stopped else Waiting)
      else s.(buffer := [], ready := false, inflight := Some(Append(s.buffer, Running)),
              phase := if final then FinalFlush else Flushing)
    case AppendEnds(ok) =>
      s.(inflight := Some(Append(s.inflight.value.batch, if ok then Succeeded else Failed)),
         persisted := if ok then s.persisted + s.inflight.value.batch else s.persisted)
    case Resume =>
      var failed := s.inflight.value.progress == Failed;
      Requeued(s).(phase := if s.phase == Flushing then (if failed then Backoff else Waiting)
                            else (if failed then LastResort else Stopped))
    case Wake => s.(phase := Waiting)
    case Cancel => s.(phase := Settling)
    case Settle => (if s.inflight.Some? then Requeued(s) else s).(phase := Stopping)
    case AppendBlocking(ok) =>
      if ok then s.(persisted := s.persisted + s.buffer, buffer := [], phase := Stopped) else s.(phase := Stopped)
  }

  function Start<T>(): State<T> { State([], false, Option.None, Waiting, [], []) }

  predicate Possible<T>(s: State<T>, steps: seq<Step<T>>)
    decreases steps
  {
    steps == [] || (Enabled(s, steps[0]) && Possible(After(s, steps[0]), steps[1..]))
  }

  function End<T>(s: State<T>, steps: seq<Step<T>>): State<T>
    requires Possible(s, steps)
    decreases steps
  {
    if steps == [] then s else End(After(s, steps[0]), steps[1..])
  }

  // ---- Conservation ------------------------------------------------------------------------

  /** The batch whose append has not reached the file, or has failed to. */
  function Unresolved<T>(s: State<T>): seq<T> {
    if s.inflight.Some? && s.inflight.value.progress != Succeeded then s.inflight.value.batch else []
  }

  ghost predicate Conserves<T>(s: State<T>) { s.persisted + Unresolved(s) + s.buffer == s.events }

  /** A buffered item always has somebody on the way to it. */
  ghost predicate Invariant<T>(s: State<T>) {
    && Conserves(s)
    && (s.phase == Flushing || s.phase == FinalFlush ==> s.inflight.Some?)
    && (s.phase == Waiting || s.phase == Backoff || s.phase == Stopping || s.phase == LastResort || s.phase == Stopped
        ==> s.inflight.None?)
    && (s.buffer != [] && Subscribed(s.phase) ==> s.ready)
    && (s.phase == FinalFlush ==> s.buffer == [])
    && (s.inflight.Some? ==> s.inflight.value.batch != [])
  }

  lemma StepConserves<T>(s: State<T>, e: Step<T>)
    requires Invariant(s) && Enabled(s, e)
    ensures Invariant(After(s, e))
    ensures s.persisted <= After(s, e).persisted
  {
    hide Requeued;
    match e
    case Event(items) =>
      assert s.persisted + Unresolved(s) + (s.buffer + items) == s.persisted + Unresolved(s) + s.buffer + items;
    case TakeBatch =>
      assert s.persisted + [] + s.buffer == s.persisted + s.buffer + [];
    case AppendEnds(ok) => AppendConserves(s, ok);
    case Resume => OutcomeConserves(s, e);
    case Settle => OutcomeConserves(s, e);
    case AppendBlocking(ok) =>
      assert s.persisted + [] + s.buffer == (s.persisted + s.buffer) + [] + [];
    case _ =>
  }

  lemma OutcomeConserves<T>(s: State<T>, e: Step<T>)
    requires Invariant(s) && Enabled(s, e) && (e.Resume? || e.Settle?)
    ensures Invariant(After(s, e)) && After(s, e).persisted == s.persisted
  {
    if s.inflight.Some? { RequeueConserves(s); }
  }

  lemma AppendConserves<T>(s: State<T>, ok: bool)
    requires Invariant(s) && Enabled(s, AppendEnds(ok))
    ensures Invariant(After(s, AppendEnds(ok))) && s.persisted <= After(s, AppendEnds(ok)).persisted
  {
    var b := s.inflight.value.batch;
    assert s.persisted + b + s.buffer == (s.persisted + b) + [] + s.buffer;
  }

  lemma RequeueConserves<T>(s: State<T>)
    requires s.inflight.Some? && s.inflight.value.progress != Running && Conserves(s)
    ensures Conserves(Requeued(s))
  {
    var b := s.inflight.value.batch;
    assert s.persisted + b + s.buffer == s.persisted + [] + (b + s.buffer);
  }

  lemma {:induction false} RunConserves<T>(s: State<T>, steps: seq<Step<T>>)
    requires Invariant(s) && Possible(s, steps)
    ensures Invariant(End(s, steps)) && s.persisted <= End(s, steps).persisted
    decreases steps
  {
    hide Invariant, After;
    if steps != [] {
      StepConserves(s, steps[0]);
      RunConserves(After(s, steps[0]), steps[1..]);
    }
  }

  /**
   Events are conserved: on every run, through append failures, cancellation during an append,
   settling and stop, the file, the unresolved batch and the buffer together are exactly the
   events in order. What reached the file stays a prefix of it.
   */
  lemma EventsAreConserved<T>(steps: seq<Step<T>>)
    requires Possible(Start(), steps)
    ensures var s := End(Start(), steps);
            && s.persisted + Unresolved(s) + s.buffer == s.events && s.persisted <= s.events
  {
    RunConserves(Start(), steps);
  }

  /** After the last step of a stop, everything is on disk, unless the last-resort append failed. */
  lemma StopLosesNothing<T>(steps: seq<Step<T>>)
    requires Possible(Start(), steps) && End(Start(), steps).phase == Stopped
    ensures var s := End(Start(), steps);
            && s.persisted + s.buffer == s.events
            && (steps != [] && steps[|steps| - 1] != AppendBlocking(false) ==> s.persisted == s.events)
  {
    RunConserves(Start(), steps);
    var s := End(Start(), steps);
    assert s.persisted + [] + s.buffer == s.persisted + s.buffer;
    if steps != [] && steps[|steps| - 1] != AppendBlocking(false) { EmptyAtStop(Start(), steps); }
  }

  lemma {:induction false} EmptyAtStop<T>(s: State<T>, steps: seq<Step<T>>)
    requires Invariant(s) && Possible(s, steps) && steps != [] && End(s, steps).phase == Stopped
    requires steps[|steps| - 1] != AppendBlocking(false)
    ensures End(s, steps).buffer == []
    decreases steps
  {
    StepConserves(s, steps[0]);
    if |steps| == 1 {
      assert End(s, steps) == After(s, steps[0]) by {
        assert steps[1..] == [];
      }
    } else {
      assert steps[1..][|steps| - 2] == steps[|steps| - 1];
      EmptyAtStop(After(s, steps[0]), steps[1..]);
    }
  }

  // ---- Progress ------------------------------------------------------------------------------

  /** How far a batch is from its next append, while nothing fails. */
  function Distance<T>(s: State<T>): nat {
    match s.phase
    case Backoff => 6
    case Waiting => if s.buffer == [] then 0 else 4
    case Flushing =>
      if s.inflight.None? then 0
      else (match s.inflight.value.progress case Running => 3 case Succeeded => 5 case Failed => 7)
    case _ => 0
  }

  /**
   Nothing buffered is ever stranded: while subscribed, unpersisted events always leave a step of
   the listener or the executor enabled. A successful append brings the file closer to the events;
   every other one of these steps leaves the file alone and comes strictly closer to an append.
   */
  lemma NothingIsStranded<T>(s: State<T>)
    requires Invariant(s) && Subscribed(s.phase) && s.persisted != s.events
    ensures Enabled(s, Wake) || Enabled(s, TakeBatch) || Enabled(s, AppendEnds(true)) || Enabled(s, Resume)
    ensures Enabled(s, Wake) ==> Distance(After(s, Wake)) < Distance(s)
    ensures Enabled(s, TakeBatch) ==> Distance(After(s, TakeBatch)) < Distance(s)
    ensures Enabled(s, Resume) ==> Distance(After(s, Resume)) < Distance(s)
    ensures Enabled(s, AppendEnds(true)) ==> |After(s, AppendEnds(true)).persisted| > |s.persisted|
  {
    assert s.persisted + [] + [] == s.persisted;
  }

  // ---- The object ------------------------------------------------------------------------------

  class RegistryListener<T(==)> {
    var buffer: seq<T>
    var ready: bool
    var inflight: Option<Append<T>>
    var phase: Phase
    var persisted: seq<T>
    ghost var events: seq<T>

    ghost function View(): State<T> reads this { State(buffer, ready, inflight, phase, persisted, events) }

    constructor ()
      ensures View() == Start()
    {
      buffer, ready, inflight, phase, persisted, events := [], false, Option.None, Waiting, [], [];
    }

    /** _enqueue, and enqueue_snapshot's extend: synchronous, so nothing interleaves. */
    method Enqueue(items: seq<T>)
      requires Invariant(View()) && Subscribed(phase)
      modifies this
      ensures View() == After(old(View()), Event(items))
      ensures Invariant(View()) && events == old(events) + items && persisted == old(persisted)
    {
      StepConserves(View(), Event(items));
      buffer := buffer + items;
      ready := true;
      events := events + items;
    }

    /** Everything not yet in flight or on disk is now in flight, in order. */
    method TakeBatch()
      requires Invariant(View()) && Enabled(View(), Step.TakeBatch)
      modifies this
      ensures View() == After(old(View()), Step.TakeBatch)
      ensures Invariant(View()) && buffer == [] && persisted == old(persisted)
      ensures persisted + Unresolved(View()) == events
    {
      StepConserves(View(), Step.TakeBatch);
      var batch := buffer;
      buffer := [];
      ready := false;
      if batch == [] {
        phase := if phase == Stopping then Stopped else Waiting;
        return;
      }
      inflight := Some(Append(batch, Running));
      phase := if phase == Stopping then FinalFlush else Flushing;
    }

    /** The executor's append ends. */
    method EndAppend(ok: bool)
      requires Invariant(View()) && Enabled(View(), AppendEnds(ok))
      modifies this
      ensures View() == After(old(View()), AppendEnds(ok))
      ensures Invariant(View()) && old(persisted) <= persisted
    {
      StepConserves(View(), AppendEnds(ok));
      var batch := inflight.value.batch;
      if ok { persisted := persisted + batch; }
      inflight := Some(Append(batch, if ok then Succeeded else Failed));
    }

    method Requeue(batch: seq<T>)
      modifies this
      ensures buffer == batch + old(buffer) && ready
      ensures inflight == old(inflight) && phase == old(phase) && persisted == old(persisted) && events == old(events)
    {
      buffer := batch + buffer;
      ready := true;
    }

    /** Nothing is in flight any more: what is not on disk is back in the buffer, in order. */
    method Resume()
      requires Invariant(View()) && Enabled(View(), Step.Resume)
      modifies this
      ensures View() == After(old(View()), Step.Resume)
      ensures Invariant(View()) && inflight == Option.None && persisted == old(persisted)
      ensures persisted + buffer == events
    {
      StepConserves(View(), Step.Resume);
      var append := inflight.value;
      inflight := Option.None;
      if append.progress == Failed { Requeue(append.batch); }
      phase := if phase == Flushing then (if append.progress == Failed then Backoff else Waiting)
               else (if append.progress == Failed then LastResort else Stopped);
      assert persisted + [] + buffer == persisted + buffer;
    }

    /** The same for an append the cancelled drainer left behind. */
    method SettleInflight()
      requires Invariant(View()) && Enabled(View(), Settle)
      modifies this
      ensures View() == After(old(View()), Settle)
      ensures Invariant(View()) && inflight == Option.None && persisted == old(persisted)
      ensures persisted + buffer == events
    {
      StepConserves(View(), Settle);
      var held := inflight;
      inflight := Option.None;
      if held.Some? && held.value.progress == Failed { Requeue(held.value.batch); }
      phase := Stopping;
      assert persisted + [] + buffer == persisted + buffer;
    }

    /** `ok` is whether the blocking put_many raised. Nothing is lost to memory either way. */
    method FlushBufferBlocking(ok: bool)
      requires Invariant(View()) && Enabled(View(), AppendBlocking(ok))
      modifies this
      ensures View() == After(old(View()), AppendBlocking(ok))
      ensures Invariant(View()) && persisted + buffer == events && old(persisted) <= persisted
      ensures ok ==> persisted == events
      ensures !ok ==> persisted == old(persisted) && buffer == old(buffer)
    {
      StepConserves(View(), AppendBlocking(ok));
      var batch := buffer;
      buffer := [];
      phase := Stopped;
      if ok { persisted := persisted + batch; } else { buffer := batch; }
      assert old(persisted) + [] == old(persisted);
      assert persisted + [] + buffer == persisted + buffer;
      assert ok ==> persisted + [] == persisted;
    }

    /**
     One pass of the drain loop, while `during` and then `after` arrive: before and after the append
     ends. A successful append leaves every event from before the pass on disk, and the arrivals in the
     buffer; a failed one leaves the file as it was and all the rest in the buffer, to be retried.
     */
    method DrainPass(during: seq<T>, after: seq<T>, ok: bool)
      requires Invariant(View()) && phase == Waiting && ready && buffer != []
      modifies this
      ensures Invariant(View()) && events == old(events) + during + after
      ensures ok ==> phase == Waiting && persisted == old(events) && buffer == during + after
      ensures !ok ==> phase == Backoff && persisted == old(persisted) && buffer == old(buffer) + during + after
      ensures buffer != [] ==> ready
    {
      assert old(persisted) + [] + old(buffer) == old(events);
      TakeBatch();
      if during != [] { Enqueue(during); }
      EndAppend(ok);
      if after != [] { Enqueue(after); }
      Resume();
      assert old(buffer) + (during + after) == old(buffer) + during + after;
      assert [] + during == during && during + [] == during && old(events) + [] == old(events);
    }

    /** The last flush, and the blocking one if it fails. */
    method FlushFinally(flushed: bool, forced: bool)
      requires Invariant(View()) && phase == Stopping
      modifies this
      ensures Invariant(View()) && phase == Stopped && inflight == Option.None
      ensures events == old(events) && old(persisted) <= persisted && persisted + buffer == events
      ensures flushed || forced ==> persisted == events
    {
      TakeBatch();
      if phase == FinalFlush {
        EndAppend(flushed);
        Resume();
        if phase == LastResort { FlushBufferBlocking(forced); }
      }
      assert persisted + [] + buffer == persisted + buffer;
      assert buffer == [] ==> persisted + buffer == persisted;
    }

    /**
     async_stop, from wherever the drain task is. `settled` is how an append still running ends,
     `flushed` how the final one does, `forced` the blocking one. Everything is on disk unless both
     the final and the blocking append fail, and then what is not is still in the buffer.
     */
    method AsyncStop(settled: bool, flushed: bool, forced: bool)
      requires Invariant(View()) && Subscribed(phase)
      modifies this
      ensures Invariant(View()) && phase == Stopped && inflight == Option.None
      ensures events == old(events) && old(persisted) <= persisted && persisted + buffer == events
      ensures flushed || forced ==> persisted == events
    {
      StepConserves(View(), Cancel);
      phase := Settling;
      if inflight.Some? && inflight.value.progress == Running { EndAppend(settled); }
      SettleInflight();
      FlushFinally(flushed, forced);
    }
  }
}
