/**
 The metadata worker and its one queue under process crashes: items of all four registries are
 written and then acknowledged, and a crash in between replays the front one.
 */
module CrashReplay {
  import opened Versions
  import opened LiveWrites
  import opened LiveRuns
  import opened Startup

  /**
   `queue` is the file and `d` the database: both survive a crash. `held` says the worker has
   the front item in flight, `written` that it has committed it; a crash forgets both.
   `put` and `acked` are history: everything ever enqueued, everything taken off the file.
   */
  datatype State = State(
    queue: seq<Tagged>, d: Dimensions, held: bool, written: bool, put: seq<Tagged>, acked: seq<Tagged>)

  datatype Step = Put(items: seq<Tagged>) | Get | Write | Ack | Crash

  predicate Enabled(s: State, e: Step) {
    match e
    case Put(_) => true
    case Get => s.queue != [] && !s.held
    case Write => s.queue != [] && s.held && !s.written
    case Ack => s.queue != [] && s.held && s.written
    case Crash => true
  }

  function After(s: State, e: Step): State
    requires Enabled(s, e)
  {
    match e
    case Put(items) => s.(queue := s.queue + items, put := s.put + items)
    case Get => s.(held := true)
    case Write => s.(d := Dispatch(s.d, s.queue[0]), written := true)
    case Ack => s.(queue := s.queue[1..], held := false, written := false, acked := s.acked + [s.queue[0]])
    case Crash => s.(held := false, written := false)
  }

  function Start(d: Dimensions): State { State([], d, false, false, [], []) }

  /** A run of the worker, with crashes anywhere. */
  predicate Possible(s: State, steps: seq<Step>)
    decreases steps
  {
    steps == [] || (Enabled(s, steps[0]) && Possible(After(s, steps[0]), steps[1..]))
  }

  function End(s: State, steps: seq<Step>): State
    requires Possible(s, steps)
    decreases steps
  {
    if steps == [] then s else End(After(s, steps[0]), steps[1..])
  }

  // ---- The four tables --------------------------------------------------------------------------

  /** Equal tables; the counters may differ. */
  predicate SameTables(a: Dimensions, b: Dimensions) {
    a.areas.t == b.areas.t && a.labels.t == b.labels.t && a.entities.t == b.entities.t && a.devices.t == b.devices.t
  }

  ghost predicate AllValid(d: Dimensions) { forall r :: Valid(d.Of(r).t) }

  lemma DispatchIsLocal(d: Dimensions, x: Tagged, r: Registry)
    ensures Dispatch(d, x).Of(r) ==
            if r == x.registry then Count(d.Of(r), Process(d.Of(r).t, x.item, r.Entity?)) else d.Of(r)
  {
    hide Process;
  }

  lemma SameIsPerRegistry(a: Dimensions, b: Dimensions)
    ensures SameTables(a, b) <==> forall r: Registry :: a.Of(r).t == b.Of(r).t
  {
    assert a.Of(Area) == a.areas && a.Of(Label) == a.labels && a.Of(Entity) == a.entities && a.Of(Device) == a.devices;
  }

  lemma DispatchKeepsValid(d: Dimensions, x: Tagged)
    requires AllValid(d)
    ensures AllValid(Dispatch(d, x))
  {
    hide Process, Valid;
    forall r ensures Valid(Dispatch(d, x).Of(r).t) {
      DispatchIsLocal(d, x, r);
      ProcessKeepsValid(d.Of(r).t, x.item, r.Entity?);
    }
  }

  lemma {:induction false} DispatchAllKeepsValid(d: Dimensions, xs: seq<Tagged>)
    requires AllValid(d)
    ensures AllValid(DispatchAll(d, xs))
    decreases xs
  {
    hide AllValid, Dispatch;
    if xs != [] {
      DispatchKeepsValid(d, xs[0]);
      DispatchAllKeepsValid(Dispatch(d, xs[0]), xs[1..]);
    }
  }

  lemma DispatchSame(a: Dimensions, b: Dimensions, x: Tagged)
    requires SameTables(a, b)
    ensures SameTables(Dispatch(a, x), Dispatch(b, x))
  {
    hide Process, SameTables, Dispatch;
    SameIsPerRegistry(a, b);
    SameIsPerRegistry(Dispatch(a, x), Dispatch(b, x));
    forall r: Registry ensures Dispatch(a, x).Of(r).t == Dispatch(b, x).Of(r).t {
      DispatchIsLocal(a, x, r);
      DispatchIsLocal(b, x, r);
    }
  }

  /** Writing an item twice leaves all four tables as writing it once did. */
  lemma DispatchTwice(d: Dimensions, x: Tagged)
    requires AllValid(d)
    ensures SameTables(Dispatch(Dispatch(d, x), x), Dispatch(d, x))
  {
    hide Process, SameTables, Dispatch, Valid;
    SameIsPerRegistry(Dispatch(Dispatch(d, x), x), Dispatch(d, x));
    forall r: Registry ensures Dispatch(Dispatch(d, x), x).Of(r).t == Dispatch(d, x).Of(r).t {
      DispatchIsLocal(d, x, r);
      DispatchIsLocal(Dispatch(d, x), x, r);
      assert Valid(d.Of(r).t);
      ReplayKeepsTable(d.Of(r).t, x.item, r.Entity?);
    }
  }

  // ---- Exactly once ------------------------------------------------------------------------------

  /** The crash-free run over the acknowledged items, with or without the front one. */
  ghost predicate Explained(d0: Dimensions, s: State) {
    || (SameTables(s.d, DispatchAll(d0, s.acked)) && !s.written)
    || (s.queue != [] && SameTables(s.d, DispatchAll(d0, s.acked + [s.queue[0]])))
  }

  ghost predicate Invariant(d0: Dimensions, s: State) {
    && s.put == s.acked + s.queue
    && (s.written ==> s.held)
    && Explained(d0, s)
  }

  lemma StepKeeps(d0: Dimensions, s: State, e: Step)
    requires AllValid(d0) && Invariant(d0, s) && Enabled(s, e)
    ensures Invariant(d0, After(s, e))
  {
    hide Dispatch, DispatchAll, AllValid;
    match e
    case Put(items) => assert s.acked + s.queue + items == s.acked + (s.queue + items);
    case Write =>
      var x, d := s.queue[0], DispatchAll(d0, s.acked);
      DispatchNext(d0, s.acked, x);
      DispatchAllKeepsValid(d0, s.acked);
      DispatchTwice(d, x);
      if SameTables(s.d, d) { DispatchSame(s.d, d, x); } else { DispatchSame(s.d, Dispatch(d, x), x); }
    case Ack => assert s.queue == [s.queue[0]] + s.queue[1..];
    case _ =>
  }

  lemma {:induction false} RunKeeps(d0: Dimensions, s: State, steps: seq<Step>)
    requires AllValid(d0) && Invariant(d0, s) && Possible(s, steps)
    ensures Invariant(d0, End(s, steps))
    decreases steps
  {
    hide Invariant, After, AllValid;
    if steps != [] {
      StepKeeps(d0, s, steps[0]);
      RunKeeps(d0, After(s, steps[0]), steps[1..]);
    }
  }

  lemma SameIsValid(a: Dimensions, b: Dimensions)
    requires SameTables(a, b) && AllValid(b)
    ensures AllValid(a)
  {
    hide Valid, SameTables;
    SameIsPerRegistry(a, b);
    forall r ensures Valid(a.Of(r).t) { assert Valid(b.Of(r).t); }
  }

  /**
   Replay refines exactly-once: wherever crashes fall, items of all registries are acknowledged in
   the order they were enqueued, none is skipped, and once the queue is empty the four tables are
   those of the crash-free run over everything ever enqueued. No order of stamps is assumed.
   */
  lemma CrashesAreInvisible(d0: Dimensions, steps: seq<Step>)
    requires AllValid(d0) && Possible(Start(d0), steps)
    ensures var s := End(Start(d0), steps);
            && s.put == s.acked + s.queue && AllValid(s.d)
            && (s.queue == [] ==> SameTables(s.d, DispatchAll(d0, s.put)))
  {
    hide AllValid, Dispatch, SameTables;
    var s := End(Start(d0), steps);
    assert DispatchAll(d0, []) == d0;
    assert SameTables(d0, d0) by { SameIsPerRegistry(d0, d0); }
    RunKeeps(d0, Start(d0), steps);
    DispatchAllKeepsValid(d0, s.acked);
    if s.queue == [] {
      assert s.put == s.acked;
      SameIsValid(s.d, DispatchAll(d0, s.acked));
    } else {
      DispatchAllKeepsValid(d0, s.acked + [s.queue[0]]);
      if SameTables(s.d, DispatchAll(d0, s.acked)) {
        SameIsValid(s.d, DispatchAll(d0, s.acked));
      } else {
        SameIsValid(s.d, DispatchAll(d0, s.acked + [s.queue[0]]));
      }
    }
  }

  // ---- Counters --------------------------------------------------------------------------------

  /** In each registry's share of the stream, stamps increase per id and renames are free. */
  ghost predicate StreamInOrder(d0: Dimensions, xs: seq<Tagged>) {
    forall r :: StampsIncrease(d0.Of(r).t, Share(xs, r)) && RenamesAreFree(d0.Of(r), Share(xs, r), r.Entity?)
  }

  lemma PrefixInOrder(c: Tally, items: seq<Item>, n: nat, byUuid: bool)
    requires n <= |items| && StampsIncrease(c.t, items) && RenamesAreFree(c, items, byUuid)
    ensures StampsIncrease(c.t, items[..n]) && RenamesAreFree(c, items[..n], byUuid)
  {
    hide Run;
    forall j | 0 <= j < n && items[j].Rename?
      ensures items[j].id != items[j].oldId && OpenRows(Run(c, items[..n][..j], byUuid).t, items[j].id) == {}
    {
      assert items[..n][..j] == items[..j];
    }
  }

  lemma StreamPrefixInOrder(d0: Dimensions, xs: seq<Tagged>, ys: seq<Tagged>)
    requires StreamInOrder(d0, xs + ys)
    ensures StreamInOrder(d0, xs)
  {
    hide Share, StampsIncrease, RenamesAreFree;
    forall r ensures StampsIncrease(d0.Of(r).t, Share(xs, r)) && RenamesAreFree(d0.Of(r), Share(xs, r), r.Entity?) {
      ShareAppends(xs, ys, r);
      var all := Share(xs + ys, r);
      PrefixInOrder(d0.Of(r), all, |Share(xs, r)|, r.Entity?);
      assert all[..|Share(xs, r)|] == Share(xs, r);
    }
  }

  /** In an in-order stream every item is in order when its turn comes. */
  lemma {:induction false} TurnInOrder(c: Tally, items: seq<Item>, n: nat, byUuid: bool)
    requires Valid(c.t) && n < |items| && StampsIncrease(c.t, items) && RenamesAreFree(c, items, byUuid)
    ensures InOrder(Run(c, items[..n], byUuid).t, items[n])
    decreases n
  {
    hide Process, Valid, StampsIncrease, RenamesAreFree;
    FirstInOrder(c, items, byUuid);
    if n == 0 {
      assert items[..0] == [];
      assert Run(c, [], byUuid) == c;
    } else {
      var c', rest := Count(c, Process(c.t, items[0], byUuid)), items[1..];
      StampsStayIncreasing(c.t, items, byUuid);
      RenamesStayFree(c, items, byUuid);
      ProcessKeepsValid(c.t, items[0], byUuid);
      TurnInOrder(c', rest, n - 1, byUuid);
      assert items[..n][0] == items[0] && items[..n][1..] == rest[..n - 1];
    }
  }

  /** When it is an item's turn, its own table has seen exactly the items before it, in order. */
  lemma TurnOfTagged(d0: Dimensions, acked: seq<Tagged>, x: Tagged, rest: seq<Tagged>)
    requires AllValid(d0) && StreamInOrder(d0, acked + ([x] + rest))
    ensures InOrder(DispatchAll(d0, acked).Of(x.registry).t, x.item)
  {
    hide Share, StampsIncrease, RenamesAreFree, InOrder, Run, DispatchAll, Valid;
    var r := x.registry;
    var items, n := Share(acked + ([x] + rest), r), |Share(acked, r)|;
    ShareAppends(acked, [x] + rest, r);
    ShareAppends([x], rest, r);
    ShareOfOne(x, r);
    assert items[..n] == Share(acked, r) && items[n] == x.item;
    assert Valid(d0.Of(r).t);
    TurnInOrder(d0.Of(r), items, n, r.Entity?);
    RegistriesAreIndependent(d0, acked, r);
  }

  /** Every table a crash can leave is explained by an in-order prefix; so no write counts a loss. */
  lemma WriteIsNotALoss(d0: Dimensions, s: State, r: Registry)
    requires AllValid(d0) && Invariant(d0, s) && Enabled(s, Write) && StreamInOrder(d0, s.put)
    ensures var c, c' := s.d.Of(r), After(s, Write).d.Of(r); c'.skips == c.skips && c'.drops == c.drops
  {
    hide Process, Valid, DispatchAll, StreamInOrder, SameTables, Dispatch, InOrder;
    var x, d := s.queue[0], DispatchAll(d0, s.acked);
    var q := x.registry;
    DispatchIsLocal(s.d, x, r);
    assert s.put == s.acked + ([x] + s.queue[1..]);
    TurnOfTagged(d0, s.acked, x, s.queue[1..]);
    DispatchAllKeepsValid(d0, s.acked);
    assert Valid(d.Of(q).t);
    DispatchNext(d0, s.acked, x);
    DispatchIsLocal(d, x, q);
    AppliedLosesNothing(d.Of(q).t, x.item, q.Entity?);
    ReplayIsSilent(d.Of(q).t, x.item, q.Entity?);
    SameIsPerRegistry(s.d, d);
    SameIsPerRegistry(s.d, Dispatch(d, x));
  }

  lemma AppliedLosesNothing(t: Table, x: Item, byUuid: bool)
    requires Valid(t) && InOrder(t, x)
    ensures !Process(t, x, byUuid).lost && !Process(t, x, byUuid).dropped
  {
    hide Process;
    ProcessInOrder(t, x, byUuid);
  }

  lemma {:induction false} PutGrows(s: State, steps: seq<Step>)
    requires Possible(s, steps)
    ensures s.put <= End(s, steps).put
    decreases steps
  {
    hide Dispatch;
    if steps != [] { PutGrows(After(s, steps[0]), steps[1..]); }
  }

  lemma {:induction false} LossesStayCounted(d0: Dimensions, s: State, steps: seq<Step>, r: Registry)
    requires AllValid(d0) && Invariant(d0, s) && Possible(s, steps) && StreamInOrder(d0, End(s, steps).put)
    ensures var c, c' := s.d.Of(r), End(s, steps).d.Of(r); c'.skips == c.skips && c'.drops == c.drops
    decreases steps
  {
    hide Dispatch, AllValid, StreamInOrder, Invariant;
    if steps != [] {
      var all := End(s, steps).put;
      PutGrows(s, steps);
      assert all == s.put + all[|s.put|..];
      StreamPrefixInOrder(d0, s.put, all[|s.put|..]);
      StepKeeps(d0, s, steps[0]);
      if steps[0].Write? { WriteIsNotALoss(d0, s, r); }
      LossesStayCounted(d0, After(s, steps[0]), steps[1..], r);
    }
  }

  /** For a stream in stamp order, no replay is ever counted as a lost change, in any registry. */
  lemma CrashesCountNothing(d0: Dimensions, steps: seq<Step>, r: Registry)
    requires AllValid(d0) && Possible(Start(d0), steps) && StreamInOrder(d0, End(Start(d0), steps).put)
    ensures var c, c' := d0.Of(r), End(Start(d0), steps).d.Of(r); c'.skips == c.skips && c'.drops == c.drops
  {
    hide Dispatch, AllValid, StreamInOrder, SameTables;
    assert DispatchAll(d0, []) == d0;
    assert SameTables(d0, d0) by { SameIsPerRegistry(d0, d0); }
    LossesStayCounted(d0, Start(d0), steps, r);
  }
}
