/**
 The metadata worker's thread: statements run inside a transaction, counters and dead letters
 on the side, and a main loop that acknowledges an item only once it is written.
 */
module MetaWorkers {
  import opened Options
  import opened Versions
  import opened Verification
  import opened LiveWrites
  import opened LiveRuns
  import opened Startup
  import opened PersistentQueues

  datatype Reason = Integrity | OutOfOrder | SweepRefused | Poison

  datatype DeadLetter = DeadLetter(reason: Reason, registry: Registry, item: Item)

  /** The dead letter an item leaves: one for every loss, and one for a refused sweep. */
  function Letters(t: Table, r: Registry, x: Item): seq<DeadLetter> {
    var o := Process(t, x, r.Entity?);
    if o.dropped then [DeadLetter(Integrity, r, x)]
    else if o.lost then [DeadLetter(OutOfOrder, r, x)]
    else if x.Sweep? && !(AllOpen(t) != {} && x.live == {}) && Refused(t, x.live, x.stamp)
    then [DeadLetter(SweepRefused, r, x)]
    else []
  }

  /** How a transaction ended. */
  datatype Ending = Committed(t: Table, lost: bool) | Violated | Declined

  /** `cur.execute(close_sql)` and its rowcount. */
  method ExecuteClose(t: Table, id: Key, ts: int) returns (t': Table, rowcount: nat)
    ensures t' == Close(t, id, ts) && rowcount == |ClosedBy(t, id, ts)|
  {
    t', rowcount := t, 0;
    var rows := ClosedBy(t, id, ts);
    var left := rows;
    while left != {}
      invariant left <= rows && rowcount == |rows| - |left|
      invariant t'.Keys == t.Keys
      invariant forall i :: i in t ==> t'[i] == if i in rows - left then t[i].(to := Some(ts)) else t[i]
      decreases |left|
    {
      var i := HighestCtid(left);
      t' := t'[i := t'[i].(to := Some(ts))];
      left := left - {i};
      rowcount := rowcount + 1;
    }
    assert forall i :: i in t ==> (i in rows <==> t[i].key == id && Closable(t, i, ts));
    assert t'.Keys == Close(t, id, ts).Keys && forall i :: i in t ==> t'[i] == Close(t, id, ts)[i];
    assert t' == Close(t, id, ts);
  }

  function HighestCtid(ks: set<nat>): (m: nat)
    requires ks != {}
    ensures m in ks
  {
    GreatestExists(ks);
    var m :| m in ks && forall k :: k in ks ==> k <= m;
    m
  }

  /** The guarded insert and its rowcount. */
  method ExecuteInsert(t: Table, r: Row) returns (t': Table, rowcount: nat)
    ensures t' == Insert(t, r) && rowcount == if OpenRows(t, r.key) == {} then 1 else 0
  {
    if OpenRows(t, r.key) == {} {
      t', rowcount := t[NewId(t) := r], 1;
    } else {
      t', rowcount := t, 0;
    }
  }

  method ReconcileTransaction(t: Table, id: Key, stamp: int, p: Payload, byUuid: bool) returns (e: Ending)
    ensures var o := DoReconcile(t, id, stamp, p, byUuid);
            match e
            case Committed(t', lost) => o == Outcome(t', lost, false)
            case Violated => o == Outcome(t, false, true)
            case Declined => o == Outcome(t, false, false)
  {
    if !Changed(t, id, p) { return Declined; }
    var t', rowcount := ExecuteClose(t, id, stamp);
    var start := stamp;
    if rowcount == 0 { start := FirstStart(t, id, stamp, p, byUuid); }
    t', rowcount := ExecuteInsert(t', Row(id, start, Option.None, p));
    if RangePairs(t') != {} { return Violated; }
    e := Committed(t', rowcount == 0 && !AppliedBefore(t', id, stamp, p));
  }

  method RenameTransaction(t: Table, id: Key, oldId: Key, stamp: int, p: Payload) returns (e: Ending)
    ensures var o := DoRename(t, id, oldId, stamp, p);
            match e
            case Committed(t', lost) => o == Outcome(t', lost, false)
            case Violated => o == Outcome(t, false, true)
            case Declined => false
  {
    var t', rowcount := ExecuteClose(t, oldId, stamp);
    t', rowcount := ExecuteInsert(t', Row(id, stamp, Option.None, p));
    if RangePairs(t') != {} { return Violated; }
    e := Committed(t', rowcount == 0 && !AppliedBefore(t', id, stamp, p));
  }

  method RemoveTransaction(t: Table, id: Key, stamp: int) returns (e: Ending)
    ensures var o := DoRemove(t, id, stamp);
            match e
            case Committed(t', lost) => o == Outcome(t', lost, false)
            case Violated => o == Outcome(t, false, true)
            case Declined => false
  {
    var t', rowcount := ExecuteClose(t, id, stamp);
    if RangePairs(t') != {} { return Violated; }
    e := Committed(t', rowcount == 0 && OpenRows(t', id) != {});
  }

  class MetaWorker {
    /** The four tables, each with its share of integrity_drops and out_of_order_skips. */
    var dims: Dimensions
    var deadLetters: seq<DeadLetter>

    constructor (d: Dimensions)
      ensures dims == d && deadLetters == []
    {
      dims, deadLetters := d, [];
    }

    method Finish(r: Registry, x: Item, e: Ending)
      modifies this
      ensures dims == old(dims).With(r, match e
                        case Committed(t, lost) => Count(old(dims).Of(r), Outcome(t, lost, false))
                        case Violated => Count(old(dims).Of(r), Outcome(old(dims).Of(r).t, false, true))
                        case Declined => old(dims).Of(r))
      ensures deadLetters == old(deadLetters) + match e
                        case Committed(_, lost) => if lost then [DeadLetter(OutOfOrder, r, x)] else []
                        case Violated => [DeadLetter(Integrity, r, x)]
                        case Declined => []
    {
      var c := dims.Of(r);
      match e {
      case Committed(t, lost) =>
        c := Tally(t, c.skips, c.drops);
        if lost {
          c := c.(skips := c.skips + 1);
          deadLetters := deadLetters + [DeadLetter(OutOfOrder, r, x)];
        }
      case Violated =>
        c := c.(drops := c.drops + 1);
        deadLetters := deadLetters + [DeadLetter(Integrity, r, x)];
      case Declined =>
      }
      dims := dims.With(r, c);
    }

    method ProcessSweep(r: Registry, live: set<Key>, stamp: int)
      modifies this
      ensures dims == Dispatch(old(dims), Tagged(r, Sweep(live, stamp)))
      ensures deadLetters == old(deadLetters) + Letters(old(dims).Of(r).t, r, Sweep(live, stamp))
    {
      var c := dims.Of(r);
      var openRows, toClose := |AllOpen(c.t)|, |Stale(c.t, live, stamp)|;
      if openRows != 0 && live == {} { return; }
      var refused := toClose > FREE_CLOSES && 2 * toClose > openRows;
      if refused {
        deadLetters := deadLetters + [DeadLetter(SweepRefused, r, Sweep(live, stamp))];
        return;
      }
      var t := CloseStale(c.t, live, stamp);
      Finish(r, Sweep(live, stamp), if RangePairs(t) != {} then Violated else Committed(t, false));
    }

    /** _write_item: dispatch, and turn a refused write into a counted, dead-lettered drop. */
    method WriteItem(x: Tagged)
      modifies this
      ensures dims == Dispatch(old(dims), x)
      ensures deadLetters == old(deadLetters) + Letters(old(dims).Of(x.registry).t, x.registry, x.item)
    {
      hide RangePairs, DoReconcile, DoRename, DoRemove, DoSweep, Refused;
      var t := dims.Of(x.registry).t;
      match x.item
      case Reconcile(id, stamp, p) =>
        var e := ReconcileTransaction(t, id, stamp, p, x.registry.Entity?);
        Finish(x.registry, x.item, e);
      case Rename(id, oldId, stamp, p) =>
        var e := RenameTransaction(t, id, oldId, stamp, p);
        Finish(x.registry, x.item, e);
      case Remove(id, stamp) =>
        var e := RemoveTransaction(t, id, stamp);
        Finish(x.registry, x.item, e);
      case Sweep(live, stamp) => ProcessSweep(x.registry, live, stamp);
    }

    /** _drop_poison_item: the retry wrapper gave up on the item. */
    method DropPoisonItem(x: Tagged)
      modifies `deadLetters
      ensures deadLetters == old(deadLetters) + [DeadLetter(Poison, x.registry, x.item)]
    {
      deadLetters := deadLetters + [DeadLetter(Poison, x.registry, x.item)];
    }

    /** A turn's item, and what the listener appends during the turn. */
    method NextItem(q: PersistentQueue<Tagged>, batch: seq<Tagged>) returns (x: Option<Tagged>)
      requires q.Valid() && q.inFlight == Option.None && (q.Sound() || batch == [])
      modifies q
      ensures q.Valid() && x == q.inFlight && (old(q.Sound()) ==> q.Sound())
      ensures q.Contents() == old(q.Contents()) + batch && q.Excess() == old(q.Excess())
      ensures x == if q.Contents() == [] then Option.None else Some(q.Contents()[0])
      ensures x.Some? ==> q.Sound() || q.front == FirstLine(q.file)
    {
      hide Json, Ended, Records, FirstLine, Lines;
      var waited;
      x, waited := q.Get(batch);
      if !waited { q.PutMany(batch); }
      assert old(q.Contents()) == [] ==> old(q.Contents()) + batch == batch;
    }

    /** The rest of a turn: write the item or give it up and acknowledge it, or leave it to the stop. */
    method Settle(q: PersistentQueue<Tagged>, x: Tagged, fate: Fate)
      requires q.Valid() && q.inFlight == Some(x) && (q.Sound() || q.front == FirstLine(q.file))
      modifies this, q
      ensures q.Valid() && (old(q.Sound()) ==> q.Sound())
      ensures dims == if fate.Writes? || (fate.Stops? && fate.committed) then Dispatch(old(dims), x) else old(dims)
      ensures fate.Stops? ==> q.Contents() == old(q.Contents())
      ensures !fate.Stops? ==> q.inFlight == Option.None && old(q.Contents()) == [x] + q.Contents()
      ensures old(q.Excess()) >= 0 ==> q.Excess() == old(q.Excess())
    {
      hide Json, Ended, Records, Dispatch, Letters, FirstLine, Rest;
      match fate {
        case Writes =>
          WriteItem(x);
        case GivesUp =>
          DropPoisonItem(x);
        case Stops(committed) =>
          if committed { WriteItem(x); }
          return;
      }
      q.TaskDone();
    }

    /**
     The main loop over the queue, until a wake-up finds it empty or a stop. `arrivals[k]` is what the
     listener appends during the k-th turn, while the loop waits for an item or while it writes one. The
     items written or given up on are acknowledged, in order, and only the written ones are in the
     tables; an item whose write the stop interrupts, committed or not, and all after it stay on disk.
     */
    method RunMainLoop(q: PersistentQueue<Tagged>, fate: nat -> Fate, arrivals: seq<seq<Tagged>>)
      returns (k: nat, ghost all: seq<Tagged>)
      requires q.Valid() && q.inFlight == Option.None && (q.Sound() || arrivals == [])
      modifies this, q
      ensures q.Valid() && (old(q.Sound()) ==> q.Sound())
      ensures all == old(q.Contents()) + Arrived(arrivals, k + 1)
      ensures k <= |all| && q.Contents() == all[k..]
      ensures forall i: nat :: i < k ==> fate(i).Writes? || fate(i).GivesUp?
      ensures k < |all| ==> fate(k).Stops?
      ensures var before := DispatchAll(old(dims), Written(all, fate, k));
              dims == if k < |all| && fate(k).committed then Dispatch(before, all[k]) else before
      ensures old(q.Excess()) >= 0 ==> q.Excess() == old(q.Excess())
    {
      hide Json, Ended, Records, Dispatch, DispatchAll, Written, Arrived, FirstLine, HandledBy;
      hide PersistentQueue.Valid, PersistentQueue.Sound, PersistentQueue.Contents, PersistentQueue.Excess;
      k := 0;
      all := q.Contents();
      NothingArrived(arrivals);
      assert all + [] == all && all[0..] == all;
      assert HandledBy(dims, dims, all, fate, 0) by { NothingHandled(dims, all, fate); }
      while true
        invariant q.Valid() && q.inFlight == Option.None && (q.Sound() || arrivals == [])
        invariant old(q.Sound()) ==> q.Sound()
        invariant all == old(q.Contents()) + Arrived(arrivals, k)
        invariant k <= |all| && q.Contents() == all[k..]
        invariant HandledBy(old(dims), dims, all, fate, k)
        invariant old(q.Excess()) >= 0 ==> q.Excess() == old(q.Excess())
        decreases |old(q.Contents())| + |Arrived(arrivals, |arrivals|)| - k
      {
        var batch := if k < |arrivals| then arrivals[k] else [];
        MoreArrived(arrivals, k);
        HandledOfPrefix(old(dims), dims, all, batch, fate, k);
        var x := NextItem(q, batch);
        assert all[k..] + batch == (all + batch)[k..];
        all := all + batch;
        HandledMeans(old(dims), dims, all, fate, k);
        if x.None? { break; }
        assert x.value == all[k] && all[k..] == [all[k]] + all[k + 1..];
        Settle(q, x.value, fate(k));
        if fate(k).Stops? { break; }
        OneMoreHandled(old(dims), dims, all, fate, k);
        k := k + 1;
      }
    }
  }

  /** The first k items are written or given up on, and what was written has taken `before` to `after`. */
  ghost predicate HandledBy(before: Dimensions, after: Dimensions, xs: seq<Tagged>, fate: nat -> Fate, k: nat) {
    && k <= |xs|
    && (forall i: nat :: i < k ==> fate(i).Writes? || fate(i).GivesUp?)
    && after == DispatchAll(before, Written(xs, fate, k))
  }

  /** What has arrived in the first n turns. */
  function Arrived(arrivals: seq<seq<Tagged>>, n: nat): seq<Tagged> {
    if n == 0 then [] else Arrived(arrivals, n - 1) + (if n <= |arrivals| then arrivals[n - 1] else [])
  }

  lemma NothingArrived(arrivals: seq<seq<Tagged>>)
    ensures Arrived(arrivals, 0) == []
  {}

  lemma MoreArrived(arrivals: seq<seq<Tagged>>, k: nat)
    ensures Arrived(arrivals, k + 1) == Arrived(arrivals, k) + (if k < |arrivals| then arrivals[k] else [])
    ensures |Arrived(arrivals, k + 1)| <= |Arrived(arrivals, |arrivals|)|
  {
    ArrivedGrows(arrivals, k + 1);
  }

  lemma {:induction false} ArrivedGrows(arrivals: seq<seq<Tagged>>, n: nat)
    ensures |Arrived(arrivals, n)| <= |Arrived(arrivals, |arrivals|)|
    decreases if n > |arrivals| then n else |arrivals| - n
  {
    if n > |arrivals| {
      ArrivedGrows(arrivals, n - 1);
    } else if n < |arrivals| {
      ArrivedGrows(arrivals, n + 1);
    }
  }

  /** How the retry wrapper leaves the k-th item of a run. */
  datatype Fate = Writes | GivesUp | Stops(committed: bool)

  /** The items among the first k that were written. */
  function Written(xs: seq<Tagged>, fate: nat -> Fate, k: nat): seq<Tagged>
    requires k <= |xs|
  {
    if k == 0 then [] else Written(xs, fate, k - 1) + (if fate(k - 1).Writes? then [xs[k - 1]] else [])
  }

  lemma NothingHandled(d: Dimensions, xs: seq<Tagged>, fate: nat -> Fate)
    ensures HandledBy(d, d, xs, fate, 0)
  {}

  lemma HandledMeans(d: Dimensions, d': Dimensions, xs: seq<Tagged>, fate: nat -> Fate, k: nat)
    requires HandledBy(d, d', xs, fate, k)
    ensures k <= |xs| && forall i: nat :: i < k ==> fate(i).Writes? || fate(i).GivesUp?
    ensures d' == DispatchAll(d, Written(xs, fate, k))
  {}

  lemma HandledOfPrefix(d: Dimensions, d': Dimensions, xs: seq<Tagged>, more: seq<Tagged>, fate: nat -> Fate, k: nat)
    requires HandledBy(d, d', xs, fate, k)
    ensures HandledBy(d, d', xs + more, fate, k)
  {
    hide DispatchAll, Written;
    WrittenOfPrefix(xs, more, fate, k);
  }

  lemma {:induction false} WrittenOfPrefix(xs: seq<Tagged>, more: seq<Tagged>, fate: nat -> Fate, k: nat)
    requires k <= |xs|
    ensures Written(xs + more, fate, k) == Written(xs, fate, k)
  {
    if k > 0 { WrittenOfPrefix(xs, more, fate, k - 1); }
  }

  lemma OneMoreHandled(d: Dimensions, d': Dimensions, xs: seq<Tagged>, fate: nat -> Fate, k: nat)
    requires k < |xs| && !fate(k).Stops?
    requires d' == var before := DispatchAll(d, Written(xs, fate, k));
                   if fate(k).Writes? then Dispatch(before, xs[k]) else before
    requires forall i: nat :: i < k ==> fate(i).Writes? || fate(i).GivesUp?
    ensures HandledBy(d, d', xs, fate, k + 1)
  {
    hide Dispatch, DispatchAll;
    DispatchNext(d, Written(xs, fate, k), xs[k]);
    assert Written(xs, fate, k) + [] == Written(xs, fate, k);
  }
}
