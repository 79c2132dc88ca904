/**
 Whole runs of the metadata worker: what every item keeps, what replaying one changes, and
 what a stream of items in stamp order adds up to.
 */
module LiveRuns {
  import opened Options
  import opened Versions
  import opened Verification
  import opened LiveWrites

  /** The table with the worker's two loss counters. */
  datatype Tally = Tally(t: Table, skips: nat, drops: nat)

  function Count(c: Tally, r: Outcome): Tally {
    Tally(r.t, c.skips + (if r.lost then 1 else 0), c.drops + (if r.dropped then 1 else 0))
  }

  /** The crash-free run over the items, in order. */
  function Run(c: Tally, items: seq<Item>, byUuid: bool): Tally
    decreases items
  {
    if items == [] then c else Run(Count(c, Process(c.t, items[0], byUuid)), items[1..], byUuid)
  }

  lemma {:induction false} RunAppends(c: Tally, xs: seq<Item>, ys: seq<Item>, byUuid: bool)
    ensures Run(c, xs + ys, byUuid) == Run(Run(c, xs, byUuid), ys, byUuid)
    decreases xs
  {
    if xs == [] {
      assert xs + ys == ys;
    } else {
      assert (xs + ys)[0] == xs[0] && (xs + ys)[1..] == xs[1..] + ys;
      RunAppends(Count(c, Process(c.t, xs[0], byUuid)), xs[1..], ys, byUuid);
    }
  }

  lemma RunOne(c: Tally, x: Item, byUuid: bool)
    ensures Run(c, [x], byUuid) == Count(c, Process(c.t, x, byUuid))
  {
    assert [x][1..] == [];
    assert Run(Count(c, Process(c.t, x, byUuid)), [], byUuid) == Count(c, Process(c.t, x, byUuid));
  }

  // ---- Any item, in any order ----------------------------------------------------------------

  lemma CloseKeepsOrder(t: Table, id: Key, stamp: int)
    requires NoneInverted(t)
    ensures NoneInverted(Close(t, id, stamp))
    ensures forall i :: i in OpenRows(Close(t, id, stamp), id) ==> stamp <= Close(t, id, stamp)[i].from
    ensures Close(Close(t, id, stamp), id, stamp) == Close(t, id, stamp)
  {}

  lemma InsertKeepsOrder(t: Table, r: Row)
    requires NoneInverted(t) && r.to.None?
    ensures NoneInverted(Insert(t, r)) && OpenRows(Insert(t, r), r.key) != {}
    ensures OpenRows(t, r.key) == {} ==> OpenRows(Insert(t, r), r.key) == {NewId(t)}
    ensures OpenRows(t, r.key) != {} ==> Insert(t, r) == t
    ensures forall i :: i in Insert(t, r) ==> (i in t && Insert(t, r)[i] == t[i]) || Insert(t, r)[i] == r
  {
    var t', n := Insert(t, r), NewId(t);
    if OpenRows(t, r.key) == {} {
      assert n in OpenRows(t', r.key);
      assert forall i :: i in OpenRows(t', r.key) && i != n ==> i in OpenRows(t, r.key);
    }
  }

  /** The exclusion constraint and the ordering guard keep the invariant for any item at all. */
  lemma ProcessKeepsValid(t: Table, item: Item, byUuid: bool)
    requires Valid(t)
    ensures Valid(Process(t, item, byUuid).t)
  {
    hide RangePairs, Insert, Close, Changed, FirstStart, Refused, Stale;
    match item
    case Reconcile(id, stamp, p) =>
      if Changed(t, id, p) {
        var start := if ClosedBy(t, id, stamp) == {} then FirstStart(t, id, stamp, p, byUuid) else stamp;
        CloseKeepsOrder(t, id, stamp);
        InsertKeepsOrder(Close(t, id, stamp), Row(id, start, Option.None, p));
        RangeCleanIsDisjoint(Insert(Close(t, id, stamp), Row(id, start, Option.None, p)));
      }
    case Rename(id, oldId, stamp, p) =>
      CloseKeepsOrder(t, oldId, stamp);
      InsertKeepsOrder(Close(t, oldId, stamp), Row(id, stamp, Option.None, p));
      RangeCleanIsDisjoint(Insert(Close(t, oldId, stamp), Row(id, stamp, Option.None, p)));
    case Remove(id, stamp) =>
      CloseKeepsOrder(t, id, stamp);
      RangeCleanIsDisjoint(Close(t, id, stamp));
    case Sweep(live, stamp) =>
      SweepKeepsOrder(t, live, stamp);
      RangeCleanIsDisjoint(CloseStale(t, live, stamp));
  }

  lemma SweepKeepsOrder(t: Table, live: set<Key>, stamp: int)
    requires NoneInverted(t)
    ensures NoneInverted(CloseStale(t, live, stamp))
    ensures Stale(CloseStale(t, live, stamp), live, stamp) == {}
  {}

  lemma IdleClose(t: Table, id: Key, stamp: int)
    requires forall i :: i in OpenRows(t, id) ==> stamp <= t[i].from
    ensures Close(t, id, stamp) == t && ClosedBy(t, id, stamp) == {}
  {
    assert forall i :: i in t && t[i].key == id && t[i].to.None? ==> i in OpenRows(t, id);
  }

  /** Writing an item a second time leaves the table as the first time left it. */
  lemma ReplayKeepsTable(t: Table, item: Item, byUuid: bool)
    requires Valid(t)
    ensures var t' := Process(t, item, byUuid).t; Process(t', item, byUuid).t == t'
  {
    hide DoReconcile, DoRename, DoRemove, DoSweep;
    match item
    case Reconcile(id, stamp, p) => ReplayReconcile(t, id, stamp, p, byUuid);
    case Rename(id, oldId, stamp, p) => ReplayRename(t, id, oldId, stamp, p);
    case Remove(id, stamp) => ReplayRemove(t, id, stamp);
    case Sweep(live, stamp) => ReplaySweep(t, live, stamp);
  }

  lemma ReplayReconcile(t: Table, id: Key, stamp: int, p: Payload, byUuid: bool)
    requires Valid(t)
    ensures var t' := DoReconcile(t, id, stamp, p, byUuid).t; DoReconcile(t', id, stamp, p, byUuid).t == t'
  {
    hide RangePairs, Close, FirstStart, Changed;
    var closed := Close(t, id, stamp);
    var start := if ClosedBy(t, id, stamp) == {} then FirstStart(t, id, stamp, p, byUuid) else stamp;
    var row := Row(id, start, Option.None, p);
    var t' := Insert(closed, row);
    CloseKeepsOrder(t, id, stamp);
    InsertKeepsOrder(closed, row);
    if Changed(t, id, p) && RangePairs(t') == {} {
      if OpenRows(closed, id) == {} {
        RangeCleanIsDisjoint(t');
        CurrentIsTheOpenOne(t', id, NewId(closed), p);
        assert !Changed(t', id, p);
      } else {
        IdleClose(t', id, stamp);
      }
    }
  }

  lemma ReplayRename(t: Table, id: Key, oldId: Key, stamp: int, p: Payload)
    requires Valid(t)
    ensures var t' := DoRename(t, id, oldId, stamp, p).t; DoRename(t', id, oldId, stamp, p).t == t'
  {
    hide RangePairs, Close;
    var closed, row := Close(t, oldId, stamp), Row(id, stamp, Option.None, p);
    var t' := Insert(closed, row);
    CloseKeepsOrder(t, oldId, stamp);
    InsertKeepsOrder(closed, row);
    if RangePairs(t') == {} {
      forall i | i in OpenRows(t', oldId) ensures stamp <= t'[i].from {
        assert t'[i] != row ==> i in OpenRows(closed, oldId);
      }
      IdleClose(t', oldId, stamp);
    }
  }

  lemma ReplayRemove(t: Table, id: Key, stamp: int)
    requires Valid(t)
    ensures var t' := DoRemove(t, id, stamp).t; DoRemove(t', id, stamp).t == t'
  {
    hide RangePairs, Close;
    CloseKeepsOrder(t, id, stamp);
  }

  lemma ReplaySweep(t: Table, live: set<Key>, stamp: int)
    requires Valid(t)
    ensures var t' := DoSweep(t, live, stamp).t; DoSweep(t', live, stamp).t == t'
  {
    hide RangePairs, Refused, Stale, AllOpen;
    SweepKeepsOrder(t, live, stamp);
    IdleSweep(CloseStale(t, live, stamp), live, stamp);
  }

  lemma IdleSweep(t: Table, live: set<Key>, stamp: int)
    requires Stale(t, live, stamp) == {}
    ensures CloseStale(t, live, stamp) == t
  {}

  // ---- What the counters see -------------------------------------------------------------------

  lemma ReconcileIsCounted(t: Table, id: Key, stamp: int, p: Payload, byUuid: bool)
    requires Valid(t)
    ensures var r := DoReconcile(t, id, stamp, p, byUuid); !Changed(r.t, id, p) <==> !r.lost && !r.dropped
  {
    hide RangePairs, Close, FirstStart, Changed;
    var closed := Close(t, id, stamp);
    var start := if ClosedBy(t, id, stamp) == {} then FirstStart(t, id, stamp, p, byUuid) else stamp;
    var row := Row(id, start, Option.None, p);
    var t' := Insert(closed, row);
    CloseKeepsOrder(t, id, stamp);
    InsertKeepsOrder(closed, row);
    if Changed(t, id, p) && RangePairs(t') == {} {
      if OpenRows(closed, id) == {} {
        RangeCleanIsDisjoint(t');
        CurrentIsTheOpenOne(t', id, NewId(closed), p);
      } else {
        SurvivorWasAlone(t, id, stamp);
      }
    }
  }

  /** An open row the guarded close leaves open is the id's only open row, so nothing was closed. */
  lemma SurvivorWasAlone(t: Table, id: Key, stamp: int)
    requires Valid(t) && OpenRows(Close(t, id, stamp), id) != {}
    ensures Close(t, id, stamp) == t && ClosedBy(t, id, stamp) == {}
  {
    var i :| i in OpenRows(Close(t, id, stamp), id);
    forall j | j in OpenRows(t, id) ensures j == i { ValidHasOneOpen(t, id, i, j); }
    IdleClose(t, id, stamp);
  }

  lemma RenameIsCounted(t: Table, id: Key, oldId: Key, stamp: int, p: Payload)
    requires Valid(t)
    ensures var r := DoRename(t, id, oldId, stamp, p); AppliedBefore(r.t, id, stamp, p) <==> !r.lost && !r.dropped
  {
    hide RangePairs, Close, Changed;
    var closed, row := Close(t, oldId, stamp), Row(id, stamp, Option.None, p);
    var t' := Insert(closed, row);
    CloseKeepsOrder(t, oldId, stamp);
    InsertKeepsOrder(closed, row);
    if OpenRows(closed, id) == {} {
      if RangePairs(t') == {} {
        RangeCleanIsDisjoint(t');
        CurrentIsTheOpenOne(t', id, NewId(closed), p);
        assert NewId(closed) in OpenRows(t', id) && t'[NewId(closed)].from == stamp;
      } else {
        NotYetRenamed(t, id, oldId, stamp);
      }
    } else {
      CloseKeepsValid(t, oldId, stamp);
      CommitValid(t, t', !AppliedBefore(t', id, stamp, p));
    }
  }

  lemma CloseKeepsValid(t: Table, id: Key, stamp: int)
    requires Valid(t)
    ensures Valid(Close(t, id, stamp))
  {
    var t' := Close(t, id, stamp);
    forall i, x | i in t' && Covers(t'[i], x) ensures Covers(t[i], x) {
    }
  }

  /** If the close leaves the id without an open row, no open row of it starts at the stamp. */
  lemma NotYetRenamed(t: Table, id: Key, oldId: Key, stamp: int)
    requires OpenRows(Close(t, oldId, stamp), id) == {}
    ensures forall i :: i in OpenRows(t, id) ==> t[i].from != stamp
  {
    forall i | i in OpenRows(t, id) ensures t[i].from != stamp {
      assert i !in OpenRows(Close(t, oldId, stamp), id);
    }
  }

  lemma RemoveIsCounted(t: Table, id: Key, stamp: int)
    requires Valid(t)
    ensures var r := DoRemove(t, id, stamp); OpenRows(r.t, id) == {} <==> !r.lost && !r.dropped
  {
    hide RangePairs, Close;
    CloseKeepsValid(t, id, stamp);
    CommitValid(t, Close(t, id, stamp), ClosedBy(t, id, stamp) == {} && OpenRows(Close(t, id, stamp), id) != {});
    if OpenRows(Close(t, id, stamp), id) != {} { SurvivorWasAlone(t, id, stamp); }
  }

  lemma SweepIsAccepted(t: Table, live: set<Key>, stamp: int)
    requires Valid(t)
    ensures Valid(CloseStale(t, live, stamp))
    ensures !DoSweep(t, live, stamp).dropped && !DoSweep(t, live, stamp).lost
  {
    var t' := CloseStale(t, live, stamp);
    forall i, x | i in t' && Covers(t'[i], x) ensures Covers(t[i], x) {
    }
    CommitValid(t, t', false);
  }

  // ---- In order --------------------------------------------------------------------------------

  /** A replayed in-order item changes nothing, and is not counted as a loss. */
  lemma ReplayIsSilent(t: Table, item: Item, byUuid: bool)
    requires Valid(t) && InOrder(t, item)
    ensures var t' := Process(t, item, byUuid).t;
            Process(t', item, byUuid) == Outcome(t', false, false)
  {
    hide DoReconcile, RangePairs, Close, Insert, Changed, Refused;
    var t' := Process(t, item, byUuid).t;
    ProcessInOrder(t, item, byUuid);
    ReplayKeepsTable(t, item, byUuid);
    match item
    case Reconcile(id, stamp, p) =>
      ReconcileInOrder(t, id, stamp, p, byUuid);
      assert DoReconcile(t', id, stamp, p, byUuid) == Outcome(t', false, false) by {
        IdleReconcile(t', id, stamp, p, byUuid);
      }
    case Rename(id, oldId, stamp, p) =>
      RenameInOrder(t, id, oldId, stamp, p);
      IdleClose(t', oldId, stamp);
      var n :| OpenRows(t', id) == {n} && t'[n] == Row(id, stamp, Option.None, p);
      IdleInsert(t', Row(id, stamp, Option.None, p));
      CurrentIsTheOpenOne(t', id, n, p);
      assert n in OpenRows(t', id) && t'[n].from == stamp;
      assert AppliedBefore(t', id, stamp, p);
      CommitValid(t', t', false);
    case Remove(id, stamp) =>
      RemoveInOrder(t, id, stamp);
      IdleClose(t', id, stamp);
      CommitValid(t', t', false);
    case Sweep(live, stamp) =>
      SweepIsAccepted(t', live, stamp);
  }

  lemma IdleReconcile(t: Table, id: Key, stamp: int, p: Payload, byUuid: bool)
    requires !Changed(t, id, p)
    ensures DoReconcile(t, id, stamp, p, byUuid) == Outcome(t, false, false)
  {}

  lemma IdleInsert(t: Table, r: Row)
    requires OpenRows(t, r.key) != {}
    ensures Insert(t, r) == t
  {}

  /** Every later stamp touching an id is larger, and larger than all that is recorded of it. */
  ghost predicate StampsIncrease(t: Table, items: seq<Item>) {
    && (forall j, id :: 0 <= j < |items| && Touches(items[j], id) ==> AllBefore(t, id, items[j].stamp))
    && (forall j, k, id :: 0 <= j < k < |items| && Touches(items[j], id) && Touches(items[k], id) ==>
          items[j].stamp < items[k].stamp)
  }

  /** No rename meets an open version of its new id. */
  ghost predicate RenamesAreFree(c: Tally, items: seq<Item>, byUuid: bool) {
    forall j :: 0 <= j < |items| && items[j].Rename? ==>
      items[j].id != items[j].oldId && OpenRows(Run(c, items[..j], byUuid).t, items[j].id) == {}
  }

  lemma StampsStayIncreasing(t: Table, items: seq<Item>, byUuid: bool)
    requires Valid(t) && items != [] && StampsIncrease(t, items) && InOrder(t, items[0])
    ensures StampsIncrease(Process(t, items[0], byUuid).t, items[1..])
  {
    hide Process, Valid;
    var r, rest := Process(t, items[0], byUuid), items[1..];
    ProcessInOrder(t, items[0], byUuid);
    forall j, id | 0 <= j < |rest| && Touches(rest[j], id) ensures AllBefore(r.t, id, rest[j].stamp) {
      assert rest[j] == items[j + 1];
      assert AllBefore(t, id, items[j + 1].stamp);
      if Touches(items[0], id) {
        assert AllUpTo(r.t, id, items[0].stamp);
      } else {
        assert forall i :: i in r.t && r.t[i].key == id ==> i in t && t[i] == r.t[i];
      }
    }
  }

  lemma RenamesStayFree(c: Tally, items: seq<Item>, byUuid: bool)
    requires items != [] && RenamesAreFree(c, items, byUuid)
    ensures RenamesAreFree(Count(c, Process(c.t, items[0], byUuid)), items[1..], byUuid)
  {
    hide Process;
    var c', rest := Count(c, Process(c.t, items[0], byUuid)), items[1..];
    forall j | 0 <= j < |rest| && rest[j].Rename?
      ensures rest[j].id != rest[j].oldId && OpenRows(Run(c', rest[..j], byUuid).t, rest[j].id) == {}
    {
      assert rest[j] == items[j + 1];
      assert items[..j + 1][0] == items[0] && items[..j + 1][1..] == rest[..j];
    }
  }

  /**
   In-order runs need no constraint: while stamps increase per id and renames are free, every
   prefix of the run keeps the invariant, no version is ever lost or rewritten, and both
   counters stay where they were.
   */
  lemma {:induction false} InOrderRun(c: Tally, items: seq<Item>, byUuid: bool)
    requires Valid(c.t) && StampsIncrease(c.t, items) && RenamesAreFree(c, items, byUuid)
    ensures var r := Run(c, items, byUuid);
            Valid(r.t) && r.skips == c.skips && r.drops == c.drops && HistoryKept(c.t, r.t)
    decreases items
  {
    hide Process, Valid, StampsIncrease, RenamesAreFree;
    if items != [] {
      FirstInOrder(c, items, byUuid);
      ProcessInOrder(c.t, items[0], byUuid);
      StampsStayIncreasing(c.t, items, byUuid);
      RenamesStayFree(c, items, byUuid);
      InOrderRun(Count(c, Process(c.t, items[0], byUuid)), items[1..], byUuid);
    }
  }

  lemma FirstInOrder(c: Tally, items: seq<Item>, byUuid: bool)
    requires items != [] && StampsIncrease(c.t, items) && RenamesAreFree(c, items, byUuid)
    ensures InOrder(c.t, items[0])
  {
    assert items[..0] == [] && Run(c, [], byUuid) == c;
  }

  lemma {:induction false} RunKeepsValid(c: Tally, items: seq<Item>, byUuid: bool)
    requires Valid(c.t)
    ensures Valid(Run(c, items, byUuid).t)
    decreases items
  {
    if items != [] {
      ProcessKeepsValid(c.t, items[0], byUuid);
      RunKeepsValid(Count(c, Process(c.t, items[0], byUuid)), items[1..], byUuid);
    }
  }
}
