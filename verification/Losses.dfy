/**
 What the worker's two loss counters tell, and what they do not: which changes are recorded,
 which are counted as lost, and which are neither.
 */
module Losses {
  import opened Options
  import opened Versions
  import opened Verification
  import opened LiveWrites
  import opened LiveRuns

  /** Everything an item asks for is visible in the table. */
  ghost predicate Recorded(t: Table, item: Item) {
    match item
    case Reconcile(id, stamp, p) => !Changed(t, id, p)
    case Rename(id, oldId, stamp, p) => AppliedBefore(t, id, stamp, p) && (id != oldId ==> OpenRows(t, oldId) == {})
    case Remove(id, stamp) => OpenRows(t, id) == {}
    case Sweep(live, stamp) => forall i :: i in AllOpen(t) ==> t[i].key in live
  }

  /** The id has no version that covers the stamp or a later instant, or has this very one. */
  predicate Writable(t: Table, id: Key, stamp: int, p: Payload) {
    || AppliedBefore(t, id, stamp, p)
    || forall i :: i in t && t[i].key == id ==>
         t[i].to.Some? && (t[i].to.value <= stamp || t[i].to.value <= t[i].from)
  }

  /** The id is open, and not before the stamp: the ordering guard will leave it open. */
  predicate OpenLater(t: Table, id: Key, stamp: int) { exists i :: i in OpenRows(t, id) && stamp <= t[i].from }

  /**
   The guards keep part of the change from the table and nothing counts it: a rename whose new id
   can be written while the old one stays open, or a sweep that is ignored, refused, or meets
   versions not older than itself.
   */
  predicate Unnoticed(t: Table, item: Item) {
    match item
    case Rename(id, oldId, stamp, p) => id != oldId && Writable(t, id, stamp, p) && OpenLater(t, oldId, stamp)
    case Sweep(live, stamp) =>
      || (live == {} && AllOpen(t) != {})
      || Refused(t, live, stamp)
      || exists i :: i in AllOpen(t) && t[i].key !in live && stamp <= t[i].from
    case _ => false
  }

  /**
   On any valid table and for any item: the whole change is recorded exactly when no loss is
   counted and it is not one of the unnoticed kind; and those are never counted.
   */
  lemma LossIsCountedUnlessUnnoticed(t: Table, item: Item, byUuid: bool)
    requires Valid(t)
    ensures var r := Process(t, item, byUuid);
            && (Recorded(r.t, item) <==> !r.lost && !r.dropped && !Unnoticed(t, item))
            && (Unnoticed(t, item) ==> !r.lost && !r.dropped)
  {
    hide DoReconcile, DoRename, DoRemove, DoSweep, Changed, AppliedBefore, Refused;
    match item
    case Reconcile(id, stamp, p) => ReconcileIsCounted(t, id, stamp, p, byUuid);
    case Rename(id, oldId, stamp, p) => RenameIsAccounted(t, id, oldId, stamp, p);
    case Remove(id, stamp) => RemoveIsCounted(t, id, stamp);
    case Sweep(live, stamp) => SweepIsAccounted(t, live, stamp);
  }

  lemma RenameIsAccounted(t: Table, id: Key, oldId: Key, stamp: int, p: Payload)
    requires Valid(t)
    ensures var r, item := DoRename(t, id, oldId, stamp, p), Rename(id, oldId, stamp, p);
            && (Recorded(r.t, item) <==> !r.lost && !r.dropped && !Unnoticed(t, item))
            && (Unnoticed(t, item) ==> !r.lost && !r.dropped)
  {
    hide DoRename, AppliedBefore, Valid, OpenRows;
    RenameIsCounted(t, id, oldId, stamp, p);
    if id != oldId {
      WrittenWhenWritable(t, id, oldId, stamp, p);
      if !DoRename(t, id, oldId, stamp, p).lost && !DoRename(t, id, oldId, stamp, p).dropped {
        OldIdStaysOpen(t, id, oldId, stamp, p);
      }
    }
  }

  /** For two different ids, the new version is there afterwards iff it was or can be written. */
  lemma WrittenWhenWritable(t: Table, id: Key, oldId: Key, stamp: int, p: Payload)
    requires Valid(t) && id != oldId
    ensures AppliedBefore(DoRename(t, id, oldId, stamp, p).t, id, stamp, p) <==> Writable(t, id, stamp, p)
  {
    hide RangePairs, Valid, Changed;
    var closed, row := Close(t, oldId, stamp), Row(id, stamp, Option.None, p);
    var t' := Insert(closed, row);
    RenameIsCounted(t, id, oldId, stamp, p);
    SameIdRows(t, id, oldId, stamp);
    if OpenRows(t, id) != {} {
      CloseKeepsValid(t, oldId, stamp);
      CommitValid(t, closed, !AppliedBefore(closed, id, stamp, p));
      SameVersions(t, closed, id, stamp, p);
    } else {
      RoomForOne(t, id, oldId, stamp, p);
      assert forall i :: i in t && t[i].key == id && t[i].to.None? ==> i in OpenRows(t, id);
    }
  }

  lemma SameIdRows(t: Table, id: Key, oldId: Key, stamp: int)
    requires id != oldId
    ensures OpenRows(Close(t, oldId, stamp), id) == OpenRows(t, id)
    ensures forall i :: i in t && t[i].key == id ==> Close(t, oldId, stamp)[i] == t[i]
  {}

  lemma SameVersions(t: Table, u: Table, id: Key, stamp: int, p: Payload)
    requires OpenRows(u, id) == OpenRows(t, id) && forall i :: i in OpenRows(t, id) ==> u[i] == t[i]
    ensures AppliedBefore(u, id, stamp, p) <==> AppliedBefore(t, id, stamp, p)
  {}

  /** An id without an open version takes a new one iff nothing of it covers the stamp or later. */
  lemma RoomForOne(t: Table, id: Key, oldId: Key, stamp: int, p: Payload)
    requires Valid(t) && id != oldId && OpenRows(t, id) == {}
    ensures DoRename(t, id, oldId, stamp, p).dropped <==>
            exists i :: i in t && t[i].key == id && t[i].to.Some? && stamp < t[i].to.value && t[i].from < t[i].to.value
    ensures !DoRename(t, id, oldId, stamp, p).lost
  {
    hide RangePairs, NewId;
    var closed, row := Close(t, oldId, stamp), Row(id, stamp, Option.None, p);
    var t', n := Insert(closed, row), NewId(closed);
    SameIdRows(t, id, oldId, stamp);
    CloseKeepsValid(t, oldId, stamp);
    InsertKeepsOrder(closed, row);
    RangeCleanIsDisjoint(t');
    if i :| i in t && t[i].key == id && t[i].to.Some? && stamp < t[i].to.value && t[i].from < t[i].to.value {
      var x := Max(stamp, t[i].from);
      assert Covers(t'[i], x) && Covers(t'[n], x);
    } else {
      forall i, j, x | i in t' && j in t' && i != j && t'[i].key == t'[j].key && Covers(t'[i], x)
        ensures !Covers(t'[j], x)
      {
        assert i != n && j != n ==> closed[i].key == closed[j].key && Covers(closed[i], x);
        assert forall k :: k in t && t[k].key == id && t[k].to.None? ==> k in OpenRows(t, id);
      }
    }
  }

  lemma OldIdStaysOpen(t: Table, id: Key, oldId: Key, stamp: int, p: Payload)
    requires Valid(t) && id != oldId && !DoRename(t, id, oldId, stamp, p).dropped
    ensures OpenRows(DoRename(t, id, oldId, stamp, p).t, oldId) == {} <==> !OpenLater(t, oldId, stamp)
  {
    hide RangePairs, NewId;
    var closed, row := Close(t, oldId, stamp), Row(id, stamp, Option.None, p);
    var t' := Insert(closed, row);
    CloseKeepsOrder(t, oldId, stamp);
    InsertKeepsOrder(closed, row);
    assert forall i :: i in OpenRows(t', oldId) <==> i in OpenRows(closed, oldId);
    assert forall i :: i in OpenRows(closed, oldId) <==> i in OpenRows(t, oldId) && stamp <= t[i].from;
  }

  lemma SweepIsAccounted(t: Table, live: set<Key>, stamp: int)
    requires Valid(t)
    ensures var r, item := DoSweep(t, live, stamp), Sweep(live, stamp);
            !r.lost && !r.dropped && (Recorded(r.t, item) <==> !Unnoticed(t, item))
  {
    hide RangePairs, Valid;
    SweepIsAccepted(t, live, stamp);
    var r := DoSweep(t, live, stamp);
    if Refused(t, live, stamp) && Stale(t, live, stamp) != {} {
      var i := AnyOf(Stale(t, live, stamp));
      assert i in AllOpen(t);
    } else if live == {} && AllOpen(t) != {} {
      var i := AnyOf(AllOpen(t));
      assert t[i].key !in live;
    } else {
      assert r.t == CloseStale(t, live, stamp);
      assert forall i :: i in AllOpen(r.t) <==> i in AllOpen(t) && !(t[i].key !in live && t[i].from < stamp);
    }
  }

  // ---- Two that go unnoticed -----------------------------------------------------------------

  /** A rename that comes late, or with its old version's own stamp, leaves two ids open. */
  lemma LateRenameLeavesBothOpen(p: Payload, q: Payload, from: int, stamp: int)
    requires stamp <= from
    ensures var t, item := map[0 := Row("old", from, Option.None, p)], Rename("new", "old", stamp, q);
            var r := Process(t, item, true);
            && Valid(t) && !r.lost && !r.dropped && !Recorded(r.t, item)
            && OpenRows(r.t, "old") != {} && OpenRows(r.t, "new") != {}
  {
    hide RangePairs, Valid;
    var t: Table, item := map[0 := Row("old", from, Option.None, p)], Rename("new", "old", stamp, q);
    assert Valid(t) by { OneRowIsValid(t); }
    assert 0 in OpenRows(t, "old");
    LossIsCountedUnlessUnnoticed(t, item, true);
    RenameIsCounted(t, "new", "old", stamp, q);
    OldIdStaysOpen(t, "new", "old", stamp, q);
  }

  lemma OneRowIsValid(t: Table)
    requires |t| == 1 && 0 in t && t[0].to.None?
    ensures Valid(t)
  {
    assert t.Keys == {0} by { OneKey(t); }
  }

  lemma OneKey(t: Table)
    requires |t| == 1 && 0 in t
    ensures t.Keys == {0}
  {
    assert |t.Keys - {0}| == 0;
    assert t.Keys == {0} + (t.Keys - {0});
  }

  /** So does a sweep that comes before the version it should close. */
  lemma LateSweepLeavesUnlistedOpen(p: Payload, from: int, stamp: int)
    requires stamp <= from
    ensures var t, item := map[0 := Row("a", from, Option.None, p)], Sweep({"b"}, stamp);
            var r := Process(t, item, true);
            Valid(t) && !r.lost && !r.dropped && !Recorded(r.t, item)
  {
    hide RangePairs, Valid;
    var t: Table := map[0 := Row("a", from, Option.None, p)];
    assert Valid(t) by { OneRowIsValid(t); }
    assert 0 in AllOpen(t) && t[0].key !in {"b"};
    LossIsCountedUnlessUnnoticed(t, Sweep({"b"}, stamp), true);
  }

  /** A change is skipped as out of order exactly when it differs and a version starts at or after it. */
  lemma SkippedExactlyWhenLate(t: Table, id: Key, stamp: int, p: Payload, byUuid: bool)
    requires Valid(t)
    ensures DoReconcile(t, id, stamp, p, byUuid).lost <==>
            Changed(t, id, p) && exists i :: i in OpenRows(t, id) && stamp <= t[i].from
  {
    hide RangePairs, FirstStart, Changed, Valid;
    var closed := Close(t, id, stamp);
    if OpenRows(closed, id) != {} {
      SurvivorWasAlone(t, id, stamp);
      assert exists i :: i in OpenRows(closed, id);
      CommitValid(t, t, Changed(t, id, p));
    } else {
      forall i | i in OpenRows(t, id) ensures t[i].from < stamp { assert i !in OpenRows(closed, id); }
    }
  }

  // ---- The guards without change detection ----------------------------------------------------

  /** Close and insert as for a reconcile, whether or not the open version differs. */
  function WriteVersion(t: Table, id: Key, stamp: int, p: Payload, byUuid: bool): Table {
    var closed := Close(t, id, stamp);
    var start := if ClosedBy(t, id, stamp) == {} then FirstStart(t, id, stamp, p, byUuid) else stamp;
    Commit(t, Insert(closed, Row(id, start, Option.None, p)), false).t
  }

  /** A reconcile is that, behind change detection. */
  lemma ReconcileIsGuardedWrite(t: Table, id: Key, stamp: int, p: Payload, byUuid: bool)
    ensures DoReconcile(t, id, stamp, p, byUuid).t ==
            if Changed(t, id, p) then WriteVersion(t, id, stamp, p, byUuid) else t
  {}

  /**
   Renames, removals and sweeps need no change detection to be replay-safe. A reconcile, which is the
   guarded write behind change detection, does need it for a first version: the guards alone make
   its replay a no-op iff the version starts at its stamp.
   */
  lemma GuardsAloneReplay(t: Table, id: Key, stamp: int, p: Payload, byUuid: bool)
    requires Valid(t)
    ensures var t' := WriteVersion(t, id, stamp, p, byUuid);
            WriteVersion(t', id, stamp, p, byUuid) == t' <==> FirstStart(t, id, stamp, p, byUuid) == stamp
    ensures DoReconcile(t, id, stamp, p, byUuid).t ==
            if Changed(t, id, p) then WriteVersion(t, id, stamp, p, byUuid) else t
  {
    hide RangePairs, Close, FirstStart, WriteVersion, DoReconcile, Changed;
    ReconcileIsGuardedWrite(t, id, stamp, p, byUuid);
    FirstStartIsFirst(t, id, stamp, p, byUuid);
    if FirstStart(t, id, stamp, p, byUuid) == stamp {
      LaterVersionReplays(t, id, stamp, p, byUuid);
    } else {
      FirstVersionIsWrittenTwice(t, id, stamp, p, byUuid);
    }
  }

  lemma LaterVersionReplays(t: Table, id: Key, stamp: int, p: Payload, byUuid: bool)
    requires Valid(t) && FirstStart(t, id, stamp, p, byUuid) == stamp
    ensures var t' := WriteVersion(t, id, stamp, p, byUuid); WriteVersion(t', id, stamp, p, byUuid) == t'
  {
    hide RangePairs, Close, FirstStart;
    var closed, row := Close(t, id, stamp), Row(id, stamp, Option.None, p);
    var t' := Insert(closed, row);
    CloseKeepsOrder(t, id, stamp);
    InsertKeepsOrder(closed, row);
    if RangePairs(t') == {} {
      IdleClose(t', id, stamp);
      IdleInsert(t', Row(id, FirstStart(t', id, stamp, p, byUuid), Option.None, p));
    }
  }

  lemma FirstVersionIsWrittenTwice(t: Table, id: Key, stamp: int, p: Payload, byUuid: bool)
    requires Valid(t) && FirstStart(t, id, stamp, p, byUuid) < stamp
    ensures var t' := WriteVersion(t, id, stamp, p, byUuid); WriteVersion(t', id, stamp, p, byUuid) != t'
  {
    hide RangePairs, NewId, Valid, Insert;
    var start := FirstStart(t, id, stamp, p, byUuid);
    var row := Row(id, start, Option.None, p);
    assert forall i :: i in t ==> t[i].key != id;
    IdleClose(t, id, stamp);
    InsertInOrder(t, row);
    var t' := Insert(t, row);
    CommitValid(t, t', false);
    assert t' == WriteVersion(t, id, stamp, p, byUuid);
    var n, next := NewId(t), Row(id, stamp, Option.None, p);
    assert t'[n] == row && n in ClosedBy(t', id, stamp);
    CloseInOrder(t', id, stamp);
    InsertInOrder(Close(t', id, stamp), next);
    CommitValid(t', Insert(Close(t', id, stamp), next), false);
  }
}
