/**
 The startup snapshot: one reconcile item per registry entry, then one sweep per registry,
 all stamped with the same instant and appended to the same ordered stream.
 */
module Snapshot {
  import opened Options
  import opened Versions
  import opened Verification
  import opened LiveWrites
  import opened LiveRuns

  datatype Entry = Entry(id: Key, payload: Payload)

  function Ids(es: seq<Entry>): set<Key> { set e | e in es :: e.id }

  function ItemsOf(es: seq<Entry>, now: int): seq<Item> {
    seq(|es|, k requires 0 <= k < |es| => Reconcile(es[k].id, now, es[k].payload))
  }

  /** One registry's share of the snapshot. */
  function SnapshotOf(es: seq<Entry>, now: int): seq<Item> { ItemsOf(es, now) + [Sweep(Ids(es), now)] }

  /** A registry lists each id once. */
  predicate Listing(es: seq<Entry>) { forall j, k :: 0 <= j < k < |es| ==> es[j].id != es[k].id }

  /** Everything on record happened before the snapshot. */
  predicate Past(t: Table, now: int) {
    forall i :: i in t ==> t[i].from < now && (t[i].to.Some? ==> t[i].to.value < now)
  }

  /** The id's one open row says what the registry says. */
  ghost predicate Current(t: Table, e: Entry) {
    exists i :: OpenRows(t, e.id) == {i} && SameVersion(t[i].payload, e.payload)
  }

  /** Rows of other ids are the same rows. */
  ghost predicate OnlyTouches(t: Table, t': Table, ids: set<Key>) {
    forall i :: (i in t && t[i].key !in ids ==> i in t' && t'[i] == t[i])
             && (i in t' && t'[i].key !in ids ==> i in t && t'[i] == t[i])
  }

  lemma SameRows(t: Table, t': Table, id: Key)
    requires forall i :: (i in t && t[i].key == id ==> i in t' && t'[i] == t[i])
                      && (i in t' && t'[i].key == id ==> i in t && t'[i] == t[i])
    ensures OpenRows(t', id) == OpenRows(t, id)
    ensures forall now :: AllBefore(t, id, now) <==> AllBefore(t', id, now)
  {}

  /** One entry's item makes it current and leaves every other id's rows alone. */
  lemma ItemReconciles(c: Tally, e: Entry, now: int, byUuid: bool)
    requires Valid(c.t) && AllBefore(c.t, e.id, now)
    ensures var r := Count(c, Process(c.t, Reconcile(e.id, now, e.payload), byUuid));
            && Valid(r.t) && r.skips == c.skips && r.drops == c.drops
            && HistoryKept(c.t, r.t) && OnlyTouches(c.t, r.t, {e.id})
            && Current(r.t, e) && AllUpTo(r.t, e.id, now)
  {
    hide DoReconcile, Valid, Changed, Succeeds, HistoryKept, AllBefore, AllUpTo;
    var item := Reconcile(e.id, now, e.payload);
    assert InOrder(c.t, item) && Touches(item, e.id);
    ReconcileInOrder(c.t, e.id, now, e.payload, byUuid);
  }

  lemma CurrentStays(t: Table, t': Table, e: Entry, ids: set<Key>, now: int)
    requires Current(t, e) && AllUpTo(t, e.id, now) && OnlyTouches(t, t', ids) && e.id !in ids
    ensures Current(t', e) && AllUpTo(t', e.id, now)
  {
    SameRows(t, t', e.id);
    var i :| OpenRows(t, e.id) == {i} && SameVersion(t[i].payload, e.payload);
    assert i in OpenRows(t, e.id);
  }

  lemma BeforeStays(t: Table, t': Table, id: Key, ids: set<Key>, now: int)
    requires AllBefore(t, id, now) && OnlyTouches(t, t', ids) && id !in ids
    ensures AllBefore(t', id, now)
  {}

  lemma TouchesAdd(a: Table, b: Table, c: Table, x: set<Key>, y: set<Key>)
    requires OnlyTouches(a, b, x) && OnlyTouches(b, c, y)
    ensures OnlyTouches(a, c, x + y)
  {}

  lemma HistoryAdds(a: Table, b: Table, c: Table)
    requires HistoryKept(a, b) && HistoryKept(b, c)
    ensures HistoryKept(a, c)
  {}

  /** The items alone: every listed id becomes current, nothing else moves, nothing is lost. */
  lemma {:induction false} ItemsReconcile(c: Tally, es: seq<Entry>, now: int, byUuid: bool)
    requires Valid(c.t) && Listing(es) && forall e :: e in es ==> AllBefore(c.t, e.id, now)
    ensures var r := Run(c, ItemsOf(es, now), byUuid);
            && Valid(r.t) && r.skips == c.skips && r.drops == c.drops
            && HistoryKept(c.t, r.t) && OnlyTouches(c.t, r.t, Ids(es))
            && forall e :: e in es ==> Current(r.t, e) && AllUpTo(r.t, e.id, now)
    decreases es
  {
    hide Process, Valid, Current, AllUpTo, AllBefore, HistoryKept, OnlyTouches;
    if es == [] {
      assert HistoryKept(c.t, c.t) && OnlyTouches(c.t, c.t, {}) by { Unmoved(c.t); }
      assert Ids(es) == {};
    } else {
      var e, rest := es[0], es[1..];
      assert ItemsOf(es, now)[0] == Reconcile(e.id, now, e.payload);
      assert ItemsOf(es, now)[1..] == ItemsOf(rest, now);
      assert es == [e] + rest;
      assert Ids(es) == {e.id} + Ids(rest) && e.id !in Ids(rest);
      ItemReconciles(c, e, now, byUuid);
      var c' := Count(c, Process(c.t, Reconcile(e.id, now, e.payload), byUuid));
      forall x | x in rest ensures AllBefore(c'.t, x.id, now) {
        BeforeStays(c.t, c'.t, x.id, {e.id}, now);
      }
      ItemsReconcile(c', rest, now, byUuid);
      var r := Run(c', ItemsOf(rest, now), byUuid);
      CurrentStays(c'.t, r.t, e, Ids(rest), now);
      TouchesAdd(c.t, c'.t, r.t, {e.id}, Ids(rest));
      HistoryAdds(c.t, c'.t, r.t);
    }
  }

  lemma Unmoved(t: Table)
    ensures HistoryKept(t, t) && OnlyTouches(t, t, {})
  {}

  /** On any table, the rows a sweep closes are at most two, or at most half of the open ones. */
  lemma SweepIsBounded(t: Table, live: set<Key>, stamp: int)
    ensures var t' := DoSweep(t, live, stamp).t;
            && t'.Keys == t.Keys
            && (var closed := set i | i in t && t'[i] != t[i];
                && closed <= AllOpen(t) && (|closed| <= FREE_CLOSES || 2 * |closed| <= |AllOpen(t)|)
                && forall i :: i in closed ==> t[i].key !in live && t'[i] == t[i].(to := Some(stamp)))
  {
    hide RangePairs;
    var t' := DoSweep(t, live, stamp).t;
    var closed := set i | i in t && t'[i] != t[i];
    if t' != t {
      assert closed == Stale(t, live, stamp);
    } else {
      assert closed == {};
    }
  }

  /** The sweep will be carried out: the registry listed something, and it is not implausible. */
  predicate Sweeps(t: Table, es: seq<Entry>, now: int) { es != [] && !Refused(t, Ids(es), now) }

  lemma SweepCloses(t: Table, es: seq<Entry>, now: int)
    requires Valid(t) && Sweeps(t, es, now)
    requires forall i :: i in t && t[i].key !in Ids(es) ==> t[i].from < now
    ensures var t' := DoSweep(t, Ids(es), now).t;
            && (forall i :: i in AllOpen(t') ==> t'[i].key in Ids(es))
            && (forall id :: id in Ids(es) ==> OpenRows(t', id) == OpenRows(t, id))
            && (forall i :: i in t && t[i].key in Ids(es) ==> i in t' && t'[i] == t[i])
            && HistoryKept(t, t')
  {
    SweepIsAccepted(t, Ids(es), now);
    assert es[0].id in Ids(es);
    assert DoSweep(t, Ids(es), now).t == CloseStale(t, Ids(es), now);
  }

  /**
   The snapshot reconciles: from any valid table recorded before it, a registry's items and its
   sweep leave exactly the listed ids open, each with the listed version, keep every closed
   version, and lose nothing. When the sweep is refused, unlisted ids are left as they were.
   */
  lemma SnapshotReconciles(c: Tally, es: seq<Entry>, now: int, byUuid: bool)
    requires Valid(c.t) && Listing(es) && Past(c.t, now)
    ensures var swept := Sweeps(Run(c, ItemsOf(es, now), byUuid).t, es, now);
            var r := Run(c, SnapshotOf(es, now), byUuid);
            && Valid(r.t) && r.skips == c.skips && r.drops == c.drops && HistoryKept(c.t, r.t)
            && (forall e :: e in es ==> Current(r.t, e))
            && (if swept then forall id :: OpenRows(r.t, id) != {} <==> id in Ids(es)
                else forall id :: id !in Ids(es) ==> OpenRows(r.t, id) == OpenRows(c.t, id))
  {
    hide DoReconcile, Valid, Process, Refused;
    forall e | e in es ensures AllBefore(c.t, e.id, now) {}
    ItemsReconcile(c, es, now, byUuid);
    var m, live := Run(c, ItemsOf(es, now), byUuid), Ids(es);
    RunAppends(c, ItemsOf(es, now), [Sweep(live, now)], byUuid);
    RunOne(m, Sweep(live, now), byUuid);
    var t' := DoSweep(m.t, live, now).t;
    assert Process(m.t, Sweep(live, now), byUuid) == DoSweep(m.t, live, now) by {
      SweepProcess(m.t, live, now, byUuid);
    }
    ProcessKeepsValid(m.t, Sweep(live, now), byUuid);
    SweepIsAccepted(m.t, live, now);
    if Sweeps(m.t, es, now) {
      assert forall i :: i in m.t && m.t[i].key !in live ==> i in c.t;
      SweepCloses(m.t, es, now);
      HistoryAdds(c.t, m.t, t');
      forall id ensures OpenRows(t', id) != {} <==> id in live {
        assert forall i :: i in OpenRows(t', id) ==> i in AllOpen(t');
        if id in live {
          var e :| e in es && e.id == id;
          assert Current(m.t, e);
        }
      }
      forall e | e in es ensures Current(t', e) {
        assert e.id in live;
      }
    } else {
      SweepSkipped(m.t, es, now);
      forall id | id !in live ensures OpenRows(t', id) == OpenRows(c.t, id) {
        SameRows(c.t, m.t, id);
      }
    }
  }

  lemma SweepProcess(t: Table, live: set<Key>, now: int, byUuid: bool)
    ensures Process(t, Sweep(live, now), byUuid) == DoSweep(t, live, now)
  {}

  lemma SweepSkipped(t: Table, es: seq<Entry>, now: int)
    requires !Sweeps(t, es, now)
    ensures DoSweep(t, Ids(es), now).t == t
  {
    if es == [] && AllOpen(t) == {} && !Refused(t, Ids(es), now) {
      assert forall i :: i in Stale(t, Ids(es), now) ==> i in AllOpen(t);
      IdleSweep(t, Ids(es), now);
      assert Commit(t, t, false).t == t;
    }
  }
}
