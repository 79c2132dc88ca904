/**
 The metadata worker's writes: guarded close and guarded insert, and the four ways an item
 uses them. One registry's table at a time.
 */
module LiveWrites {
  import opened Options
  import opened Versions
  import opened Verification

  /** One queue item, as the worker dispatches it. `stamp` is its close timestamp. */
  datatype Item =
    | Reconcile(id: Key, stamp: int, payload: Payload)
    | Rename(id: Key, oldId: Key, stamp: int, payload: Payload)
    | Remove(id: Key, stamp: int)
    | Sweep(live: set<Key>, stamp: int)

  /** What processing an item did: the table, and whether a change was lost. */
  datatype Outcome = Outcome(t: Table, lost: bool, dropped: bool)

  // ---- Statements ---------------------------------------------------------------------

  function OpenRows(t: Table, id: Key): set<nat> { set i | i in t && t[i].key == id && t[i].to.None? }

  /** valid_to IS NULL AND valid_from < ts: the ordering guard. */
  predicate Closable(t: Table, i: nat, ts: int) { i in t && t[i].to.None? && t[i].from < ts }

  function Close(t: Table, id: Key, ts: int): Table {
    map i | i in t :: if t[i].key == id && Closable(t, i, ts) then t[i].(to := Some(ts)) else t[i]
  }

  function ClosedBy(t: Table, id: Key, ts: int): set<nat> {
    set i | i in t && t[i].key == id && Closable(t, i, ts)
  }

  function NewId(t: Table): (n: nat)
    ensures n !in t
  {
    if t.Keys == {} then 0 else
      GreatestExists(t.Keys);
      var m :| m in t.Keys && forall k :: k in t.Keys ==> k <= m;
      m + 1
  }

  lemma GreatestExists(ks: set<nat>)
    requires ks != {}
    ensures exists m :: m in ks && forall k :: k in ks ==> k <= m
  {
    var more := (a: nat, b: nat) => a > b;
    var m := Minimum(ks, more);
    assert forall k :: k in ks && k != m ==> more(m, k);
  }

  /** INSERT ... WHERE NOT EXISTS (an open row of the id) */
  function Insert(t: Table, r: Row): Table {
    if OpenRows(t, r.key) == {} then t[NewId(t) := r] else t
  }

  /** The registry listener's notion of "the same version": uuid and modified_at aside. */
  predicate SameVersion(a: Payload, b: Payload) {
    a.device == b.device && a.area == b.area && a.createdAt == b.createdAt && a.attrs == b.attrs
  }

  /** ORDER BY valid_from DESC LIMIT 1 among the open rows of the id. */
  predicate IsCurrent(t: Table, id: Key, i: nat) {
    i in OpenRows(t, id) && forall j :: j in OpenRows(t, id) ==> t[j].from <= t[i].from
  }

  /** _row_changed: no open row, or one that differs. With several newest rows, any of them. */
  predicate Changed(t: Table, id: Key, p: Payload) {
    !exists i :: i in OpenRows(t, id) && IsCurrent(t, id, i) && SameVersion(t[i].payload, p)
  }

  predicate AnyVersion(t: Table, id: Key, uuid: string, byUuid: bool) {
    exists i :: i in t && (t[i].key == id || (byUuid && t[i].payload.uuid == uuid))
  }

  /** _first_version_params: created_at, for an id never seen, and never after the item. */
  function FirstStart(t: Table, id: Key, stamp: int, p: Payload, byUuid: bool): int {
    if p.createdAt.None? || p.createdAt.value >= stamp || AnyVersion(t, id, p.uuid, byUuid) then stamp
    else p.createdAt.value
  }

  /** An open row starting at the item's own stamp and carrying its payload: a replay. */
  predicate AppliedBefore(t: Table, id: Key, stamp: int, p: Payload) {
    (exists i :: i in OpenRows(t, id) && t[i].from == stamp) && !Changed(t, id, p)
  }

  // ---- Items -----------------------------------------------------------------------------

  /** The exclusion constraint refuses the transaction: it is rolled back and the item dropped. */
  function Commit(before: Table, after: Table, lost: bool): Outcome {
    if RangePairs(after) != {} then Outcome(before, false, true) else Outcome(after, lost, false)
  }

  function DoReconcile(t: Table, id: Key, stamp: int, p: Payload, byUuid: bool): Outcome {
    if !Changed(t, id, p) then Outcome(t, false, false) else
      var closed := Close(t, id, stamp);
      var start := if ClosedBy(t, id, stamp) == {} then FirstStart(t, id, stamp, p, byUuid) else stamp;
      var t' := Insert(closed, Row(id, start, Option.None, p));
      Commit(t, t', OpenRows(closed, id) != {} && !AppliedBefore(t', id, stamp, p))
  }

  function DoRename(t: Table, id: Key, oldId: Key, stamp: int, p: Payload): Outcome {
    var closed := Close(t, oldId, stamp);
    var t' := Insert(closed, Row(id, stamp, Option.None, p));
    Commit(t, t', OpenRows(closed, id) != {} && !AppliedBefore(t', id, stamp, p))
  }

  function DoRemove(t: Table, id: Key, stamp: int): Outcome {
    var t' := Close(t, id, stamp);
    Commit(t, t', ClosedBy(t, id, stamp) == {} && OpenRows(t', id) != {})
  }

  function AllOpen(t: Table): set<nat> { set i | i in t && t[i].to.None? }

  function Stale(t: Table, live: set<Key>, stamp: int): set<nat> {
    set i | i in t && t[i].key !in live && Closable(t, i, stamp)
  }

  const FREE_CLOSES := 2

  /** More than SCD2_SWEEP_FREE_CLOSES rows, and more than half of the open ones. */
  predicate Refused(t: Table, live: set<Key>, stamp: int) {
    |Stale(t, live, stamp)| > FREE_CLOSES && 2 * |Stale(t, live, stamp)| > |AllOpen(t)|
  }

  function CloseStale(t: Table, live: set<Key>, stamp: int): Table {
    map i | i in t :: if i in Stale(t, live, stamp) then t[i].(to := Some(stamp)) else t[i]
  }

  function DoSweep(t: Table, live: set<Key>, stamp: int): Outcome {
    if (AllOpen(t) != {} && live == {}) || Refused(t, live, stamp) then Outcome(t, false, false)
    else Commit(t, CloseStale(t, live, stamp), false)
  }

  /** _dispatch_item. `byUuid` holds for the entity registry only. */
  function Process(t: Table, item: Item, byUuid: bool): Outcome {
    match item
    case Reconcile(id, stamp, p) => DoReconcile(t, id, stamp, p, byUuid)
    case Rename(id, oldId, stamp, p) => DoRename(t, id, oldId, stamp, p)
    case Remove(id, stamp) => DoRemove(t, id, stamp)
    case Sweep(live, stamp) => DoSweep(t, live, stamp)
  }

  // ---- In order ----------------------------------------------------------------------------

  predicate Touches(item: Item, id: Key) {
    match item
    case Reconcile(x, _, _) => id == x
    case Rename(x, oldId, _, _) => id == x || id == oldId
    case Remove(x, _) => id == x
    case Sweep(live, _) => id !in live
  }

  ghost predicate Valid(t: Table) { Disjoint(t) && NoneInverted(t) }

  /** Everything recorded about the id happened before the stamp. */
  predicate AllBefore(t: Table, id: Key, stamp: int) {
    forall i :: i in t && t[i].key == id ==> t[i].from < stamp && (t[i].to.Some? ==> t[i].to.value < stamp)
  }

  predicate AllUpTo(t: Table, id: Key, stamp: int) {
    forall i :: i in t && t[i].key == id ==> t[i].from <= stamp && (t[i].to.Some? ==> t[i].to.value <= stamp)
  }

  /** The item is newer than all its ids' versions, and a rename's new id is not in use. */
  ghost predicate InOrder(t: Table, item: Item) {
    && (forall id :: Touches(item, id) ==> AllBefore(t, id, item.stamp))
    && (item.Rename? ==> item.id != item.oldId && OpenRows(t, item.id) == {})
  }

  /** Rows of ids the item does not touch. */
  ghost predicate OthersKept(t: Table, t': Table, item: Item) {
    forall i :: (i in t && !Touches(item, t[i].key) ==> i in t' && t'[i] == t[i])
             && (i in t' && !Touches(item, t'[i].key) ==> i in t && t'[i] == t[i])
  }

  /** Nothing is deleted, no version is rewritten, and at most an open end gets closed. */
  ghost predicate HistoryKept(t: Table, t': Table) {
    forall i :: i in t ==>
      i in t' && (t'[i] == t[i] || (t[i].to.None? && t'[i].to.Some? && t'[i] == t[i].(to := t'[i].to)))
  }

  lemma ValidHasOneOpen(t: Table, id: Key, i: nat, j: nat)
    requires Valid(t) && i in OpenRows(t, id) && j in OpenRows(t, id)
    ensures i == j
  {
    var x := Max(t[i].from, t[j].from);
    assert Covers(t[i], x) && Covers(t[j], x);
  }

  lemma CurrentIsTheOpenOne(t: Table, id: Key, i: nat, p: Payload)
    requires Valid(t) && i in OpenRows(t, id)
    ensures Changed(t, id, p) <==> !SameVersion(t[i].payload, p)
  {
    forall j | j in OpenRows(t, id) ensures j == i { ValidHasOneOpen(t, id, i, j); }
    assert IsCurrent(t, id, i);
  }

  /** Closing in order ends the open row at the stamp and keeps the table valid. */
  lemma CloseInOrder(t: Table, id: Key, stamp: int)
    requires Valid(t) && AllBefore(t, id, stamp)
    ensures var t' := Close(t, id, stamp);
            && Valid(t') && OpenRows(t', id) == {} && AllUpTo(t', id, stamp)
            && t'.Keys == t.Keys && (forall i :: i in t ==> t'[i].key == t[i].key)
            && (forall i :: i in t && t[i].key != id ==> t'[i] == t[i])
            && ClosedBy(t, id, stamp) == OpenRows(t, id)
  {
    var t' := Close(t, id, stamp);
    forall i, x | i in t' && Covers(t'[i], x) ensures Covers(t[i], x) {
    }
  }

  /** Inserting an open row at or after every end of its id keeps the table valid. */
  lemma InsertInOrder(t: Table, r: Row)
    requires Valid(t) && r.to.None? && OpenRows(t, r.key) == {}
    requires forall i :: i in t && t[i].key == r.key ==> t[i].to.Some? && t[i].to.value <= r.from
    ensures var t' := Insert(t, r);
            && Valid(t') && t' == t[NewId(t) := r] && OpenRows(t', r.key) == {NewId(t)}
  {
    var t', n := Insert(t, r), NewId(t);
    forall i, j, x | i in t' && j in t' && i != j && t'[i].key == t'[j].key && Covers(t'[i], x)
      ensures !Covers(t'[j], x)
    {
      if i != n && j != n {
        assert Covers(t[i], x) && t[i].key == t[j].key;
      }
    }
    assert forall i :: i in OpenRows(t', r.key) ==> i == n || i in OpenRows(t, r.key);
  }

  lemma CommitValid(before: Table, after: Table, lost: bool)
    requires Valid(after)
    ensures Commit(before, after, lost) == Outcome(after, lost, false)
  {
    RangeCleanIsDisjoint(after);
  }

  /** What an in-order item is promised to do. */
  ghost predicate Applied(t: Table, r: Outcome, item: Item) {
    && !r.lost && !r.dropped && Valid(r.t) && OthersKept(t, r.t, item) && HistoryKept(t, r.t)
    && forall id :: Touches(item, id) ==> AllUpTo(r.t, id, item.stamp)
  }

  /** The open version ends exactly where its successor starts; a first version may start earlier. */
  ghost predicate Succeeds(t: Table, t': Table, id: Key, stamp: int, p: Payload) {
    && (forall i :: i in OpenRows(t, id) ==> i in t' && t'[i] == t[i].(to := Some(stamp)))
    && exists n ::
         && n !in t && n in t' && t'[n] == Row(id, t'[n].from, Option.None, p)
         && (t'[n].from == stamp || (p.createdAt == Some(t'[n].from) && t'[n].from < stamp
                                     && forall i :: i in t ==> t[i].key != id))
  }

  /** Close and insert, for an id whose versions all lie before the stamp. */
  lemma CloseAndInsert(t: Table, id: Key, stamp: int, start: int, p: Payload)
    requires Valid(t) && AllBefore(t, id, stamp) && start <= stamp
    requires start != stamp ==>
      p.createdAt == Some(start) && forall i :: i in t ==> t[i].key != id
    ensures var t' := Insert(Close(t, id, stamp), Row(id, start, Option.None, p));
            && Valid(t') && Succeeds(t, t', id, stamp, p) && HistoryKept(t, t')
            && AllUpTo(t', id, stamp) && (forall i :: i in t && t[i].key != id ==> i in t' && t'[i] == t[i])
            && (forall i :: i in t' && t'[i].key != id ==> i in t)
            && exists n :: OpenRows(t', id) == {n} && t'[n].payload == p
  {
    var closed, row := Close(t, id, stamp), Row(id, start, Option.None, p);
    CloseInOrder(t, id, stamp);
    forall i | i in closed && closed[i].key == id
      ensures closed[i].to.Some? && closed[i].to.value <= start
    {
      assert closed[i].to.None? ==> i in OpenRows(closed, id);
    }
    InsertInOrder(closed, row);
    var t', n := Insert(closed, row), NewId(closed);
    assert OpenRows(t', id) == {n} && t'[n].payload == p;
    assert n !in t && t'[n] == row;
  }

  lemma FirstStartIsFirst(t: Table, id: Key, stamp: int, p: Payload, byUuid: bool)
    ensures var start := FirstStart(t, id, stamp, p, byUuid);
            && start <= stamp
            && (start != stamp ==> p.createdAt == Some(start) && forall i :: i in t ==> t[i].key != id)
    ensures p.createdAt.Some? && p.createdAt.value <= stamp && NeverSeen(t, id, p, byUuid) ==>
      FirstStart(t, id, stamp, p, byUuid) == p.createdAt.value
  {}

  /** No version of the id and, for entities, none of the registry entry under another id. */
  predicate NeverSeen(t: Table, id: Key, p: Payload, byUuid: bool) {
    forall i :: i in t ==> t[i].key != id && (byUuid ==> t[i].payload.uuid != p.uuid)
  }

  /** An id's first version covers every instant since its registry entry was created. */
  lemma FirstVersionReachesBack(t: Table, id: Key, stamp: int, p: Payload, byUuid: bool, x: int)
    requires Valid(t) && NeverSeen(t, id, p, byUuid)
    requires p.createdAt.Some? && p.createdAt.value <= stamp && p.createdAt.value <= x
    ensures var t' := DoReconcile(t, id, stamp, p, byUuid).t;
            exists i :: i in OpenRows(t', id) && t'[i].payload == p && Covers(t'[i], x)
  {
    hide RangePairs, FirstStart;
    var start := FirstStart(t, id, stamp, p, byUuid);
    FirstStartIsFirst(t, id, stamp, p, byUuid);
    CloseInOrder(t, id, stamp);
    CloseAndInsert(t, id, stamp, start, p);
    assert Changed(t, id, p);
    var t' := Insert(Close(t, id, stamp), Row(id, start, Option.None, p));
    CommitValid(t, t', false);
    var n := NewId(Close(t, id, stamp));
    assert n in OpenRows(t', id) && t'[n] == Row(id, start, Option.None, p);
  }

  lemma ReconcileChanged(t: Table, id: Key, stamp: int, p: Payload, byUuid: bool)
    requires Valid(t) && AllBefore(t, id, stamp) && Changed(t, id, p)
    ensures var r := DoReconcile(t, id, stamp, p, byUuid);
            && Applied(t, r, Reconcile(id, stamp, p)) && Succeeds(t, r.t, id, stamp, p)
            && (exists n :: OpenRows(r.t, id) == {n} && r.t[n].payload == p)
  {
    hide RangePairs, Valid, Insert, Close, Changed, FirstStart, OpenRows, Succeeds, HistoryKept;
    var start := if ClosedBy(t, id, stamp) == {} then FirstStart(t, id, stamp, p, byUuid) else stamp;
    CloseInOrder(t, id, stamp);
    FirstStartIsFirst(t, id, stamp, p, byUuid);
    CloseAndInsert(t, id, stamp, start, p);
    var t' := Insert(Close(t, id, stamp), Row(id, start, Option.None, p));
    CommitValid(t, t', false);
    assert DoReconcile(t, id, stamp, p, byUuid) == Outcome(t', false, false);
  }

  lemma ReconcileInOrder(t: Table, id: Key, stamp: int, p: Payload, byUuid: bool)
    requires Valid(t) && InOrder(t, Reconcile(id, stamp, p))
    ensures var r := DoReconcile(t, id, stamp, p, byUuid);
            && Applied(t, r, Reconcile(id, stamp, p))
            && (exists i :: OpenRows(r.t, id) == {i} && SameVersion(r.t[i].payload, p))
            && !Changed(r.t, id, p)
    ensures var r := DoReconcile(t, id, stamp, p, byUuid);
            if Changed(t, id, p) then Succeeds(t, r.t, id, stamp, p) else r.t == t
  {
    hide RangePairs, Insert, Close, FirstStart, Succeeds, HistoryKept;
    var item := Reconcile(id, stamp, p);
    assert AllBefore(t, id, stamp) by { assert Touches(item, id); }
    if Changed(t, id, p) {
      ReconcileChanged(t, id, stamp, p, byUuid);
      var t' := DoReconcile(t, id, stamp, p, byUuid).t;
      var n :| OpenRows(t', id) == {n} && t'[n].payload == p;
      CurrentIsTheOpenOne(t', id, n, p);
    } else {
      NothingToReconcile(t, id, stamp, p);
    }
  }

  lemma NothingToReconcile(t: Table, id: Key, stamp: int, p: Payload)
    requires Valid(t) && AllBefore(t, id, stamp) && !Changed(t, id, p)
    ensures Applied(t, Outcome(t, false, false), Reconcile(id, stamp, p))
    ensures exists i :: OpenRows(t, id) == {i} && SameVersion(t[i].payload, p)
  {
    var i :| i in OpenRows(t, id) && IsCurrent(t, id, i) && SameVersion(t[i].payload, p);
    forall j | j in OpenRows(t, id) ensures j == i { ValidHasOneOpen(t, id, i, j); }
    assert OpenRows(t, id) == {i};
  }

  /** Close the one id and insert the other, whose versions have all ended. */
  lemma CloseAndRename(t: Table, id: Key, oldId: Key, stamp: int, p: Payload)
    requires Valid(t) && id != oldId && AllBefore(t, id, stamp) && AllBefore(t, oldId, stamp) && OpenRows(t, id) == {}
    ensures var closed, row := Close(t, oldId, stamp), Row(id, stamp, Option.None, p);
            var t' := Insert(closed, row);
            && Valid(t') && OpenRows(closed, id) == {} && OpenRows(t', oldId) == {}
            && (forall i :: i in t ==>
                  i in t' && t'[i] == if i in OpenRows(t, oldId) then t[i].(to := Some(stamp)) else t[i])
            && (forall i :: i in t' && i !in t ==> t'[i].key == id)
            && AllUpTo(t', id, stamp) && AllUpTo(t', oldId, stamp)
            && exists i :: OpenRows(t', id) == {i} && t'[i] == row
  {
    var closed, row := Close(t, oldId, stamp), Row(id, stamp, Option.None, p);
    CloseInOrder(t, oldId, stamp);
    forall i | i in closed && closed[i].key == id
      ensures closed[i] == t[i] && closed[i].to.Some? && closed[i].to.value <= stamp && i !in OpenRows(closed, id)
    {
      assert t[i].to.None? ==> i in OpenRows(t, id);
    }
    assert OpenRows(closed, id) == {};
    InsertInOrder(closed, row);
    var t', n := Insert(closed, row), NewId(closed);
    assert OpenRows(t', id) == {n} && t'[n] == row;
    assert forall i :: i in OpenRows(t', oldId) ==> i in OpenRows(closed, oldId);
  }

  lemma RenameInOrder(t: Table, id: Key, oldId: Key, stamp: int, p: Payload)
    requires Valid(t) && InOrder(t, Rename(id, oldId, stamp, p))
    ensures var r := DoRename(t, id, oldId, stamp, p);
            && Applied(t, r, Rename(id, oldId, stamp, p))
            && OpenRows(r.t, oldId) == {}
            && (forall i :: i in OpenRows(t, oldId) ==> r.t[i] == t[i].(to := Some(stamp)))
            && exists i :: OpenRows(r.t, id) == {i} && r.t[i] == Row(id, stamp, Option.None, p)
  {
    hide RangePairs, Valid, Close, Insert, AllBefore, AllUpTo;
    var item := Rename(id, oldId, stamp, p);
    assert Touches(item, id) && Touches(item, oldId);
    CloseAndRename(t, id, oldId, stamp, p);
    CommitValid(t, Insert(Close(t, oldId, stamp), Row(id, stamp, Option.None, p)), false);
  }

  lemma RemoveInOrder(t: Table, id: Key, stamp: int)
    requires Valid(t) && InOrder(t, Remove(id, stamp))
    ensures var r := DoRemove(t, id, stamp);
            Applied(t, r, Remove(id, stamp)) && OpenRows(r.t, id) == {}
  {
    hide RangePairs;
    assert Touches(Remove(id, stamp), id);
    CloseInOrder(t, id, stamp);
    CommitValid(t, Close(t, id, stamp), false);
  }

  lemma SweepInOrder(t: Table, live: set<Key>, stamp: int)
    requires Valid(t) && InOrder(t, Sweep(live, stamp))
    ensures Applied(t, DoSweep(t, live, stamp), Sweep(live, stamp))
  {
    hide RangePairs, Refused;
    var t' := CloseStale(t, live, stamp);
    forall i, x | i in t' && Covers(t'[i], x) ensures Covers(t[i], x) {
    }
    assert Valid(t');
    CommitValid(t, t', false);
    forall id | Touches(Sweep(live, stamp), id) ensures AllUpTo(t', id, stamp) && AllUpTo(t, id, stamp) {
      assert AllBefore(t, id, stamp);
    }
  }

  /**
   In-order items need no constraint: the guarded statements alone keep every id's versions
   disjoint, nothing is dropped or skipped, and other ids are untouched.
   */
  lemma ProcessInOrder(t: Table, item: Item, byUuid: bool)
    requires Valid(t) && InOrder(t, item)
    ensures Applied(t, Process(t, item, byUuid), item)
  {
    hide DoReconcile, DoRename, DoRemove, DoSweep;
    match item
    case Reconcile(id, stamp, p) => ReconcileInOrder(t, id, stamp, p, byUuid);
    case Rename(id, oldId, stamp, p) => RenameInOrder(t, id, oldId, stamp, p);
    case Remove(id, stamp) => RemoveInOrder(t, id, stamp);
    case Sweep(live, stamp) => SweepInOrder(t, live, stamp);
  }
}
