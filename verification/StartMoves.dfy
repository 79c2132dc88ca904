/**
 The two exceptions to "never write valid_from": aligning an entity's first version to its
 device, and extending a late first version back to the evidence that it existed.
 */
module StartMoves {
  import opened Options
  import opened Versions
  import opened Repair

  /** min(last_updated) of `states`, for the entities that have any. */
  type FirstStates = map<Key, int>

  /** row_number() = 1 in the window, and no other version at the same start. */
  predicate LoneFirst(t: Table, i: nat) {
    i in t && forall j :: j in t && j != i && t[j].key == t[i].key ==> Before(t, i, j) && t[i].from < t[j].from
  }

  lemma LoneFirstIsEarliest(t: Table, i: nat)
    requires i in t
    ensures LoneFirst(t, i) <==> forall j :: j in t && j != i && t[j].key == t[i].key ==> t[i].from < t[j].from
  {
  }

  function Starts(t: Table, key: Key): set<int> { set i | i in t && t[i].key == key :: t[i].from }

  /** SELECT min(valid_from) FROM devices GROUP BY device_id */
  function DeviceStart(devices: Table, device: Key): Option<int> {
    if Starts(devices, device) == {} then Option.None else Some(Least(Starts(devices, device)))
  }

  /** LEAST ignores NULL. */
  function LeastKnown(a: int, b: Option<int>): int { if b.Some? then Min(a, b.value) else a }

  function FirstState(first: FirstStates, key: Key): Option<int> {
    if key in first then Some(first[key]) else Option.None
  }

  // ---- Align -------------------------------------------------------------------------

  /** The new start the alignment plans for row i, if any. */
  function AlignTo(t: Table, i: nat, devices: Table, first: FirstStates): Option<int> {
    if !LoneFirst(t, i) || t[i].payload.device.None? then Option.None else
      var d := DeviceStart(devices, t[i].payload.device.value);
      if d.None? || d.value <= t[i].from then Option.None else
        var start := LeastKnown(d.value, FirstState(first, t[i].key));
        if start > t[i].from && (t[i].to.Some? ==> start < t[i].to.value)
           && (NextFrom(t, i).Some? ==> start < NextFrom(t, i).value)
        then Some(start) else Option.None
  }

  function Align(t: Table, devices: Table, first: FirstStates): Table {
    map i | i in t :: var n := AlignTo(t, i, devices, first); if n.Some? then t[i].(from := n.value) else t[i]
  }

  // ---- Extend ------------------------------------------------------------------------

  function ExtendTo(t: Table, i: nat, first: FirstStates): Option<int> {
    if LoneFirst(t, i) && t[i].key in first && first[t[i].key] < t[i].from
       && t[i].payload.createdAt.Some? && t[i].payload.createdAt.value <= first[t[i].key]
    then Some(first[t[i].key]) else Option.None
  }

  function Extend(t: Table, first: FirstStates): Table {
    map i | i in t :: var n := ExtendTo(t, i, first); if n.Some? then t[i].(from := n.value) else t[i]
  }

  /** Entity starts as they are after the extension: COALESCE(eplan.new_from, valid_from). */
  function ProjectedStart(entities: Table, e: nat, first: FirstStates): int
    requires e in entities
  {
    var n := ExtendTo(entities, e, first);
    if n.Some? then n.value else entities[e].from
  }

  function EntityStarts(entities: Table, device: Key, first: FirstStates): set<int> {
    set e | e in entities && entities[e].payload.device == Some(device) :: ProjectedStart(entities, e, first)
  }

  function DeviceExtendTo(devices: Table, i: nat, entities: Table, first: FirstStates): Option<int> {
    if !LoneFirst(devices, i) || devices[i].payload.createdAt.None? then Option.None else
      var starts := EntityStarts(entities, devices[i].key, first);
      if starts == {} then Option.None else
        var start := Max(Least(starts), devices[i].payload.createdAt.value);
        if start < devices[i].from then Some(start) else Option.None
  }

  function ExtendDevices(devices: Table, entities: Table, first: FirstStates): Table {
    map i | i in devices ::
      var n := DeviceExtendTo(devices, i, entities, first);
      if n.Some? then devices[i].(from := n.value) else devices[i]
  }

  // ---- Moving first starts keeps the window ------------------------------------------------

  /** Only lone first versions moved, to before their successor and not past their own end. */
  ghost predicate StartsMoved(t: Table, t': Table) {
    && SameRows(t, t')
    && (forall i :: i in t ==> t'[i].to == t[i].to)
    && forall i :: i in t && t'[i].from != t[i].from ==>
         && LoneFirst(t, i) && (t[i].to.Some? ==> t'[i].from <= t[i].to.value)
         && (NextFrom(t, i).Some? ==> t'[i].from < NextFrom(t, i).value)
  }

  lemma MovedKeepsOrder(t: Table, t': Table, i: nat, j: nat)
    requires StartsMoved(t, t')
    ensures Before(t', i, j) <==> Before(t, i, j)
  {
    if i in t && j in t && i != j && t[i].key == t[j].key {
      BeforeIsTotal(t, i, j);
      if t'[i].from != t[i].from {
        assert Before(t, i, j);
        assert NextFrom(t, i).value <= t[j].from;
      }
      if t'[j].from != t[j].from {
        assert Before(t, j, i);
        assert NextFrom(t, j).value <= t[i].from;
      }
    }
  }

  lemma MovedKeepsWindow(t: Table, t': Table, i: nat)
    requires StartsMoved(t, t') && i in t
    ensures LoneFirst(t', i) <==> LoneFirst(t, i)
    ensures NextFrom(t', i) == NextFrom(t, i)
  {
    forall j ensures Before(t', i, j) <==> Before(t, i, j) { MovedKeepsOrder(t, t', i, j); }
    forall j | Before(t, i, j) ensures t'[j].from == t[j].from {
      BeforeIsTotal(t, i, j);
    }
    SameNextFrom(t, t', i);
    forall j | j in t && j != i && t[j].key == t[i].key
      ensures Before(t, i, j) && t[i].from < t[j].from <==> Before(t', i, j) && t'[i].from < t'[j].from
    {
      if Before(t, i, j) && t'[i].from != t[i].from {
        assert NextFrom(t, i).value <= t[j].from;
      }
    }
  }

  lemma SameNextFrom(t: Table, t': Table, i: nat)
    requires i in t && t'.Keys == t.Keys
    requires forall j :: Before(t', i, j) <==> Before(t, i, j)
    requires forall j :: Before(t, i, j) ==> t'[j].from == t[j].from
    ensures NextFrom(t', i) == NextFrom(t, i)
  {
    var n, n' := NextFrom(t, i), NextFrom(t', i);
    if n.Some? {
      var j :| Before(t, i, j) && t[j].from == n.value;
      assert Before(t', i, j);
      var k :| Before(t', i, k) && t'[k].from == n'.value;
      assert Before(t, i, k);
    } else {
      forall j ensures !Before(t', i, j) { assert !Before(t, i, j); }
    }
  }

  lemma MovedKeepsClean(t: Table, t': Table)
    requires StartsMoved(t, t') && SequenceClean(t) && NoneInverted(t)
    ensures SequenceClean(t') && NoneInverted(t')
  {
    forall i | i in t' ensures !Overruns(t', i) && !Inverted(t'[i]) {
      MovedKeepsWindow(t, t', i);
      assert !Overruns(t, i);
    }
  }

  lemma AlignMoves(t: Table, devices: Table, first: FirstStates)
    ensures StartsMoved(t, Align(t, devices, first))
  {
  }

  lemma ExtendMoves(t: Table, first: FirstStates)
    requires NoneInverted(t)
    ensures StartsMoved(t, Extend(t, first))
  {
    forall i | i in t && Extend(t, first)[i].from != t[i].from
      ensures NextFrom(t, i).Some? ==> Extend(t, first)[i].from < NextFrom(t, i).value
    {
    }
  }

  lemma ExtendDevicesMoves(devices: Table, entities: Table, first: FirstStates)
    requires NoneInverted(devices)
    ensures StartsMoved(devices, ExtendDevices(devices, entities, first))
  {
  }

  /** No version is both aligned and extended. */
  lemma NeverBoth(t: Table, i: nat, devices: Table, first: FirstStates)
    requires AlignTo(t, i, devices, first).Some?
    ensures ExtendTo(t, i, first).None?
    ensures ExtendTo(Align(t, devices, first), i, first).None?
  {
  }

  // ---- One run of the repair ---------------------------------------------------------------

  function RepairEntities(entities: Table, devices: Table, first: FirstStates): Table {
    Extend(Align(Repaired(entities), devices, first), first)
  }

  function RepairDevices(devices: Table, entities: Table, first: FirstStates): Table {
    ExtendDevices(Repaired(devices), entities, first)
  }

  lemma EntitiesStayClean(entities: Table, devices: Table, first: FirstStates)
    ensures var r := RepairEntities(entities, devices, first);
            SequenceClean(r) && NoneInverted(r) && Repaired(r) == r && SameRows(entities, r)
  {
    var t := Repaired(entities);
    RepairKeepsRows(entities);
    RepairedIsClean(entities);
    AlignMoves(t, devices, first);
    MovedKeepsClean(t, Align(t, devices, first));
    ExtendMoves(Align(t, devices, first), first);
    MovedKeepsClean(Align(t, devices, first), RepairEntities(entities, devices, first));
    CleanIsFixpoint(RepairEntities(entities, devices, first));
  }

  lemma DevicesStayClean(devices: Table, entities: Table, first: FirstStates)
    ensures var r := RepairDevices(devices, entities, first);
            SequenceClean(r) && NoneInverted(r) && Repaired(r) == r && SameRows(devices, r)
  {
    var t := Repaired(devices);
    RepairKeepsRows(devices);
    RepairedIsClean(devices);
    ExtendDevicesMoves(t, entities, first);
    MovedKeepsClean(t, RepairDevices(devices, entities, first));
    CleanIsFixpoint(RepairDevices(devices, entities, first));
  }

  /** On a row left where it is, neither plan changes its mind when other rows move. */
  lemma PlansAgree(t: Table, t': Table, i: nat, devices: Table, first: FirstStates)
    requires StartsMoved(t, t') && i in t && t'[i] == t[i]
    ensures AlignTo(t', i, devices, first) == AlignTo(t, i, devices, first)
    ensures ExtendTo(t', i, first) == ExtendTo(t, i, first)
  {
    MovedKeepsWindow(t, t', i);
  }

  lemma AlignedOnce(t: Table, i: nat, devices: Table, first: FirstStates)
    requires AlignTo(t, i, devices, first).Some?
    ensures AlignTo(Align(t, devices, first), i, devices, first).None?
  {
  }

  lemma ExtendedOnce(t: Table, i: nat, devices: Table, first: FirstStates)
    requires ExtendTo(t, i, first).Some?
    ensures AlignTo(Extend(t, first), i, devices, first).None?
    ensures ExtendTo(Extend(t, first), i, first).None?
  {
  }

  lemma NothingLeftToMove(t: Table, i: nat, devices: Table, first: FirstStates)
    requires i in t && NoneInverted(t)
    ensures var r := Extend(Align(t, devices, first), first);
            i in r && AlignTo(r, i, devices, first).None? && ExtendTo(r, i, first).None?
  {
    hide AlignTo, ExtendTo, StartsMoved;
    var a := Align(t, devices, first);
    var r := Extend(a, first);
    AlignMoves(t, devices, first);
    MovedNotInverted(t, a);
    ExtendMoves(a, first);
    if AlignTo(t, i, devices, first).Some? {
      NeverBoth(t, i, devices, first);
      AlignedOnce(t, i, devices, first);
      PlansAgree(a, r, i, devices, first);
    } else {
      PlansAgree(t, a, i, devices, first);
      if ExtendTo(a, i, first).Some? {
        ExtendedOnce(a, i, devices, first);
      } else {
        PlansAgree(a, r, i, devices, first);
      }
    }
  }

  lemma AlignIdle(t: Table, devices: Table, first: FirstStates)
    requires forall i :: i in t ==> AlignTo(t, i, devices, first).None?
    ensures Align(t, devices, first) == t
  {
  }

  lemma ExtendIdle(t: Table, first: FirstStates)
    requires forall i :: i in t ==> ExtendTo(t, i, first).None?
    ensures Extend(t, first) == t
  {
  }

  lemma ExtendDevicesIdle(devices: Table, entities: Table, first: FirstStates)
    requires forall i :: i in devices ==> DeviceExtendTo(devices, i, entities, first).None?
    ensures ExtendDevices(devices, entities, first) == devices
  {
  }

  lemma MovedNotInverted(t: Table, t': Table)
    requires StartsMoved(t, t') && NoneInverted(t)
    ensures NoneInverted(t')
  {
  }

  /** With the devices fixed, the entities' repair is a fixpoint on its own output. */
  lemma EntityRepairConverges(entities: Table, devices: Table, first: FirstStates)
    ensures var r := RepairEntities(entities, devices, first); RepairEntities(r, devices, first) == r
  {
    hide AlignTo, ExtendTo, Repaired, Align, Extend;
    var r := RepairEntities(entities, devices, first);
    EntitiesStayClean(entities, devices, first);
    RepairKeepsRows(entities);
    forall i | i in r ensures AlignTo(r, i, devices, first).None? && ExtendTo(r, i, first).None? {
      NothingLeftToMove(Repaired(entities), i, devices, first);
    }
    AlignIdle(r, devices, first);
    ExtendIdle(r, first);
  }

  datatype Dimensions = Dimensions(entities: Table, devices: Table, areas: Table, labels: Table)

  /** --apply: the four tables in SCD2_DIMENSIONS order, each in its own transaction. */
  function Run(db: Dimensions, first: FirstStates): Dimensions {
    var entities := RepairEntities(db.entities, db.devices, first);
    Dimensions(entities, RepairDevices(db.devices, entities, first), Repaired(db.areas), Repaired(db.labels))
  }

  /** A later run on entities that were already extended only moves starts later. */
  lemma StartsOnlyMoveLater(entities: Table, devices: Table, first: FirstStates, i: nat)
    requires i in entities && SequenceClean(entities) && NoneInverted(entities)
    requires forall e :: e in entities ==> ExtendTo(entities, e, first).None?
    ensures var r := RepairEntities(entities, devices, first);
            i in r && r[i].from >= entities[i].from && ExtendTo(r, i, first).None?
            && r[i].payload == entities[i].payload
  {
    CleanIsFixpoint(entities);
    var a := Align(entities, devices, first);
    AlignMoves(entities, devices, first);
    NothingLeftToMove(entities, i, devices, first);
    if AlignTo(entities, i, devices, first).None? {
      PlansAgree(entities, a, i, devices, first);
    }
  }

  /** A device left alone or just extended stays where it is when entities only start later. */
  lemma DeviceStays(t: Table, e1: Table, e2: Table, first: FirstStates, i: nat)
    requires i in t && NoneInverted(t) && e2.Keys == e1.Keys
    requires forall e :: e in e1 ==>
               ProjectedStart(e2, e, first) >= ProjectedStart(e1, e, first) && e2[e].payload == e1[e].payload
    ensures var d1 := ExtendDevices(t, e1, first); i in d1 && DeviceExtendTo(d1, i, e2, first).None?
  {
    hide ProjectedStart, EntityStarts, StartsMoved, LoneFirst;
    var d1 := ExtendDevices(t, e1, first);
    ExtendDevicesMoves(t, e1, first);
    MovedKeepsWindow(t, d1, i);
    LaterStarts(e1, e2, t[i].key, first);
  }

  lemma DevicesSettle(db: Dimensions, first: FirstStates)
    ensures Run(Run(db, first), first).devices == Run(db, first).devices
  {
    hide RepairEntities, Repaired, ExtendTo, ExtendDevices, DeviceExtendTo, ProjectedStart, SequenceClean, NoneInverted;
    var db1, t := Run(db, first), Repaired(db.devices);
    var e1, d1 := db1.entities, db1.devices;
    var e2 := RepairEntities(e1, d1, first);
    EntitiesStayClean(db.entities, db.devices, first);
    EntitiesStayClean(e1, d1, first);
    DevicesStayClean(db.devices, e1, first);
    RepairKeepsRows(db.devices);
    RepairedEntitiesExtended(db.entities, db.devices, first);
    forall e | e in e1
      ensures e in e2 && ProjectedStart(e2, e, first) >= ProjectedStart(e1, e, first)
              && e2[e].payload == e1[e].payload
    {
      StartsOnlyMoveLater(e1, d1, first, e);
      ProjectedIsStart(e1, e, first);
      ProjectedIsStart(e2, e, first);
    }
    forall i | i in d1 ensures DeviceExtendTo(d1, i, e2, first).None? {
      DeviceStays(t, e1, e2, first, i);
    }
    ExtendDevicesIdle(d1, e2, first);
  }

  lemma ProjectedIsStart(entities: Table, e: nat, first: FirstStates)
    requires e in entities && ExtendTo(entities, e, first).None?
    ensures ProjectedStart(entities, e, first) == entities[e].from
  {
  }

  lemma RepairedEntitiesExtended(entities: Table, devices: Table, first: FirstStates)
    ensures var r := RepairEntities(entities, devices, first);
            forall e :: e in r ==> ExtendTo(r, e, first).None?
  {
    hide ExtendTo, Repaired, Align, Extend;
    var r := RepairEntities(entities, devices, first);
    EntitiesStayClean(entities, devices, first);
    RepairKeepsRows(entities);
    forall e | e in r ensures ExtendTo(r, e, first).None? {
      NothingLeftToMove(Repaired(entities), e, devices, first);
    }
  }

  lemma LaterStarts(e1: Table, e2: Table, device: Key, first: FirstStates)
    requires e2.Keys == e1.Keys
    requires forall e :: e in e1 ==>
               ProjectedStart(e2, e, first) >= ProjectedStart(e1, e, first) && e2[e].payload == e1[e].payload
    ensures var s1, s2 := EntityStarts(e1, device, first), EntityStarts(e2, device, first);
            s2 != {} ==> s1 != {} && Least(s2) >= Least(s1)
  {
    var s1, s2 := EntityStarts(e1, device, first), EntityStarts(e2, device, first);
    if s2 != {} {
      var m := Least(s2);
      var e :| e in e2 && e2[e].payload.device == Some(device) && ProjectedStart(e2, e, first) == m;
      assert ProjectedStart(e1, e, first) in s1;
    }
  }

  /**
   Repair converges: the devices settle in one run and everything in two, so no run from
   the third on changes anything.
   */
  lemma ThirdRunChangesNothing(db: Dimensions, first: FirstStates)
    ensures var twice := Run(Run(db, first), first); Run(twice, first) == twice
  {
    var db1 := Run(db, first);
    var db2 := Run(db1, first);
    DevicesSettle(db, first);
    DevicesSettle(db1, first);
    EntityRepairConverges(db1.entities, db1.devices, first);
    RepairIsIdempotent(db.areas);
    RepairIsIdempotent(db.labels);
  }

  lemma OneRow(t: Table, r: Row)
    requires t == map[0 := r] && !Inverted(r)
    ensures LoneFirst(t, 0) && NextFrom(t, 0).None? && Repaired(t) == t
    ensures forall k :: DeviceStart(t, k) == if k == r.key then Some(r.from) else Option.None
  {
    assert !Overruns(t, 0);
    forall k ensures DeviceStart(t, k) == if k == r.key then Some(r.from) else Option.None {
      if k == r.key {
        assert r.from == t[0].from && r.from in Starts(t, k);
        assert Starts(t, k) == {r.from};
      }
    }
  }

  /** An entity of device "hub", valid over [0, 5), and the device itself, created at 3. */
  const HALL := Row("hall", 0, Some(5), Payload("u", Some("hub"), Option.None, Option.None, "", 0))

  function Hub(from: int): Row {
    Row("hub", from, Option.None, Payload("v", Option.None, Option.None, Some(3), "", 0))
  }

  lemma HallWith(from: int)
    requires from > 0
    ensures RepairEntities(map[0 := HALL], map[0 := Hub(from)], map[]) ==
            map[0 := if from < 5 then HALL.(from := from) else HALL]
  {
    var t, devices, first: FirstStates := map[0 := HALL], map[0 := Hub(from)], map[];
    OneRow(t, HALL);
    OneRow(devices, Hub(from));
    var a := Align(t, devices, first);
    assert AlignTo(t, 0, devices, first) == if from < 5 then Some(from) else Option.None;
    assert a == map[0 := if from < 5 then HALL.(from := from) else HALL];
    ExtendIdle(a, first);
  }

  lemma HubWithHall()
    ensures RepairDevices(map[0 := Hub(10)], map[0 := HALL], map[]) == map[0 := Hub(3)]
  {
    var devices, entities, first: FirstStates := map[0 := Hub(10)], map[0 := HALL], map[];
    OneRow(devices, Hub(10));
    assert ProjectedStart(entities, 0, first) == 0;
    assert EntityStarts(entities, "hub", first) == {0};
    assert DeviceExtendTo(devices, 0, entities, first) == Some(3);
  }

  /** Two runs can be needed: extending a device in the first makes an alignment possible. */
  lemma SecondRunMayAlign()
    ensures exists db, first :: Run(Run(db, first), first) != Run(db, first)
  {
    hide RepairEntities, RepairDevices, Repaired;
    var first: FirstStates := map[];
    var db := Dimensions(map[0 := HALL], map[0 := Hub(10)], map[], map[]);
    HallWith(10);
    HallWith(3);
    HubWithHall();
    var once, twice := Run(db, first), Run(Run(db, first), first);
    assert once.entities == map[0 := HALL] && once.devices == map[0 := Hub(3)];
    assert twice.entities == map[0 := HALL.(from := 3)];
    assert twice.entities[0] != once.entities[0];
  }

  // ---- Dry run ------------------------------------------------------------------------------

  /** The rebuild touches exactly the rows its preview counts. */
  lemma RebuildPreviewIsTrue(t: Table, i: nat)
    requires i in t
    ensures Rebuild(t)[i] != t[i] <==> Overruns(t, i)
  {
  }

  /** Inverted rows pass through the rebuild unchanged, so they are the ones archived and clamped. */
  lemma ClampPreviewIsTrue(t: Table, i: nat)
    requires i in t
    ensures Inverted(Rebuild(t)[i]) <==> Inverted(t[i])
    ensures Inverted(t[i]) ==> Rebuild(t)[i] == t[i]
    ensures Repaired(t)[i] != Rebuild(t)[i] <==> Inverted(t[i])
  {
  }

  lemma RepairKeepsLoneFirst(t: Table, i: nat)
    requires i in t
    ensures LoneFirst(Repaired(t), i) <==> LoneFirst(t, i)
    ensures LoneFirst(t, i) ==> NextFrom(Repaired(t), i) == NextFrom(t, i)
  {
    RepairKeepsRows(t);
    LoneFirstIsEarliest(t, i);
    LoneFirstIsEarliest(Repaired(t), i);
    if LoneFirst(t, i) {
      forall j ensures Before(Repaired(t), i, j) <==> Before(t, i, j) {
      }
      SameNextFrom(t, Repaired(t), i);
    }
  }

  /** The alignment and extension previews answer the same before and after the rebuild. */
  lemma StartPreviewsAreTrue(t: Table, i: nat, devices: Table, first: FirstStates)
    requires i in t
    ensures AlignTo(Repaired(t), i, devices, first) == AlignTo(t, i, devices, first)
    ensures ExtendTo(Align(Repaired(t), devices, first), i, first) == ExtendTo(t, i, first)
  {
    RepairKeepsRows(t);
    RepairKeepsLoneFirst(t, i);
    var r := Repaired(t);
    AlignMoves(r, devices, first);
    if AlignTo(r, i, devices, first).Some? {
      NeverBoth(r, i, devices, first);
    } else {
      PlansAgree(r, Align(r, devices, first), i, devices, first);
    }
  }
}
