/** The repair script's --apply: each table in turn, archived before it is rewritten. */
module RepairRun {
  import opened Versions
  import opened Repair
  import opened Collapse
  import opened StartMoves
  import opened Verification

  datatype Table4 = ENTITIES | DEVICES | AREAS | LABELS

  datatype Reason = DUPLICATE | CLAMPED | ALIGNED | EXTENDED

  /** A quarantine row: the complete row as it was before the rewrite. */
  datatype Archived = Archived(table: Table4, reason: Reason, rid: nat, row: Row)

  function ArchiveOf(table: Table4, reason: Reason, t: Table, rids: set<nat>): set<Archived>
    requires rids <= t.Keys
  {
    set i | i in rids :: Archived(table, reason, i, t[i])
  }

  function Losers(t: Table): set<nat> { set i | i in t && Loses(t, i) }

  function Aligned(t: Table, devices: Table, first: FirstStates): set<nat> {
    set i | i in t && AlignTo(t, i, devices, first).Some?
  }

  function Extended(t: Table, first: FirstStates): set<nat> { set i | i in t && ExtendTo(t, i, first).Some? }

  function DevicesExtended(t: Table, entities: Table, first: FirstStates): set<nat> {
    set i | i in t && DeviceExtendTo(t, i, entities, first).Some?
  }

  /** The table the rebuild starts from. */
  function Start(t: Table, collapse: bool): Table { if collapse then Collapsed(t) else t }

  method PickAny<T>(s: set<T>) returns (x: T)
    requires s != {}
    ensures x in s
  {
    x :| x in s;
  }

  class Session {
    const first: FirstStates
    var entities: Table
    var devices: Table
    var areas: Table
    var labels: Table
    var quarantine: set<Archived>

    constructor (entities: Table, devices: Table, areas: Table, labels: Table, first: FirstStates)
      ensures Tables() == Dimensions(entities, devices, areas, labels)
      ensures this.first == first && quarantine == {}
    {
      this.entities, this.devices, this.areas, this.labels := entities, devices, areas, labels;
      this.first, quarantine := first, {};
    }

    ghost function Tables(): Dimensions
      reads this
    {
      Dimensions(entities, devices, areas, labels)
    }

    /** Rows the clamp will rewrite are captured one by one while they still hold their end. */
    method ArchiveInverted(table: Table4, t: Table)
      modifies `quarantine
      ensures quarantine == old(quarantine) + ArchiveOf(table, CLAMPED, t, InvertedRows(t))
    {
      var todo := InvertedRows(t);
      while todo != {}
        invariant todo <= InvertedRows(t)
        invariant quarantine == old(quarantine) + ArchiveOf(table, CLAMPED, t, InvertedRows(t) - todo)
        decreases |todo|
      {
        var i := PickAny(todo);
        quarantine := quarantine + {Archived(table, CLAMPED, i, t[i])};
        todo := todo - {i};
      }
    }

    /** Collapse (opt-in), archive, rebuild, clamp: common to all four tables. */
    method Normalize(table: Table4, t: Table, collapse: bool) returns (t': Table)
      modifies `quarantine
      ensures t' == Repaired(Start(t, collapse))
      ensures quarantine == old(quarantine)
                + (if collapse then ArchiveOf(table, DUPLICATE, t, Losers(t)) else {})
                + ArchiveOf(table, CLAMPED, Start(t, collapse), InvertedRows(Start(t, collapse)))
    {
      t' := t;
      if collapse {
        quarantine := quarantine + ArchiveOf(table, DUPLICATE, t, Losers(t));
        t' := Collapsed(t);
      }
      ArchiveInverted(table, t');
      t' := Rebuild(t');
      t' := Clamp(t');
    }

    method RepairEntitiesTable(collapse: bool)
      modifies `entities, `quarantine
      ensures entities == RepairEntities(Start(old(entities), collapse), devices, first)
      ensures quarantine >= old(quarantine)
      ensures forall i :: i in entities && entities[i].from != old(entities)[i].from ==>
                exists a :: a in quarantine && a.table == ENTITIES && a.rid == i
                            && a.row.from == old(entities)[i].from && a.reason in {ALIGNED, EXTENDED}
    {
      hide AlignTo, ExtendTo, Rebuild, Clamp, InvertedRows;
      ghost var was, start := entities, Start(entities, collapse);
      entities := Normalize(ENTITIES, entities, collapse);
      var t := entities;
      RepairKeepsRows(start);
      quarantine := quarantine + ArchiveOf(ENTITIES, ALIGNED, t, Aligned(t, devices, first));
      entities := Align(entities, devices, first);
      quarantine := quarantine + ArchiveOf(ENTITIES, EXTENDED, entities, Extended(entities, first));
      ghost var a := entities;
      entities := Extend(entities, first);
      forall i | i in entities && entities[i].from != was[i].from
        ensures exists q :: q in quarantine && q.table == ENTITIES && q.rid == i
                            && q.row.from == was[i].from && q.reason in {ALIGNED, EXTENDED}
      {
        if AlignTo(t, i, devices, first).Some? {
          assert Archived(ENTITIES, ALIGNED, i, t[i]) in quarantine;
        } else {
          assert Archived(ENTITIES, EXTENDED, i, a[i]) in quarantine;
        }
      }
    }

    method RepairDevicesTable(collapse: bool)
      modifies `devices, `quarantine
      ensures devices == RepairDevices(Start(old(devices), collapse), entities, first)
      ensures quarantine >= old(quarantine)
    {
      devices := Normalize(DEVICES, devices, collapse);
      quarantine := quarantine + ArchiveOf(DEVICES, EXTENDED, devices, DevicesExtended(devices, entities, first));
      devices := ExtendDevices(devices, entities, first);
    }

    /** for table in SCD2_DIMENSIONS: repair_table(...) */
    method Apply(collapse: bool)
      modifies this
      ensures Tables() == Run(old(Dimensions(Start(entities, collapse), Start(devices, collapse),
                                             Start(areas, collapse), Start(labels, collapse))), first)
      ensures quarantine >= old(quarantine)
    {
      hide RepairEntities, RepairDevices, Repaired, Start, ArchiveOf, Losers, InvertedRows;
      RepairEntitiesTable(collapse);
      RepairDevicesTable(collapse);
      areas := Normalize(AREAS, areas, collapse);
      labels := Normalize(LABELS, labels, collapse);
      CollapsedDevicesAlign(Start(old(entities), collapse), old(devices), collapse, first);
    }
  }

  lemma CollapseKeepsDeviceStart(devices: Table, device: Key)
    ensures DeviceStart(Collapsed(devices), device) == DeviceStart(devices, device)
  {
    var c := Collapsed(devices);
    forall i | i in devices && devices[i].key == device ensures devices[i].from in Starts(c, device) {
      CollapseKeepsStarts(devices, i);
      var s :| s in c && Twins(devices, i, s);
      assert c[s].from == devices[i].from;
    }
    assert Starts(c, device) == Starts(devices, device);
  }

  /** Entities are aligned to devices not yet collapsed; collapsing them makes no difference. */
  lemma CollapsedDevicesAlign(entities: Table, devices: Table, collapse: bool, first: FirstStates)
    ensures RepairEntities(entities, Start(devices, collapse), first) == RepairEntities(entities, devices, first)
  {
    var t := Repaired(entities);
    forall i | i in t
      ensures AlignTo(t, i, Start(devices, collapse), first) == AlignTo(t, i, devices, first)
    {
      if collapse && t[i].payload.device.Some? {
        CollapseKeepsDeviceStart(devices, t[i].payload.device.value);
      }
    }
    assert Align(t, Start(devices, collapse), first) == Align(t, devices, first);
  }

  /** Every table a run leaves behind can take the exclusion constraint. */
  lemma RunRestoresInvariant(db: Dimensions, first: FirstStates)
    ensures var r := Run(db, first);
            forall t :: t in [r.entities, r.devices, r.areas, r.labels] ==>
              Disjoint(t) && NoneInverted(t) && SequenceClean(t)
    ensures var r := Run(db, first);
            SameRows(db.entities, r.entities) && SameRows(db.devices, r.devices)
            && SameRows(db.areas, r.areas) && SameRows(db.labels, r.labels)
  {
    hide RepairEntities, RepairDevices, Repaired, Disjoint, NoneInverted, SequenceClean, SameRows;
    var r := Run(db, first);
    EntitiesStayClean(db.entities, db.devices, first);
    DevicesStayClean(db.devices, r.entities, first);
    RepairKeepsRows(db.areas);
    RepairKeepsRows(db.labels);
    RepairedIsClean(db.areas);
    RepairedIsClean(db.labels);
    CleanLeavesNoOverlap(r.entities);
    CleanLeavesNoOverlap(r.devices);
    CleanLeavesNoOverlap(r.areas);
    CleanLeavesNoOverlap(r.labels);
  }

  /** Moving starts never takes metadata from a state that had it. */
  lemma AlignmentLosesNoState(t: Table, i: nat, devices: Table, first: FirstStates, x: int)
    requires i in t && t[i].key in first && first[t[i].key] <= x
    ensures Covers(t[i], x) ==> Covers(Align(t, devices, first)[i], x)
  {
  }
}
