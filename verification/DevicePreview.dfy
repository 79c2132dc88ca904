/**
 The dry run's count of device extensions. It projects the entity starts through the planned
 extensions only, while the run moves devices after the entities were aligned as well.
 */
module DevicePreview {
  import opened Options
  import opened Versions
  import opened Repair
  import opened StartMoves

  /** Where a run leaves the entity version's start, told from the plans on unrepaired data. */
  function PlannedStart(entities: Table, e: nat, devices: Table, first: FirstStates): int
    requires e in entities
  {
    var n := AlignTo(entities, e, devices, first);
    if n.Some? then n.value else ProjectedStart(entities, e, first)
  }

  function PlannedStarts(entities: Table, device: Key, devices: Table, first: FirstStates): set<int> {
    set e | e in entities && entities[e].payload.device == Some(device) :: PlannedStart(entities, e, devices, first)
  }

  /** A first version the device extension looks at: alone at its start, with a created_at. */
  predicate Candidate(devices: Table, i: nat) {
    i in devices && LoneFirst(devices, i) && devices[i].payload.createdAt.Some?
  }

  /** The start the given entity starts pull a candidate back to, cut at its own. */
  function PulledBack(devices: Table, i: nat, starts: set<int>): int
    requires Candidate(devices, i)
  {
    if starts == {} then devices[i].from
    else Min(devices[i].from, Max(Least(starts), devices[i].payload.createdAt.value))
  }

  /** What the run plans for the device, after the entities' own transaction. */
  function Applied(devices: Table, i: nat, entities: Table, first: FirstStates): Option<int>
    requires i in devices
  {
    RepairKeepsRows(devices);
    DeviceExtendTo(Repaired(devices), i, RepairEntities(entities, devices, first), first)
  }

  lemma RunStartIsPlanned(entities: Table, e: nat, devices: Table, first: FirstStates)
    requires e in entities
    ensures var r := RepairEntities(entities, devices, first);
            && e in r && r[e].payload == entities[e].payload
            && ProjectedStart(r, e, first) == PlannedStart(entities, e, devices, first)
  {
    hide AlignTo, ExtendTo, Repaired;
    var r := RepairEntities(entities, devices, first);
    RepairKeepsRows(entities);
    EntitiesStayClean(entities, devices, first);
    RepairedEntitiesExtended(entities, devices, first);
    ProjectedIsStart(r, e, first);
    StartPreviewsAreTrue(entities, e, devices, first);
    if AlignTo(Repaired(entities), e, devices, first).Some? {
      NeverBoth(Repaired(entities), e, devices, first);
    }
    RepairKeepsStart(entities, e);
  }

  lemma RepairKeepsStart(t: Table, i: nat)
    requires i in t
    ensures i in Repaired(t) && Repaired(t)[i].from == t[i].from
    ensures Repaired(t)[i].payload == t[i].payload && Repaired(t)[i].key == t[i].key
  {
    RepairKeepsRows(t);
  }

  /** The plan for a candidate follows from where the entity starts pull it back to. */
  lemma PlanIsPullBack(devices: Table, i: nat, entities: Table, first: FirstStates)
    requires Candidate(devices, i)
    ensures var to := PulledBack(devices, i, EntityStarts(entities, devices[i].key, first));
            DeviceExtendTo(devices, i, entities, first) == if to < devices[i].from then Some(to) else Option.None
  {}

  lemma AppliedIsPullBack(devices: Table, i: nat, entities: Table, first: FirstStates)
    requires Candidate(devices, i)
    ensures var to := PulledBack(devices, i, PlannedStarts(entities, devices[i].key, devices, first));
            Applied(devices, i, entities, first) == if to < devices[i].from then Some(to) else Option.None
  {
    hide AlignTo, ExtendTo, Repaired, RepairEntities, LoneFirst;
    var r, key := RepairEntities(entities, devices, first), devices[i].key;
    RepairKeepsStart(devices, i);
    RepairKeepsLoneFirst(devices, i);
    EntitiesStayClean(entities, devices, first);
    forall e | e in entities
      ensures e in r && r[e].payload == entities[e].payload
              && ProjectedStart(r, e, first) == PlannedStart(entities, e, devices, first)
    {
      RunStartIsPlanned(entities, e, devices, first);
    }
    assert EntityStarts(r, key, first) == PlannedStarts(entities, key, devices, first);
    PlanIsPullBack(Repaired(devices), i, r, first);
  }

  /** Alignment only moves starts later, so the run pulls a device back no further than previewed. */
  lemma PlannedIsLater(devices: Table, i: nat, entities: Table, first: FirstStates)
    requires Candidate(devices, i)
    ensures PulledBack(devices, i, EntityStarts(entities, devices[i].key, first))
         <= PulledBack(devices, i, PlannedStarts(entities, devices[i].key, devices, first))
  {
    hide LoneFirst;
    var key := devices[i].key;
    var a, b := EntityStarts(entities, key, first), PlannedStarts(entities, key, devices, first);
    assert forall e :: e in entities && entities[e].payload.device == Some(key) ==>
      PlannedStart(entities, e, devices, first) in b;
    if b != {} {
      var e :| e in entities && entities[e].payload.device == Some(key)
               && PlannedStart(entities, e, devices, first) == Least(b);
      assert ProjectedStart(entities, e, first) in a;
      if AlignTo(entities, e, devices, first).Some? { NeverBoth(entities, e, devices, first); }
    }
  }

  /**
   The device preview and the run give the same answer exactly when the planned alignments make
   no difference to where the entity starts pull the device back to, both cut at the device's own
   start. Otherwise the preview promises too much, never too little.
   */
  lemma DevicePreviewIsTrueExactlyWhen(devices: Table, i: nat, entities: Table, first: FirstStates)
    requires i in devices
    ensures Applied(devices, i, entities, first) == DeviceExtendTo(devices, i, entities, first) <==>
            (Candidate(devices, i) ==>
               PulledBack(devices, i, EntityStarts(entities, devices[i].key, first))
               == PulledBack(devices, i, PlannedStarts(entities, devices[i].key, devices, first)))
    ensures var preview, run := DeviceExtendTo(devices, i, entities, first), Applied(devices, i, entities, first);
            run.Some? ==> preview.Some? && preview.value <= run.value
    ensures RepairDevices(devices, RepairEntities(entities, devices, first), first)[i].from
            == (var run := Applied(devices, i, entities, first); if run.Some? then run.value else devices[i].from)
  {
    hide RepairEntities, Repaired, LoneFirst, EntityStarts, PlannedStarts;
    RepairKeepsStart(devices, i);
    RepairKeepsLoneFirst(devices, i);
    if Candidate(devices, i) {
      PlanIsPullBack(devices, i, entities, first);
      AppliedIsPullBack(devices, i, entities, first);
      PlannedIsLater(devices, i, entities, first);
    }
  }

  /** An entity of device "hub", open since 0. */
  const HALLWAY := HALL.(to := Option.None)

  /**
   A dry run counts a device the run leaves alone: "hub" was created at 3 and starts at 10, its
   entity starts at 0 and is aligned to 10 first.
   */
  lemma PreviewMayPromiseTooMuch()
    ensures var entities, devices, first: FirstStates := map[0 := HALLWAY], map[0 := Hub(10)], map[];
            && DeviceExtendTo(devices, 0, entities, first) == Some(3)
            && RepairDevices(devices, RepairEntities(entities, devices, first), first) == devices
  {
    var entities: Table, devices: Table, first: FirstStates := map[0 := HALLWAY], map[0 := Hub(10)], map[];
    hide Repaired, RepairEntities, ExtendDevices;
    OneRow(entities, HALLWAY);
    OneRow(devices, Hub(10));
    assert ProjectedStart(entities, 0, first) == 0 && PlannedStart(entities, 0, devices, first) == 10;
    assert EntityStarts(entities, "hub", first) == {0};
    assert PlannedStarts(entities, "hub", devices, first) == {10};
    PlanIsPullBack(devices, 0, entities, first);
    AppliedIsPullBack(devices, 0, entities, first);
    assert Applied(devices, 0, entities, first) == Option.None;
    ExtendDevicesIdle(devices, RepairEntities(entities, devices, first), first);
  }
}
