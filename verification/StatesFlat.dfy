/** The states_flat view: each state joined with the entity, area and device of its time. */
module StatesFlat {
  import opened Options
  import opened Versions
  import opened Repair

  /** ON alias.key = src AND ts >= valid_from AND ts < COALESCE(valid_to, 'infinity') */
  function Matches(t: Table, src: Option<Key>, ts: int): set<nat> {
    set i | i in t && src == Some(t[i].key) && Covers(t[i], ts)
  }

  /** LEFT JOIN: the matching rows, or one row of NULLs. */
  function LeftJoin(t: Table, src: Option<Key>, ts: int): set<Option<nat>> {
    var m := Matches(t, src, ts);
    if m == {} then {Option.None} else set i | i in m :: Some(i)
  }

  function AreaOf(entities: Table, e: Option<nat>): Option<Key> {
    if e.Some? && e.value in entities then entities[e.value].payload.area else Option.None
  }

  function DeviceOf(entities: Table, e: Option<nat>): Option<Key> {
    if e.Some? && e.value in entities then entities[e.value].payload.device else Option.None
  }

  datatype FlatRow = FlatRow(entity: Option<nat>, area: Option<nat>, device: Option<nat>)

  /** The view's rows for one state, by the rows they join. */
  function Flat(entities: Table, areas: Table, devices: Table, entity: Key, ts: int): set<FlatRow> {
    set e, a, d | e in LeftJoin(entities, Some(entity), ts)
                  && a in LeftJoin(areas, AreaOf(entities, e), ts)
                  && d in LeftJoin(devices, DeviceOf(entities, e), ts)
                :: FlatRow(e, a, d)
  }

  lemma JoinIsSingle(t: Table, src: Option<Key>, ts: int) returns (only: Option<nat>)
    requires Disjoint(t)
    ensures LeftJoin(t, src, ts) == {only}
    ensures only.Some? <==> exists i :: i in Matches(t, src, ts)
    ensures only.Some? ==> only.value in Matches(t, src, ts)
  {
    var m := Matches(t, src, ts);
    if m == {} {
      only := Option.None;
    } else {
      var i: nat := AnyOf(m);
      only := Some(i);
      forall j | j in m ensures j == i {
        assert Covers(t[j], ts) && Covers(t[i], ts);
      }
      assert forall o :: o in LeftJoin(t, src, ts) ==> o == only;
    }
  }

  /** Under the invariant the view returns each state exactly once. */
  lemma FlatIsOneRow(entities: Table, areas: Table, devices: Table, entity: Key, ts: int)
    requires Disjoint(entities) && Disjoint(areas) && Disjoint(devices)
    ensures |Flat(entities, areas, devices, entity, ts)| == 1
  {
    var e := JoinIsSingle(entities, Some(entity), ts);
    var a := JoinIsSingle(areas, AreaOf(entities, e), ts);
    var d := JoinIsSingle(devices, DeviceOf(entities, e), ts);
    var flat := Flat(entities, areas, devices, entity, ts);
    assert FlatRow(e, a, d) in flat;
    forall f | f in flat ensures f == FlatRow(e, a, d) {
    }
    assert flat == {FlatRow(e, a, d)};
  }

  /** Overlapping versions duplicate the state: the invariant is what the view needs. */
  lemma OverlapDuplicates(entities: Table, areas: Table, devices: Table, i: nat, j: nat, ts: int)
    requires i in entities && j in entities && i != j && entities[i].key == entities[j].key
    requires Covers(entities[i], ts) && Covers(entities[j], ts)
    ensures |Flat(entities, areas, devices, entities[i].key, ts)| > 1
  {
    var entity := entities[i].key;
    var flat := Flat(entities, areas, devices, entity, ts);
    assert i in Matches(entities, Some(entity), ts) && j in Matches(entities, Some(entity), ts);
    var f := FlatRowOf(entities, areas, devices, entity, ts, i);
    var g := FlatRowOf(entities, areas, devices, entity, ts, j);
    assert {f, g} <= flat && |{f, g}| == 2;
    SmallerSet({f, g}, flat);
  }

  lemma FlatRowOf(entities: Table, areas: Table, devices: Table, entity: Key, ts: int, i: nat) returns (f: FlatRow)
    requires i in Matches(entities, Some(entity), ts)
    ensures f in Flat(entities, areas, devices, entity, ts) && f.entity == Some(i)
  {
    var e := Some(i);
    assert e in LeftJoin(entities, Some(entity), ts);
    var a := AnyJoin(areas, AreaOf(entities, e), ts);
    var d := AnyJoin(devices, DeviceOf(entities, e), ts);
    f := FlatRow(e, a, d);
  }

  lemma AnyJoin(t: Table, src: Option<Key>, ts: int) returns (o: Option<nat>)
    ensures o in LeftJoin(t, src, ts)
  {
    var m := Matches(t, src, ts);
    if m == {} {
      o := Option.None;
    } else {
      var i: nat := AnyOf(m);
      o := Some(i);
    }
  }

  /** After the repair a state carries the metadata of the last version started, if that covered it. */
  lemma RepairedLabel(entities: Table, areas: Table, devices: Table, entity: Key, ts: int)
    ensures |Flat(Repaired(entities), Repaired(areas), Repaired(devices), entity, ts)| == 1
    ensures forall f :: f in Flat(Repaired(entities), Repaired(areas), Repaired(devices), entity, ts) ==>
              if f.entity.Some?
              then f.entity.value in entities && entities[f.entity.value].key == entity
                   && LastStarted(entities, f.entity.value, ts) && Covers(entities[f.entity.value], ts)
              else forall i :: i in entities && entities[i].key == entity && LastStarted(entities, i, ts) ==>
                     !Covers(entities[i], ts)
  {
    var entities', areas', devices' := Repaired(entities), Repaired(areas), Repaired(devices);
    RepairDisjoint(entities);
    RepairDisjoint(areas);
    RepairDisjoint(devices);
    RepairKeepsRows(entities);
    FlatIsOneRow(entities', areas', devices', entity, ts);
    forall i | i in entities
      ensures Covers(entities'[i], ts) <==> LastStarted(entities, i, ts) && Covers(entities[i], ts)
    {
      RepairLabels(entities, i, ts);
      if entities[i].key == entity && Covers(entities'[i], ts) {
        assert i in Matches(entities', Some(entity), ts);
      }
    }
  }
}
