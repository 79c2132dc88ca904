/**
 PostgreSQL moves a row when it updates it, so a table's ctids, and with them the order of exact
 ties, can differ from one statement to the next. What the repair leaves does not depend on it.
 */
module Renumbering {
  import opened Options
  import opened Versions
  import opened Repair
  import opened Verification
  import opened StartMoves

  /** The same rows under other ctids. */
  ghost predicate Renumbers(t: Table, u: Table, f: map<nat, nat>) {
    && f.Keys == t.Keys
    && (forall i :: i in t ==> f[i] in u && u[f[i]] == t[i])
    && (forall i, j :: i in t && j in t && f[i] == f[j] ==> i == j)
    && (forall k :: k in u ==> exists i :: i in t && f[i] == k)
  }

  lemma SameShape(t: Table, u: Table, f: map<nat, nat>)
    requires Renumbers(t, u, f)
    ensures NoneInverted(u) <==> NoneInverted(t)
    ensures EmptyInside(u) <==> EmptyInside(t)
    ensures Disjoint(u) <==> Disjoint(t)
  {
    hide Renumbers, Disjoint, EmptyInside, NoneInverted;
    InvertedMoves(t, u, f);
    EmptyInsideMoves(t, u, f);
    if Disjoint(t) { DisjointMoves(t, u, f); }
    if Disjoint(u) { DisjointMovesBack(t, u, f); }
  }

  lemma InvertedMoves(t: Table, u: Table, f: map<nat, nat>)
    requires Renumbers(t, u, f)
    ensures NoneInverted(u) <==> NoneInverted(t)
  {
    forall k | k in u ensures exists i :: i in t && u[k] == t[i] {
      var i :| i in t && f[i] == k;
    }
  }

  lemma DisjointMovesBack(t: Table, u: Table, f: map<nat, nat>)
    requires Renumbers(t, u, f) && Disjoint(u)
    ensures Disjoint(t)
  {
    forall i, j, x | i in t && j in t && i != j && t[i].key == t[j].key && Covers(t[i], x) ensures !Covers(t[j], x) {
      assert f[i] != f[j] && Covers(u[f[i]], x);
    }
  }

  lemma DisjointMoves(t: Table, u: Table, f: map<nat, nat>)
    requires Renumbers(t, u, f) && Disjoint(t)
    ensures Disjoint(u)
  {
    forall k, l, x | k in u && l in u && k != l && u[k].key == u[l].key && Covers(u[k], x) ensures !Covers(u[l], x) {
      var i :| i in t && f[i] == k;
      var j :| j in t && f[j] == l;
      assert Covers(t[i], x);
    }
  }

  predicate Inside(t: Table, i: nat, j: nat) {
    i in t && j in t && t[i].key == t[j].key && Empty(t[j])
    && t[i].from < t[j].from && (t[i].to.Some? ==> t[j].from < t[i].to.value)
  }

  lemma InsideIsInside(t: Table)
    ensures EmptyInside(t) <==> exists i, j :: Inside(t, i, j)
  {
    if EmptyInside(t) {
      var i, j :| i in t && j in t && t[i].key == t[j].key && Empty(t[j])
                  && t[i].from < t[j].from && (t[i].to.Some? ==> t[j].from < t[i].to.value);
      assert Inside(t, i, j);
    }
  }

  lemma InsideMoves(t: Table, u: Table, f: map<nat, nat>, i: nat, j: nat)
    requires Renumbers(t, u, f) && i in t && j in t
    ensures Inside(u, f[i], f[j]) <==> Inside(t, i, j)
  {}

  lemma EmptyInsideMoves(t: Table, u: Table, f: map<nat, nat>)
    requires Renumbers(t, u, f)
    ensures EmptyInside(u) <==> EmptyInside(t)
  {
    hide EmptyInside;
    InsideIsInside(t);
    InsideIsInside(u);
    if i, j :| Inside(t, i, j) { InsideMoves(t, u, f, i, j); }
    if k, l :| Inside(u, k, l) {
      var i :| i in t && f[i] == k;
      var j :| j in t && f[j] == l;
      InsideMoves(t, u, f, i, j);
    }
  }

  /** The sequence check, for all that its window order mentions ctid, asks a question about rows. */
  lemma SequenceCheckIgnoresCtid(t: Table, u: Table, f: map<nat, nat>)
    requires Renumbers(t, u, f) && NoneInverted(t)
    ensures SequenceClean(u) <==> SequenceClean(t)
  {
    hide SequenceClean, RangePairs, EmptyInside, Disjoint, NoneInverted;
    SameShape(t, u, f);
    ChecksAgree(t);
    ChecksAgree(u);
    SequenceCleanMeans(t);
    SequenceCleanMeans(u);
    RangeCleanIsDisjoint(t);
    RangeCleanIsDisjoint(u);
  }

  /** However a repaired table is renumbered, it stays clean and the next repair leaves it alone. */
  lemma RepairedStaysRepaired(t: Table, u: Table, f: map<nat, nat>)
    requires Renumbers(Repaired(t), u, f)
    ensures SequenceClean(u) && NoneInverted(u) && Repaired(u) == u
  {
    hide SequenceClean, Repaired, NoneInverted;
    RepairedIsClean(t);
    RepairNormalForm(t);
    SameShape(Repaired(t), u, f);
    SequenceCheckIgnoresCtid(Repaired(t), u, f);
    CleanIsFixpoint(u);
  }

  // ---- The statements after the rebuild --------------------------------------------------------

  lemma ClampFollows(t: Table, u: Table, f: map<nat, nat>)
    requires Renumbers(t, u, f)
    ensures Renumbers(Clamp(t), Clamp(u), f)
  {}

  lemma LoneFirstFollows(t: Table, u: Table, f: map<nat, nat>, i: nat)
    requires Renumbers(t, u, f) && i in t
    ensures LoneFirst(u, f[i]) <==> LoneFirst(t, i)
    ensures LoneFirst(t, i) ==> NextFrom(u, f[i]) == NextFrom(t, i)
  {
    hide LoneFirst;
    LoneFirstIsEarliest(t, i);
    LoneFirstIsEarliest(u, f[i]);
    forall k | k in u && k != f[i] && u[k].key == u[f[i]].key
      ensures exists j :: j in t && j != i && t[j].key == t[i].key && t[j] == u[k]
    {
      var j :| j in t && f[j] == k;
    }
    if LoneFirst(t, i) { NextOfLoneFirst(t, u, f, i); }
  }

  /** Starts of the id's other versions. */
  function Others(t: Table, i: nat): set<int>
    requires i in t
  {
    set j | j in t && j != i && t[j].key == t[i].key :: t[j].from
  }

  lemma NextIsLeastOther(t: Table, i: nat)
    requires LoneFirst(t, i)
    ensures NextFrom(t, i) == if Others(t, i) == {} then Option.None else Some(Least(Others(t, i)))
  {
    var n := NextFrom(t, i);
    if n.Some? {
      var j :| Before(t, i, j) && t[j].from == n.value;
      assert t[j].from in Others(t, i);
    }
    if Others(t, i) != {} {
      var j :| j in t && j != i && t[j].key == t[i].key && t[j].from == Least(Others(t, i));
      assert Before(t, i, j);
    }
  }

  lemma OthersFollow(t: Table, u: Table, f: map<nat, nat>, i: nat)
    requires Renumbers(t, u, f) && i in t
    ensures Others(u, f[i]) == Others(t, i)
  {
    forall s | s in Others(u, f[i]) ensures s in Others(t, i) {
      var k :| k in u && k != f[i] && u[k].key == u[f[i]].key && u[k].from == s;
      var j :| j in t && f[j] == k;
    }
    forall s | s in Others(t, i) ensures s in Others(u, f[i]) {
      var j :| j in t && j != i && t[j].key == t[i].key && t[j].from == s;
      assert f[j] != f[i] && u[f[j]] == t[j];
    }
  }

  lemma NextOfLoneFirst(t: Table, u: Table, f: map<nat, nat>, i: nat)
    requires Renumbers(t, u, f) && i in t && LoneFirst(t, i) && LoneFirst(u, f[i])
    ensures NextFrom(u, f[i]) == NextFrom(t, i)
  {
    hide LoneFirst, Others;
    NextIsLeastOther(t, i);
    NextIsLeastOther(u, f[i]);
    OthersFollow(t, u, f, i);
  }

  lemma StartsFollow(t: Table, u: Table, f: map<nat, nat>, key: Key)
    requires Renumbers(t, u, f)
    ensures Starts(u, key) == Starts(t, key) && DeviceStart(u, key) == DeviceStart(t, key)
  {
    forall s | s in Starts(u, key) ensures s in Starts(t, key) {
      var k :| k in u && u[k].key == key && u[k].from == s;
      var i :| i in t && f[i] == k;
    }
    forall s | s in Starts(t, key) ensures s in Starts(u, key) {
      var i :| i in t && t[i].key == key && t[i].from == s;
      assert u[f[i]].key == key;
    }
  }

  /** Alignment and extension plan the same for a row whatever the ctids of the two tables. */
  lemma PlansFollow(t: Table, u: Table, f: map<nat, nat>, devices: Table, devices': Table, g: map<nat, nat>,
                    first: FirstStates, i: nat)
    requires Renumbers(t, u, f) && Renumbers(devices, devices', g) && i in t
    ensures AlignTo(u, f[i], devices', first) == AlignTo(t, i, devices, first)
    ensures ExtendTo(u, f[i], first) == ExtendTo(t, i, first)
  {
    hide LoneFirst, Renumbers, DeviceStart;
    assert f[i] in u && u[f[i]] == t[i] by { RowFollows(t, u, f, i); }
    LoneFirstFollows(t, u, f, i);
    if t[i].payload.device.Some? { StartsFollow(devices, devices', g, t[i].payload.device.value); }
  }

  lemma ExtensionFollows(t: Table, u: Table, f: map<nat, nat>, first: FirstStates, i: nat)
    requires Renumbers(t, u, f) && i in t
    ensures ExtendTo(u, f[i], first) == ExtendTo(t, i, first)
  {
    hide LoneFirst;
    LoneFirstFollows(t, u, f, i);
  }

  lemma RowFollows(t: Table, u: Table, f: map<nat, nat>, i: nat)
    requires Renumbers(t, u, f) && i in t
    ensures i in f && f[i] in u && u[f[i]] == t[i]
  {}

  lemma AlignFollows(t: Table, u: Table, f: map<nat, nat>, devices: Table, devices': Table, g: map<nat, nat>,
                     first: FirstStates)
    requires Renumbers(t, u, f) && Renumbers(devices, devices', g)
    ensures Renumbers(Align(t, devices, first), Align(u, devices', first), f)
  {
    hide AlignTo;
    forall i | i in t ensures AlignTo(u, f[i], devices', first) == AlignTo(t, i, devices, first) {
      PlansFollow(t, u, f, devices, devices', g, first, i);
    }
  }

  lemma ExtendFollows(t: Table, u: Table, f: map<nat, nat>, first: FirstStates)
    requires Renumbers(t, u, f)
    ensures Renumbers(Extend(t, first), Extend(u, first), f)
  {
    hide ExtendTo;
    forall i | i in t ensures ExtendTo(u, f[i], first) == ExtendTo(t, i, first) {
      ExtensionFollows(t, u, f, first, i);
    }
  }

  lemma EntityStartsFollow(t: Table, u: Table, f: map<nat, nat>, device: Key, first: FirstStates)
    requires Renumbers(t, u, f)
    ensures EntityStarts(u, device, first) == EntityStarts(t, device, first)
  {
    hide ExtendTo;
    var a, b := EntityStarts(t, device, first), EntityStarts(u, device, first);
    forall i | i in t ensures ProjectedStart(u, f[i], first) == ProjectedStart(t, i, first) {
      ExtensionFollows(t, u, f, first, i);
    }
    forall s | s in b ensures s in a {
      var k :| k in u && u[k].payload.device == Some(device) && ProjectedStart(u, k, first) == s;
      var i :| i in t && f[i] == k;
    }
    forall s | s in a ensures s in b {
      var i :| i in t && t[i].payload.device == Some(device) && ProjectedStart(t, i, first) == s;
      assert f[i] in u && u[f[i]] == t[i];
    }
  }

  lemma ExtendDevicesFollows(devices: Table, devices': Table, g: map<nat, nat>, entities: Table, entities': Table,
                             f: map<nat, nat>, first: FirstStates)
    requires Renumbers(devices, devices', g) && Renumbers(entities, entities', f)
    ensures Renumbers(ExtendDevices(devices, entities, first), ExtendDevices(devices', entities', first), g)
  {
    hide LoneFirst, EntityStarts;
    forall i | i in devices
      ensures DeviceExtendTo(devices', g[i], entities', first) == DeviceExtendTo(devices, i, entities, first)
    {
      LoneFirstFollows(devices, devices', g, i);
      EntityStartsFollow(entities, entities', f, devices[i].key, first);
    }
  }

  // ---- A run with a renumbering after every statement ------------------------------------------

  /** The same rows, up to ctids. */
  ghost predicate Alike(t: Table, u: Table) { exists f :: Renumbers(t, u, f) }

  function Compose(f: map<nat, nat>, g: map<nat, nat>): map<nat, nat> { map i | i in f && f[i] in g :: g[f[i]] }

  lemma RowTwice(t: Table, u: Table, v: Table, f: map<nat, nat>, g: map<nat, nat>, i: nat)
    requires Renumbers(t, u, f) && Renumbers(u, v, g) && i in t
    ensures var h := Compose(f, g); i in h && h[i] == g[f[i]] && h[i] in v && v[h[i]] == t[i]
  {
    hide Renumbers;
    RowFollows(t, u, f, i);
    RowFollows(u, v, g, f[i]);
  }

  lemma Injective(t: Table, u: Table, f: map<nat, nat>, i: nat, j: nat)
    requires Renumbers(t, u, f) && i in t && j in t && f[i] == f[j]
    ensures i == j
  {}

  lemma Preimage(t: Table, u: Table, f: map<nat, nat>, k: nat) returns (i: nat)
    requires Renumbers(t, u, f) && k in u
    ensures i in t && i in f && f[i] == k
  {
    i :| i in t && f[i] == k;
  }

  lemma RenumbersIs(t: Table, u: Table, f: map<nat, nat>)
    requires f.Keys == t.Keys
    requires forall i :: i in t ==> f[i] in u && u[f[i]] == t[i]
    requires forall i, j :: i in t && j in t && f[i] == f[j] ==> i == j
    requires forall k :: k in u ==> exists i :: i in t && f[i] == k
    ensures Renumbers(t, u, f)
  {}

  lemma ComposedKeys(t: Table, u: Table, v: Table, f: map<nat, nat>, g: map<nat, nat>)
    requires Renumbers(t, u, f) && Renumbers(u, v, g)
    ensures Compose(f, g).Keys == t.Keys
  {
    hide Renumbers;
    SameKeys(t, u, f);
    SameKeys(u, v, g);
    forall i | i in t ensures f[i] in g { RowFollows(t, u, f, i); }
  }

  lemma SameKeys(t: Table, u: Table, f: map<nat, nat>)
    requires Renumbers(t, u, f)
    ensures f.Keys == t.Keys
  {}

  lemma InjectiveTwice(t: Table, u: Table, v: Table, f: map<nat, nat>, g: map<nat, nat>, i: nat, j: nat)
    requires Renumbers(t, u, f) && Renumbers(u, v, g) && i in t && j in t
    requires var h := Compose(f, g); i in h && j in h && h[i] == h[j]
    ensures i == j
  {
    hide Renumbers;
    RowTwice(t, u, v, f, g, i);
    RowTwice(t, u, v, f, g, j);
    RowFollows(t, u, f, i);
    RowFollows(t, u, f, j);
    Injective(u, v, g, f[i], f[j]);
    Injective(t, u, f, i, j);
  }

  lemma RenumberTwice(t: Table, u: Table, v: Table, f: map<nat, nat>, g: map<nat, nat>)
    requires Renumbers(t, u, f) && Renumbers(u, v, g)
    ensures Renumbers(t, v, Compose(f, g))
  {
    hide Renumbers, Compose;
    var h := Compose(f, g);
    ComposedKeys(t, u, v, f, g);
    forall i | i in t ensures i in h && h[i] in v && v[h[i]] == t[i] { RowTwice(t, u, v, f, g, i); }
    forall i, j | i in t && j in t && h[i] == h[j] ensures i == j { InjectiveTwice(t, u, v, f, g, i, j); }
    forall k | k in v ensures exists i :: i in t && h[i] == k {
      var j := Preimage(u, v, g, k);
      var i := Preimage(t, u, f, j);
      RowTwice(t, u, v, f, g, i);
    }
    RenumbersIs(t, v, h);
  }

  lemma AlikeTwice(t: Table, u: Table, v: Table)
    requires Alike(t, u) && Alike(u, v)
    ensures Alike(t, v)
  {
    hide Renumbers;
    var f :| Renumbers(t, u, f);
    var g :| Renumbers(u, v, g);
    RenumberTwice(t, u, v, f, g);
  }

  lemma ClampAlike(t: Table, u: Table)
    requires Alike(t, u)
    ensures Alike(Clamp(t), Clamp(u))
  {
    hide Renumbers, Clamp;
    var f :| Renumbers(t, u, f);
    ClampFollows(t, u, f);
  }

  lemma AlignAlike(t: Table, u: Table, devices: Table, devices': Table, first: FirstStates)
    requires Alike(t, u) && Alike(devices, devices')
    ensures Alike(Align(t, devices, first), Align(u, devices', first))
  {
    hide Renumbers, Align;
    var f :| Renumbers(t, u, f);
    var g :| Renumbers(devices, devices', g);
    AlignFollows(t, u, f, devices, devices', g, first);
  }

  lemma ExtendAlike(t: Table, u: Table, first: FirstStates)
    requires Alike(t, u)
    ensures Alike(Extend(t, first), Extend(u, first))
  {
    hide Renumbers, Extend;
    var f :| Renumbers(t, u, f);
    ExtendFollows(t, u, f, first);
  }

  lemma ExtendDevicesAlike(devices: Table, devices': Table, entities: Table, entities': Table, first: FirstStates)
    requires Alike(devices, devices') && Alike(entities, entities')
    ensures Alike(ExtendDevices(devices, entities, first), ExtendDevices(devices', entities', first))
  {
    hide Renumbers, ExtendDevices;
    var g :| Renumbers(devices, devices', g);
    var f :| Renumbers(entities, entities', f);
    ExtendDevicesFollows(devices, devices', g, entities, entities', f, first);
  }

  /** Rebuild and clamp as PostgreSQL runs them: each statement may leave its table under other ctids. */
  ghost predicate NormalizesTo(t: Table, t': Table) {
    exists t1 :: Alike(Rebuild(t), t1) && Alike(Clamp(t1), t')
  }

  ghost predicate EntitiesRunTo(t: Table, t': Table, devices: Table, first: FirstStates) {
    exists t2, t3 ::
      NormalizesTo(t, t2) && Alike(Align(t2, devices, first), t3) && Alike(Extend(t3, first), t')
  }

  ghost predicate DevicesRunTo(d: Table, d': Table, entities: Table, first: FirstStates) {
    exists d2 :: NormalizesTo(d, d2) && Alike(ExtendDevices(d2, entities, first), d')
  }

  /** One run of the repair, from db to db', under PostgreSQL's numbering. */
  ghost predicate RunsTo(db: Dimensions, db': Dimensions, first: FirstStates) {
    && EntitiesRunTo(db.entities, db'.entities, db.devices, first)
    && DevicesRunTo(db.devices, db'.devices, db'.entities, first)
    && NormalizesTo(db.areas, db'.areas) && NormalizesTo(db.labels, db'.labels)
  }

  ghost predicate AlikeAll(a: Dimensions, b: Dimensions) {
    Alike(a.entities, b.entities) && Alike(a.devices, b.devices) && Alike(a.areas, b.areas) && Alike(a.labels, b.labels)
  }

  lemma NormalizedAlike(t: Table, t': Table)
    requires NormalizesTo(t, t')
    ensures Alike(Repaired(t), t')
  {
    hide Alike, Rebuild, Clamp;
    var t1 :| Alike(Rebuild(t), t1) && Alike(Clamp(t1), t');
    ClampAlike(Rebuild(t), t1);
    AlikeTwice(Repaired(t), Clamp(t1), t');
  }

  lemma EntitiesRunAlike(t: Table, t': Table, devices: Table, first: FirstStates)
    requires EntitiesRunTo(t, t', devices, first)
    ensures Alike(RepairEntities(t, devices, first), t')
  {
    hide Alike, NormalizesTo, Repaired, Align, Extend;
    var t2, t3 :| NormalizesTo(t, t2) && Alike(Align(t2, devices, first), t3) && Alike(Extend(t3, first), t');
    NormalizedAlike(t, t2);
    AlikeItself(devices);
    var a := Align(Repaired(t), devices, first);
    AlignAlike(Repaired(t), t2, devices, devices, first);
    AlikeTwice(a, Align(t2, devices, first), t3);
    ExtendAlike(a, t3, first);
    AlikeTwice(Extend(a, first), Extend(t3, first), t');
  }

  lemma AlikeItself(t: Table)
    ensures Alike(t, t)
  {
    assert Renumbers(t, t, map i | i in t :: i);
  }

  lemma DevicesRunAlike(d: Table, d': Table, entities: Table, entities': Table, first: FirstStates)
    requires DevicesRunTo(d, d', entities', first) && Alike(entities, entities')
    ensures Alike(RepairDevices(d, entities, first), d')
  {
    hide Alike, NormalizesTo, Repaired, ExtendDevices;
    var d2 :| NormalizesTo(d, d2) && Alike(ExtendDevices(d2, entities', first), d');
    NormalizedAlike(d, d2);
    ExtendDevicesAlike(Repaired(d), d2, entities, entities', first);
    AlikeTwice(RepairDevices(d, entities, first), ExtendDevices(d2, entities', first), d');
  }

  /** However the tables are renumbered after every statement, a run leaves the rows the model's run leaves. */
  lemma RunIgnoresCtid(db: Dimensions, db': Dimensions, first: FirstStates)
    requires RunsTo(db, db', first)
    ensures AlikeAll(Run(db, first), db')
  {
    hide Alike, NormalizesTo, EntitiesRunTo, DevicesRunTo, RepairEntities, RepairDevices, Repaired;
    EntitiesRunAlike(db.entities, db'.entities, db.devices, first);
    DevicesRunAlike(db.devices, db'.devices, Run(db, first).entities, db'.entities, first);
    NormalizedAlike(db.areas, db'.areas);
    NormalizedAlike(db.labels, db'.labels);
  }

  // ---- Convergence under renumbering ---------------------------------------------------------------

  lemma CleanFollows(t: Table, u: Table, f: map<nat, nat>)
    requires Clean(t) && Renumbers(t, u, f)
    ensures Clean(u) && Repaired(t) == t && Repaired(u) == u
  {
    hide SequenceClean, NoneInverted, Renumbers, Repaired;
    SameShape(t, u, f);
    SequenceCheckIgnoresCtid(t, u, f);
    CleanIsFixpoint(t);
    CleanIsFixpoint(u);
  }

  /** On a clean table the whole repair of the entities follows the numbering. */
  lemma RepairEntitiesFollows(t: Table, u: Table, f: map<nat, nat>, devices: Table, devices': Table,
                              g: map<nat, nat>, first: FirstStates)
    requires Clean(t) && Renumbers(t, u, f) && Renumbers(devices, devices', g)
    ensures Renumbers(RepairEntities(t, devices, first), RepairEntities(u, devices', first), f)
  {
    hide Clean, Renumbers, Repaired, Align, Extend;
    CleanFollows(t, u, f);
    AlignFollows(t, u, f, devices, devices', g, first);
    ExtendFollows(Align(t, devices, first), Align(u, devices', first), f, first);
  }

  lemma RepairDevicesFollows(d: Table, d': Table, g: map<nat, nat>, entities: Table, entities': Table,
                             f: map<nat, nat>, first: FirstStates)
    requires Clean(d) && Renumbers(d, d', g) && Renumbers(entities, entities', f)
    ensures Renumbers(RepairDevices(d, entities, first), RepairDevices(d', entities', first), g)
  {
    hide Clean, Renumbers, Repaired, ExtendDevices;
    CleanFollows(d, d', g);
    ExtendDevicesFollows(d, d', g, entities, entities', f, first);
  }

  ghost predicate AllClean(db: Dimensions) {
    Clean(db.entities) && Clean(db.devices) && Clean(db.areas) && Clean(db.labels)
  }

  lemma RunLeavesClean(db: Dimensions, first: FirstStates)
    ensures AllClean(Run(db, first))
  {
    hide RepairEntities, RepairDevices, Repaired, SequenceClean, NoneInverted;
    EntitiesStayClean(db.entities, db.devices, first);
    DevicesStayClean(db.devices, Run(db, first).entities, first);
    RepairKeepsRows(db.areas);
    RepairKeepsRows(db.labels);
    RepairedIsClean(db.areas);
    RepairedIsClean(db.labels);
  }

  /** Each table of b is that of a under the map of its own. */
  ghost predicate Maps(a: Dimensions, b: Dimensions, f: map<nat, nat>, g: map<nat, nat>, h: map<nat, nat>,
                       k: map<nat, nat>) {
    && Renumbers(a.entities, b.entities, f) && Renumbers(a.devices, b.devices, g)
    && Renumbers(a.areas, b.areas, h) && Renumbers(a.labels, b.labels, k)
  }

  lemma RunFollows(a: Dimensions, b: Dimensions, f: map<nat, nat>, g: map<nat, nat>, h: map<nat, nat>,
                   k: map<nat, nat>, first: FirstStates)
    requires AllClean(a) && Maps(a, b, f, g, h, k)
    ensures Maps(Run(a, first), Run(b, first), f, g, h, k)
  {
    hide Clean, Renumbers, RepairEntities, RepairDevices, Repaired;
    RepairEntitiesFollows(a.entities, b.entities, f, a.devices, b.devices, g, first);
    RepairDevicesFollows(a.devices, b.devices, g, Run(a, first).entities, Run(b, first).entities, f, first);
    CleanFollows(a.areas, b.areas, h);
    CleanFollows(a.labels, b.labels, k);
  }

  lemma SameImage(t: Table, u: Table, v: Table, f: map<nat, nat>)
    requires Renumbers(t, u, f) && Renumbers(t, v, f)
    ensures u == v
  {
    forall k ensures k in u <==> k in v {
      if k in u { var i :| i in t && f[i] == k; }
      if k in v { var i :| i in t && f[i] == k; }
    }
    forall k | k in u ensures u[k] == v[k] {
      var i :| i in t && f[i] == k;
    }
  }

  /** A renumbered fixpoint of the run is a fixpoint. */
  lemma FixpointFollows(db: Dimensions, db': Dimensions, first: FirstStates)
    requires Run(db, first) == db && AlikeAll(db, db')
    ensures Run(db', first) == db'
  {
    hide Renumbers, AllClean, Run;
    var f :| Renumbers(db.entities, db'.entities, f);
    var g :| Renumbers(db.devices, db'.devices, g);
    var h :| Renumbers(db.areas, db'.areas, h);
    var k :| Renumbers(db.labels, db'.labels, k);
    RunLeavesClean(db, first);
    RunFollows(db, db', f, g, h, k, first);
    var r := Run(db', first);
    SameImage(db.entities, db'.entities, r.entities, f);
    SameImage(db.devices, db'.devices, r.devices, g);
    SameImage(db.areas, db'.areas, r.areas, h);
    SameImage(db.labels, db'.labels, r.labels, k);
  }

  lemma CleanRunAlike(a: Dimensions, b: Dimensions, first: FirstStates)
    requires AllClean(a) && AlikeAll(a, b)
    ensures AlikeAll(Run(a, first), Run(b, first))
  {
    hide Renumbers, AllClean, Run;
    var f :| Renumbers(a.entities, b.entities, f);
    var g :| Renumbers(a.devices, b.devices, g);
    var h :| Renumbers(a.areas, b.areas, h);
    var k :| Renumbers(a.labels, b.labels, k);
    RunFollows(a, b, f, g, h, k, first);
  }

  lemma AllAlikeTwice(a: Dimensions, b: Dimensions, c: Dimensions)
    requires AlikeAll(a, b) && AlikeAll(b, c)
    ensures AlikeAll(a, c)
  {
    hide Alike;
    AlikeTwice(a.entities, b.entities, c.entities);
    AlikeTwice(a.devices, b.devices, c.devices);
    AlikeTwice(a.areas, b.areas, c.areas);
    AlikeTwice(a.labels, b.labels, c.labels);
  }

  /** On a fixpoint of the run every single statement is idle. */
  lemma FixpointIsIdle(db: Dimensions, first: FirstStates)
    requires Run(db, first) == db
    ensures forall t :: t in [db.entities, db.devices, db.areas, db.labels] ==> Rebuild(t) == t && Clamp(t) == t
    ensures Align(db.entities, db.devices, first) == db.entities && Extend(db.entities, first) == db.entities
    ensures ExtendDevices(db.devices, db.entities, first) == db.devices
  {
    hide AlignTo, ExtendTo, DeviceExtendTo, SequenceClean, NoneInverted;
    RunLeavesClean(db, first);
    CleanIsIdle(db.entities);
    CleanIsIdle(db.devices);
    CleanIsIdle(db.areas);
    CleanIsIdle(db.labels);
    forall i | i in db.entities
      ensures AlignTo(db.entities, i, db.devices, first).None? && ExtendTo(db.entities, i, first).None?
    {
      NothingLeftToMove(db.entities, i, db.devices, first);
    }
    AlignIdle(db.entities, db.devices, first);
    ExtendIdle(db.entities, first);
  }

  lemma CleanIsIdle(t: Table)
    requires Clean(t)
    ensures Rebuild(t) == t && Clamp(t) == t
  {}

  /** After two runs with any renumbering after every statement, no statement of a third updates a row. */
  lemma ThirdRunUpdatesNothing(db: Dimensions, db1: Dimensions, db2: Dimensions, first: FirstStates)
    requires RunsTo(db, db1, first) && RunsTo(db1, db2, first)
    ensures Run(db2, first) == db2
    ensures forall t :: t in [db2.entities, db2.devices, db2.areas, db2.labels] ==> Rebuild(t) == t && Clamp(t) == t
    ensures Align(db2.entities, db2.devices, first) == db2.entities && Extend(db2.entities, first) == db2.entities
    ensures ExtendDevices(db2.devices, db2.entities, first) == db2.devices
  {
    hide Rebuild, Clamp, Align, Extend, ExtendDevices, RunsTo, AlikeAll, AllClean, Run;
    RunIgnoresCtid(db, db1, first);
    RunIgnoresCtid(db1, db2, first);
    RunLeavesClean(db, first);
    CleanRunAlike(Run(db, first), db1, first);
    AllAlikeTwice(Run(Run(db, first), first), Run(db1, first), db2);
    ThirdRunChangesNothing(db, first);
    FixpointFollows(Run(Run(db, first), first), db2, first);
    FixpointIsIdle(db2, first);
  }
}
