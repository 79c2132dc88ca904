/** The opt-in collapse of twins: same start, same payload. */
module Collapse {
  import opened Options
  import opened Versions
  import opened Repair

  predicate Twins(t: Table, i: nat, j: nat) {
    i in t && j in t && t[i].key == t[j].key && t[i].from == t[j].from
  }

  /** count(DISTINCT payload) = 1 over the rows sharing a start. */
  predicate Uniform(t: Table, i: nat) {
    i in t && forall j :: j in t && Twins(t, i, j) ==> t[j].payload == t[i].payload
  }

  /** ORDER BY valid_to DESC NULLS FIRST, ctid */
  predicate Outranks(t: Table, i: nat, j: nat) {
    Twins(t, i, j) && (EndsBefore(t[j], t[i]) || (t[i].to == t[j].to && i < j))
  }

  predicate Loses(t: Table, i: nat) {
    Uniform(t, i) && exists j :: j in t && Outranks(t, j, i)
  }

  function Collapsed(t: Table): Table { map i | i in t && !Loses(t, i) :: t[i] }

  lemma SurvivorExists(t: Table, i: nat) returns (s: nat)
    requires Loses(t, i)
    ensures Twins(t, i, s) && !Loses(t, s) && forall j :: Twins(t, i, j) && j != s ==> Outranks(t, s, j)
  {
    var group: set<nat> := set j | j in t && Twins(t, i, j);
    assert i in group;
    var less := (a: nat, b: nat) => Outranks(t, a, b);
    s := Minimum(group, less);
    forall j | j in t ensures !Outranks(t, j, s) {
      if Twins(t, i, j) && j != s { assert less(s, j); }
    }
  }

  lemma LastStartedExists(t: Table, k: nat, x: int) returns (i: nat)
    requires k in t && t[k].from <= x
    ensures LastStarted(t, i, x) && t[i].key == t[k].key
  {
    var started: set<nat> := set j | j in t && t[j].key == t[k].key && t[j].from <= x;
    assert k in started;
    var less := (a: nat, b: nat) => Before(t, b, a);
    i := Minimum(started, less);
    assert forall j :: j in started && j != i ==> Before(t, j, i);
    forall j | Before(t, i, j) ensures x < t[j].from {
      BeforeIsTotal(t, i, j);
    }
  }

  /** Where a collapsed twin was the last version started, its survivor now is, alike in all. */
  lemma SurvivorStands(t: Table, i: nat, x: int) returns (s: nat)
    requires LastStarted(t, i, x)
    ensures LastStarted(Collapsed(t), s, x)
    ensures t[s].key == t[i].key && t[s].from == t[i].from && t[s].to == t[i].to && t[s].payload == t[i].payload
  {
    if !Loses(t, i) {
      s := i;
    } else {
      s := SurvivorExists(t, i);
      assert !Before(t, i, s) && Outranks(t, s, i);
      forall j | Before(Collapsed(t), s, j) ensures x < t[j].from {
        if t[j].from == t[i].from {
          assert Outranks(t, s, j) && Uniform(t, j);
        }
      }
    }
  }

  /** The payloads that label an instant of one id. */
  ghost predicate Labels(t: Table, key: Key, x: int, p: Payload) {
    exists i :: i in t && t[i].key == key && t[i].payload == p && Covers(t[i], x)
  }

  lemma RepairedLabels(t: Table, key: Key, x: int, p: Payload)
    ensures Labels(Repaired(t), key, x, p) <==>
            exists i :: LastStarted(t, i, x) && t[i].key == key && t[i].payload == p && Covers(t[i], x)
  {
    RepairKeepsRows(t);
    forall i | i in t
      ensures Covers(Repaired(t)[i], x) <==> LastStarted(t, i, x) && Covers(t[i], x)
    {
      RepairLabels(t, i, x);
    }
    if i :| LastStarted(t, i, x) && t[i].key == key && t[i].payload == p && Covers(t[i], x) {
      assert i in Repaired(t) && Covers(Repaired(t)[i], x);
    }
  }

  /** Collapsing duplicates before the repair changes the payload of no instant of any id. */
  lemma CollapseIsInvisible(t: Table, key: Key, x: int, p: Payload)
    ensures Labels(Repaired(Collapsed(t)), key, x, p) <==> Labels(Repaired(t), key, x, p)
  {
    var c := Collapsed(t);
    RepairedLabels(t, key, x, p);
    RepairedLabels(c, key, x, p);
    if i :| LastStarted(t, i, x) && t[i].key == key && t[i].payload == p && Covers(t[i], x) {
      var s := SurvivorStands(t, i, x);
      assert LastStarted(c, s, x) && c[s].payload == p && Covers(c[s], x);
    }
    if k :| LastStarted(c, k, x) && c[k].key == key && c[k].payload == p && Covers(c[k], x) {
      var i := LastStartedExists(t, k, x);
      var s := SurvivorStands(t, i, x);
      LastStartedIsUnique(c, k, s, x);
      assert LastStarted(t, i, x) && t[i].payload == p && Covers(t[i], x);
    }
  }

  /** What is deleted is archived whole, and every start keeps at least one row. */
  lemma CollapseKeepsStarts(t: Table, i: nat)
    requires i in t
    ensures exists s :: s in Collapsed(t) && Twins(t, i, s) && (s == i || t[s].payload == t[i].payload)
  {
    if Loses(t, i) {
      var s := SurvivorExists(t, i);
      assert s in Collapsed(t);
    } else {
      assert i in Collapsed(t) && Twins(t, i, i);
    }
  }
}
