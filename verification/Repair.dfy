/**
 The repair's rebuild and clamp. Together they bring any table, however damaged, to a
 normal form: at each instant the version labelled is the last one started, if it covered
 that instant before the repair.
 */
module Repair {
  import opened Options
  import opened Versions

  // ---- Statements -------------------------------------------------------------------

  predicate Overruns(t: Table, i: nat)
    requires i in t
  {
    var n := NextFrom(t, i);
    n.Some? && (t[i].to.None? || t[i].to.value > n.value)
  }

  /** UPDATE ... SET valid_to = next_from: shrinks, never extends. */
  function Rebuild(t: Table): Table {
    map i | i in t :: if Overruns(t, i) then t[i].(to := NextFrom(t, i)) else t[i]
  }

  function ClampRow(r: Row): Row { if Inverted(r) then r.(to := Some(r.from)) else r }

  function Clamp(t: Table): Table { map i | i in t :: ClampRow(t[i]) }

  function Repaired(t: Table): Table { Clamp(Rebuild(t)) }

  // ---- The normal form ----------------------------------------------------------------

  /** Of the versions started by instant x, row i is the last in window order. */
  ghost predicate LastStarted(t: Table, i: nat, x: int) {
    i in t && t[i].from <= x && forall j :: Before(t, i, j) ==> x < t[j].from
  }

  lemma LastStartedIsUnique(t: Table, i: nat, j: nat, x: int)
    requires LastStarted(t, i, x) && LastStarted(t, j, x) && t[i].key == t[j].key
    ensures i == j
  {
    BeforeIsTotal(t, i, j);
  }

  lemma RepairKeepsRows(t: Table)
    ensures SameRows(t, Repaired(t)) && NoneInverted(Repaired(t))
    ensures forall i :: i in t ==> Repaired(t)[i].from == t[i].from
  {
  }

  /** After the repair a row covers exactly the instants it covered as the last one started. */
  lemma RepairLabels(t: Table, i: nat, x: int)
    requires i in t
    ensures Covers(Repaired(t)[i], x) <==> LastStarted(t, i, x) && Covers(t[i], x)
  {
    var n := NextFrom(t, i);
    if n.Some? {
      var j :| Before(t, i, j) && t[j].from == n.value;
      assert x < n.value <==> forall j :: Before(t, i, j) ==> x < t[j].from;
    }
  }

  lemma RepairDisjoint(t: Table)
    ensures Disjoint(Repaired(t))
  {
    var t' := Repaired(t);
    RepairKeepsRows(t);
    forall i, j, x | i in t' && j in t' && i != j && t'[i].key == t'[j].key && Covers(t'[i], x)
      ensures !Covers(t'[j], x)
    {
      RepairLabels(t, i, x);
      RepairLabels(t, j, x);
      if LastStarted(t, j, x) {
        LastStartedIsUnique(t, i, j, x);
      }
    }
  }

  /** Whatever the damage: no row is deleted, no coverage is added, the invariant holds. */
  lemma RepairNormalForm(t: Table)
    ensures SameRows(t, Repaired(t)) && NoneInverted(Repaired(t)) && Disjoint(Repaired(t))
    ensures forall i, x :: i in t && Covers(Repaired(t)[i], x) ==> Covers(t[i], x)
    ensures forall i, x :: i in t && Covers(t[i], x) && LastStarted(t, i, x) ==> Covers(Repaired(t)[i], x)
  {
    RepairKeepsRows(t);
    RepairDisjoint(t);
    forall i, x | i in t
      ensures Covers(Repaired(t)[i], x) ==> Covers(t[i], x)
      ensures Covers(t[i], x) && LastStarted(t, i, x) ==> Covers(Repaired(t)[i], x)
    {
      RepairLabels(t, i, x);
    }
  }

  // ---- Repairing what is already repaired -------------------------------------------------

  ghost predicate SequenceClean(t: Table) {
    forall i :: i in t ==> !Overruns(t, i)
  }

  ghost predicate Clean(t: Table) { SequenceClean(t) && NoneInverted(t) }

  lemma CleanIsFixpoint(t: Table)
    requires SequenceClean(t) && NoneInverted(t)
    ensures Repaired(t) == t
  {
    assert Rebuild(t) == t;
  }

  lemma CleanAbuts(t: Table, i: nat, j: nat)
    requires SequenceClean(t) && Before(t, i, j)
    ensures t[i].to.Some? && t[i].to.value <= t[j].from
  {
    assert !Overruns(t, i);
  }

  /** The repair's output passes the window check, although ties may now sort differently. */
  lemma RepairedIsClean(t: Table)
    ensures SequenceClean(Repaired(t))
  {
    var t' := Repaired(t);
    RepairKeepsRows(t);
    forall i, j | Before(t', i, j) ensures t'[i].to.Some? && t'[i].to.value <= t'[j].from {
      if !Before(t, i, j) {
        BeforeIsTotal(t, i, j);
        var n := NextFrom(t, j);
        assert n.value == t[i].from;
      } else {
        var n := NextFrom(t, i);
        assert n.value <= t[j].from;
      }
    }
    forall i | i in t' ensures !Overruns(t', i) {
      var n := NextFrom(t', i);
      if n.Some? {
        var j :| Before(t', i, j) && t'[j].from == n.value;
      }
    }
  }

  lemma RepairIsIdempotent(t: Table)
    ensures Repaired(Repaired(t)) == Repaired(t)
  {
    RepairKeepsRows(t);
    RepairedIsClean(t);
    CleanIsFixpoint(Repaired(t));
  }
}
