/** One SCD2 dimension table: versions of ids, and the window order every query uses. */
module Versions {
  import opened Options

  type Key = string

  /**
   What a version records besides its interval. `attrs` stands for the compared columns,
   `modifiedAt` for the one field of `extra` that change detection and gap merging ignore.
   */
  datatype Payload = Payload(
    uuid: string,
    device: Option<Key>,
    area: Option<Key>,
    createdAt: Option<int>,
    attrs: string,
    modifiedAt: int)

  /** A version; `to` is None while it is open. */
  datatype Row = Row(key: Key, from: int, to: Option<int>, payload: Payload)

  /** A table: rows by ctid. */
  type Table = map<nat, Row>

  /** Interval semantics of '[)' with an open end at infinity. */
  predicate Covers(r: Row, x: int) { r.from <= x && (r.to.Some? ==> x < r.to.value) }

  predicate Inverted(r: Row) { r.to.Some? && r.to.value < r.from }

  predicate Empty(r: Row) { r.to == Some(r.from) }

  // ---- ORDER BY valid_from, (valid_to IS NULL), valid_to, ctid -----------------------

  predicate EndsBefore(a: Row, b: Row) {
    a.to.Some? && (b.to.Some? ==> a.to.value < b.to.value)
  }

  predicate SortsBefore(a: Row, i: nat, b: Row, j: nat) {
    a.from < b.from || (a.from == b.from && (EndsBefore(a, b) || (a.to == b.to && i < j)))
  }

  /** Row j comes after row i in its partition's window. */
  predicate Before(t: Table, i: nat, j: nat) {
    i in t && j in t && t[i].key == t[j].key && SortsBefore(t[i], i, t[j], j)
  }

  lemma BeforeIsTotal(t: Table, i: nat, j: nat)
    requires i in t && j in t && t[i].key == t[j].key
    ensures i == j || Before(t, i, j) || Before(t, j, i)
    ensures !(Before(t, i, j) && Before(t, j, i))
  {
  }

  lemma BeforeIsTransitive(t: Table, i: nat, j: nat, k: nat)
    requires Before(t, i, j) && Before(t, j, k)
    ensures Before(t, i, k)
  {
  }

  function After(t: Table, i: nat): (js: set<nat>)
    ensures forall j :: j in js <==> Before(t, i, j)
  {
    set j | j in t && Before(t, i, j)
  }

  predicate IsFirst(t: Table, js: set<nat>, j: nat) {
    j in js && forall k :: k in js && k != j ==> Before(t, j, k)
  }

  lemma FirstExists(t: Table, js: set<nat>, key: Key)
    requires js != {} && forall j :: j in js ==> j in t && t[j].key == key
    ensures exists j :: IsFirst(t, js, j)
  {
    var less := (a: nat, b: nat) => Before(t, a, b);
    var j := Minimum(js, less);
    assert forall k :: k in js && k != j ==> less(j, k);
    assert IsFirst(t, js, j);
  }

  function First(t: Table, js: set<nat>, key: Key): (j: nat)
    requires js != {} && forall j :: j in js ==> j in t && t[j].key == key
    ensures IsFirst(t, js, j)
  {
    FirstExists(t, js, key);
    var j :| IsFirst(t, js, j);
    j
  }

  /** lead(ctid) */
  function Next(t: Table, i: nat): (n: Option<nat>)
    requires i in t
    ensures n.None? <==> forall j :: !Before(t, i, j)
    ensures n.Some? ==> Before(t, i, n.value) && forall j :: Before(t, i, j) ==> j == n.value || Before(t, n.value, j)
  {
    if After(t, i) == {} then
      assert forall j :: Before(t, i, j) ==> j in After(t, i);
      Option.None
    else Some(First(t, After(t, i), t[i].key))
  }

  /** lead(valid_from) */
  function NextFrom(t: Table, i: nat): (n: Option<int>)
    requires i in t
    ensures n.None? <==> forall j :: !Before(t, i, j)
    ensures n.Some? ==> n.value >= t[i].from && forall j :: Before(t, i, j) ==> n.value <= t[j].from
    ensures n.Some? ==> exists j :: Before(t, i, j) && t[j].from == n.value
  {
    var n := Next(t, i);
    if n.None? then Option.None else Some(t[n.value].from)
  }

  // ---- The invariant ---------------------------------------------------------------

  /** At any instant at most one version of an id is valid. */
  ghost predicate Disjoint(t: Table) {
    forall i, j, x :: i in t && j in t && i != j && t[i].key == t[j].key && Covers(t[i], x) ==> !Covers(t[j], x)
  }

  predicate NoneInverted(t: Table) { forall i :: i in t ==> !Inverted(t[i]) }

  /** Two tables hold the same rows except for their intervals. */
  predicate SameRows(t: Table, t': Table) {
    t'.Keys == t.Keys && forall i :: i in t ==> t'[i].key == t[i].key && t'[i].payload == t[i].payload
  }
}
