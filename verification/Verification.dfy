/** The invariant checks: what each one finds, and how far the two overlap checks agree. */
module Verification {
  import opened Clock
  import opened Options
  import opened Versions
  import opened Repair

  // ---- The five queries ---------------------------------------------------------------

  function InvertedRows(t: Table): set<nat> { set i | i in t && Inverted(t[i]) }

  function FutureRows(t: Table, now: int): set<nat> { set i | i in t && t[i].from > now + DAY }

  predicate IsOpen(t: Table, i: nat)
    requires i in t
  {
    t[i].to.None?
  }

  function MultiOpenKeys(t: Table): set<Key> {
    set i, j | i in t && j in t && i != j && t[i].key == t[j].key && IsOpen(t, i) && IsOpen(t, j) :: t[i].key
  }

  function SequenceRows(t: Table): set<nat> { set i | i in t && Overruns(t, i) }

  /** tstzrange '[)' && tstzrange '[)'. An empty range overlaps nothing. */
  predicate RangesOverlap(a: Row, b: Row) {
    && !Empty(a) && !Empty(b)
    && (b.to.Some? ==> a.from < b.to.value)
    && (a.to.Some? ==> b.from < a.to.value)
  }

  function RangePairs(t: Table): set<(nat, nat)> {
    set i, j | i in t && j in t && i < j && t[i].key == t[j].key && RangesOverlap(t[i], t[j]) :: (i, j)
  }

  /** An empty version starting strictly inside another version of its id. */
  ghost predicate EmptyInside(t: Table) {
    exists i, j :: i in t && j in t && t[i].key == t[j].key && Empty(t[j])
                   && t[i].from < t[j].from && (t[i].to.Some? ==> t[j].from < t[i].to.value)
  }

  // ---- What they mean --------------------------------------------------------------------

  /** On ranges that are not inverted, && is having an instant in common. */
  lemma OverlapIsSharedInstant(a: Row, b: Row)
    requires !Inverted(a) && !Inverted(b)
    ensures RangesOverlap(a, b) <==> exists x :: Covers(a, x) && Covers(b, x)
  {
    if RangesOverlap(a, b) {
      var x := Max(a.from, b.from);
      assert Covers(a, x) && Covers(b, x);
    }
  }

  lemma RangeCleanIsDisjoint(t: Table)
    requires NoneInverted(t)
    ensures RangePairs(t) == {} <==> Disjoint(t)
  {
    if RangePairs(t) == {} {
      forall i, j, x | i in t && j in t && i != j && t[i].key == t[j].key && Covers(t[i], x)
        ensures !Covers(t[j], x)
      {
        OverlapIsSharedInstant(t[i], t[j]);
        OverlapIsSharedInstant(t[j], t[i]);
        assert (if i < j then (i, j) else (j, i)) !in RangePairs(t);
      }
    }
    if Disjoint(t) {
      forall p | p in RangePairs(t) ensures false {
        OverlapIsSharedInstant(t[p.0], t[p.1]);
      }
    }
  }

  lemma SequenceCleanMeans(t: Table)
    ensures SequenceRows(t) == {} <==> SequenceClean(t)
  {
    if SequenceRows(t) == {} {
      forall i | i in t ensures !Overruns(t, i) {
        assert i !in SequenceRows(t);
      }
    }
  }

  lemma OverrunHitsSuccessor(t: Table, i: nat) returns (j: nat)
    requires i in t && Overruns(t, i)
    ensures Before(t, i, j) && (t[i].to.Some? ==> t[j].from < t[i].to.value)
  {
    j := Next(t, i).value;
  }

  lemma CleanLeavesNoOverlap(t: Table)
    requires SequenceClean(t) && NoneInverted(t)
    ensures Disjoint(t) && !EmptyInside(t)
  {
    forall i, j | i in t && j in t && t[i].key == t[j].key && i != j
      ensures (t[i].to.Some? && t[i].to.value <= t[j].from) || (t[j].to.Some? && t[j].to.value <= t[i].from)
    {
      BeforeIsTotal(t, i, j);
      if Before(t, i, j) { CleanAbuts(t, i, j); } else { CleanAbuts(t, j, i); }
    }
  }

  lemma OverrunIsFound(t: Table, i: nat)
    requires NoneInverted(t) && i in t && Overruns(t, i)
    ensures EmptyInside(t) || !Disjoint(t)
  {
    var j := OverrunHitsSuccessor(t, i);
    var x := t[j].from;
    assert t[i].key == t[j].key;
    if !(t[i].from < x && Empty(t[j])) {
      assert Covers(t[i], x) && Covers(t[j], x);
    }
  }

  /**
   The window check and the range check agree exactly up to empty versions: with no
   inverted row, SEQUENCE is clean if and only if RANGE is clean and no empty version
   starts strictly inside another.
   */
  lemma ChecksAgree(t: Table)
    requires NoneInverted(t)
    ensures SequenceRows(t) == {} <==> RangePairs(t) == {} && !EmptyInside(t)
  {
    SequenceCleanMeans(t);
    RangeCleanIsDisjoint(t);
    if SequenceClean(t) {
      CleanLeavesNoOverlap(t);
    } else {
      var i :| i in t && Overruns(t, i);
      OverrunIsFound(t, i);
    }
  }

  /** Two open versions overlap, so a clean range check leaves at most one open row per id. */
  lemma RangeCleanHasOneOpen(t: Table)
    requires RangePairs(t) == {}
    ensures MultiOpenKeys(t) == {}
  {
    forall i, j | i in t && j in t && i != j && t[i].key == t[j].key ensures !IsOpen(t, i) || !IsOpen(t, j) {
      assert (if i < j then (i, j) else (j, i)) !in RangePairs(t);
    }
  }

  // ---- run_verification --------------------------------------------------------------------

  datatype Check = INVERTED | VALID_FROM_SANITY | MULTI_OPEN | SEQUENCE | RANGE_OVERLAP

  const CHECKS := [INVERTED, VALID_FROM_SANITY, MULTI_OPEN, SEQUENCE, RANGE_OVERLAP]
  const SKIPPED := -1

  /** Building a range raises on an inverted row, so the query has no result there. */
  function RangeQuery(t: Table): Option<int> {
    if InvertedRows(t) != {} then Option.None else Some(|RangePairs(t)|)
  }

  function Findings(t: Table, c: Check, now: int): Option<int> {
    match c
    case INVERTED => Some(|InvertedRows(t)|)
    case VALID_FROM_SANITY => Some(|FutureRows(t, now)|)
    case MULTI_OPEN => Some(|MultiOpenKeys(t)|)
    case SEQUENCE => Some(|SequenceRows(t)|)
    case RANGE_OVERLAP => RangeQuery(t)
  }

  predicate AllClean(found: map<Check, int>) { forall c :: c in found ==> found[c] == 0 }

  /** Nothing the five checks look for is there. */
  ghost predicate Sound(t: Table, now: int) {
    NoneInverted(t) && Disjoint(t) && !EmptyInside(t) && forall i :: i in t ==> t[i].from <= now + DAY
  }

  lemma NoFindings(t: Table, now: int)
    ensures |InvertedRows(t)| == 0 <==> NoneInverted(t)
    ensures |FutureRows(t, now)| == 0 <==> forall i :: i in t ==> t[i].from <= now + DAY
  {
    forall i | i in t ensures Inverted(t[i]) ==> InvertedRows(t) != {} {
      if Inverted(t[i]) { assert i in InvertedRows(t); }
    }
    forall i | i in t ensures t[i].from > now + DAY ==> FutureRows(t, now) != {} {
      if t[i].from > now + DAY { assert i in FutureRows(t, now); }
    }
  }

  lemma Verdict(t: Table, now: int)
    ensures |InvertedRows(t)| == |FutureRows(t, now)| == |MultiOpenKeys(t)| == |SequenceRows(t)| == |RangePairs(t)| == 0
            <==> Sound(t, now)
  {
    NoFindings(t, now);
    if NoneInverted(t) {
      ChecksAgree(t);
      RangeCleanIsDisjoint(t);
      if RangePairs(t) == {} {
        RangeCleanHasOneOpen(t);
      }
    }
  }

  /** The checks of one table in their order; a check whose guard found something is skipped. */
  method VerifyTable(t: Table, now: int) returns (found: map<Check, int>)
    ensures forall c :: c in CHECKS ==> c in found
    ensures found[RANGE_OVERLAP] == SKIPPED <==> !NoneInverted(t)
    ensures forall c :: c in found && found[c] != SKIPPED ==> Findings(t, c, now) == Some(found[c])
    ensures AllClean(found) <==> Sound(t, now)
  {
    found := map[];
    var k := 0;
    NoFindings(t, now);
    while k < |CHECKS|
      invariant 0 <= k <= |CHECKS|
      invariant forall c :: c in found <==> c in CHECKS[..k]
      invariant forall c :: c in found && c != RANGE_OVERLAP ==> Findings(t, c, now) == Some(found[c])
      invariant RANGE_OVERLAP in found ==>
                  found[RANGE_OVERLAP] == if NoneInverted(t) then |RangePairs(t)| else SKIPPED
    {
      var c := CHECKS[k];
      assert k == 4 ==> INVERTED == CHECKS[..k][0];
      assert k < 4 ==> c != RANGE_OVERLAP;
      assert CHECKS[..k + 1] == CHECKS[..k] + [c];
      if c == RANGE_OVERLAP && found[INVERTED] != 0 {
        found := found[c := SKIPPED];
      } else {
        found := found[c := Findings(t, c, now).value];
      }
      k := k + 1;
    }
    assert CHECKS[..k] == CHECKS;
    assert INVERTED == CHECKS[0] && VALID_FROM_SANITY == CHECKS[1] && MULTI_OPEN == CHECKS[2]
           && SEQUENCE == CHECKS[3] && RANGE_OVERLAP == CHECKS[4];
    Verdict(t, now);
    assert AllClean(found) <==>
             found[INVERTED] == 0 && found[VALID_FROM_SANITY] == 0 && found[MULTI_OPEN] == 0
             && found[SEQUENCE] == 0 && found[RANGE_OVERLAP] == 0;
  }

  method RunVerification(tables: seq<Table>, now: int) returns (results: seq<map<Check, int>>)
    ensures |results| == |tables|
    ensures forall i :: 0 <= i < |tables| ==> (AllClean(results[i]) <==> Sound(tables[i], now))
  {
    results := [];
    for i := 0 to |tables|
      invariant |results| == i
      invariant forall k :: 0 <= k < i ==> (AllClean(results[k]) <==> Sound(tables[k], now))
    {
      var found := VerifyTable(tables[i], now);
      results := results + [found];
    }
  }

  /** After a repair every check but the future-start one comes back clean. */
  lemma RepairVerifiesClean(t: Table, now: int)
    requires forall i :: i in t ==> t[i].from <= now + DAY
    ensures Sound(Repaired(t), now)
  {
    RepairKeepsRows(t);
    RepairedIsClean(t);
    CleanLeavesNoOverlap(Repaired(t));
  }
}
