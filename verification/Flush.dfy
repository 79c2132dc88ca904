/**
 The states worker's flush: chunks of rows, and for a chunk the database keeps refusing a probe,
 then row by row. Rows are known by their position, as the source compares them by identity.
 */
module Flush {
  import Ingestion

  const POISON_PROBE_ROWS := 5

  datatype Answer = Lands | Refused | Unavailable

  /**
   The database, as the calls of one flush find it: what it answers the n-th call that inserts
   the chunk at an offset, or one row. A row call is a whole retried insert, a probe a single
   try. For the wrapped calls Unavailable never comes back: they are retried until it passes.
   */
  datatype Database = Database(chunk: (nat, nat) -> bool, row: (nat, nat) -> bool, probe: (nat, nat) -> Answer)

  /** Positions in the order they were stored, those dead-lettered, and whether it is over. */
  datatype Written = Written(stored: seq<nat>, dead: seq<nat>, done: bool)

  /** Every position of the range is either stored or dead-lettered, and only once. */
  ghost predicate EachOnce(w: Written, from: nat, end: nat) {
    forall i: nat :: multiset(w.stored)[i] + multiset(w.dead)[i] == if from <= i < end then 1 else 0
  }

  // ---- Probing -----------------------------------------------------------------------------

  /** No earlier row of the chunk is about the same entity. */
  predicate FirstOfEntity(entities: seq<string>, from: nat, i: nat) {
    from <= i < |entities| && forall k :: from <= k < i ==> entities[k] != entities[i]
  }

  /** The first rows of the first entities, in order of appearance. */
  ghost predicate AreProbes(entities: seq<string>, from: nat, end: nat, probes: seq<nat>) {
    && (forall k :: 0 <= k < |probes| ==> probes[k] < end && FirstOfEntity(entities, from, probes[k]))
    && (forall j, k :: 0 <= j < k < |probes| ==> probes[j] < probes[k])
    && (probes != [] ==> forall i: nat :: i <= probes[|probes| - 1] && FirstOfEntity(entities, from, i) ==> i in probes)
  }

  /** All the first rows of the chunk's entities, and too few to probe. */
  ghost predicate FewEntities(entities: seq<string>, from: nat, end: nat) {
    exists firsts ::
      && AreProbes(entities, from, end, firsts) && |firsts| < POISON_PROBE_ROWS
      && forall i: nat :: i < end && FirstOfEntity(entities, from, i) ==> i in firsts
  }

  predicate KnownEntity(entities: seq<string>, probes: seq<nat>, i: nat)
    requires i < |entities| && forall k :: 0 <= k < |probes| ==> probes[k] < |entities|
  {
    exists k :: 0 <= k < |probes| && entities[probes[k]] == entities[i]
  }

  /** The rows before i have been looked at, and `probes` are the first ones of their entities. */
  ghost predicate Scanned(entities: seq<string>, from: nat, i: nat, probes: seq<nat>) {
    && from <= i <= |entities| && AreProbes(entities, from, i, probes)
    && (forall k: nat :: k < i && FirstOfEntity(entities, from, k) ==> k in probes)
    && (forall k: nat :: from <= k < i ==> KnownEntity(entities, probes, k))
  }

  lemma ScanKnown(entities: seq<string>, from: nat, i: nat, probes: seq<nat>)
    requires Scanned(entities, from, i, probes) && i < |entities| && KnownEntity(entities, probes, i)
    ensures Scanned(entities, from, i + 1, probes)
  {
    NotFirstIfKnown(entities, from, i, probes);
  }

  lemma ScanNew(entities: seq<string>, from: nat, i: nat, probes: seq<nat>)
    requires Scanned(entities, from, i, probes) && i < |entities| && !KnownEntity(entities, probes, i)
    ensures Scanned(entities, from, i + 1, probes + [i])
  {
    hide KnownEntity;
    FirstIfUnknown(entities, from, i, probes);
    KnownGrows(entities, probes, i);
  }

  lemma ScanIsFew(entities: seq<string>, from: nat, end: nat, probes: seq<nat>)
    requires Scanned(entities, from, end, probes) && |probes| < POISON_PROBE_ROWS
    ensures FewEntities(entities, from, end)
  {}

  lemma ScanIsProbes(entities: seq<string>, from: nat, i: nat, end: nat, probes: seq<nat>)
    requires Scanned(entities, from, i, probes) && i <= end
    ensures AreProbes(entities, from, end, probes)
  {}

  /** The rows to probe; none if the chunk has fewer than five entities. */
  method ChooseProbes(entities: seq<string>, from: nat, end: nat) returns (probes: seq<nat>)
    requires from <= end <= |entities|
    ensures AreProbes(entities, from, end, probes)
    ensures |probes| == POISON_PROBE_ROWS || probes == []
    ensures probes == [] ==> FewEntities(entities, from, end)
  {
    hide Scanned, FewEntities;
    probes := [];
    var i := from;
    assert Scanned(entities, from, from, []) by { NothingScanned(entities, from); }
    while i < end && |probes| < POISON_PROBE_ROWS
      invariant from <= i <= end && |probes| <= POISON_PROBE_ROWS && Scanned(entities, from, i, probes)
    {
      assert forall k :: 0 <= k < |probes| ==> probes[k] < |entities| by {
        ScanIsProbes(entities, from, i, end, probes);
      }
      if !KnownEntity(entities, probes, i) {
        ScanNew(entities, from, i, probes);
        probes := probes + [i];
      } else {
        ScanKnown(entities, from, i, probes);
      }
      i := i + 1;
    }
    ScanIsProbes(entities, from, i, end, probes);
    if |probes| < POISON_PROBE_ROWS {
      ScanIsFew(entities, from, end, probes);
      probes := [];
    }
  }

  lemma NothingScanned(entities: seq<string>, from: nat)
    requires from <= |entities|
    ensures Scanned(entities, from, from, [])
  {}

  lemma FirstIfUnknown(entities: seq<string>, from: nat, i: nat, probes: seq<nat>)
    requires from <= i < |entities| && AreProbes(entities, from, i, probes)
    requires forall k: nat :: from <= k < i ==> KnownEntity(entities, probes, k)
    requires !KnownEntity(entities, probes, i)
    ensures FirstOfEntity(entities, from, i)
  {
    forall k: nat | from <= k < i ensures entities[k] != entities[i] {
      assert KnownEntity(entities, probes, k);
      var j :| 0 <= j < |probes| && entities[probes[j]] == entities[k];
      assert entities[probes[j]] != entities[i];
    }
  }

  lemma NotFirstIfKnown(entities: seq<string>, from: nat, i: nat, probes: seq<nat>)
    requires from <= i < |entities| && AreProbes(entities, from, i, probes) && KnownEntity(entities, probes, i)
    ensures !FirstOfEntity(entities, from, i)
  {
    var j :| 0 <= j < |probes| && entities[probes[j]] == entities[i];
    assert FirstOfEntity(entities, from, probes[j]);
  }

  lemma KnownGrows(entities: seq<string>, probes: seq<nat>, i: nat)
    requires i < |entities| && forall k :: 0 <= k < |probes| ==> probes[k] < |entities|
    ensures KnownEntity(entities, probes + [i], i)
    ensures forall k: nat :: k < |entities| && KnownEntity(entities, probes, k) ==>
              KnownEntity(entities, probes + [i], k)
  {
    var more := probes + [i];
    assert more[|probes|] == i;
    forall k: nat | k < |entities| && KnownEntity(entities, probes, k) ensures KnownEntity(entities, more, k) {
      var j :| 0 <= j < |probes| && entities[probes[j]] == entities[k];
      assert more[j] == probes[j];
    }
  }

  /** What probing found: a veto, no probe to make, or the row that landed. */
  datatype Probed = Veto | NoProbe | Landed(i: nat)

  /** _probe_rows, at the `round`-th poison verdict. */
  method ProbeRows(entities: seq<string>, from: nat, end: nat, db: Database, round: nat)
    returns (r: Probed, ghost probes: seq<nat>)
    requires from <= end <= |entities|
    ensures AreProbes(entities, from, end, probes)
    ensures r.NoProbe? <==> probes == []
    ensures r.NoProbe? ==> FewEntities(entities, from, end)
    ensures r.Landed? ==> r.i in probes && db.probe(round, r.i) == Lands
                          && forall i :: i in probes && i < r.i ==> db.probe(round, i) == Refused
    ensures r.Veto? ==> |probes| == POISON_PROBE_ROWS && forall i :: i in probes ==>
                          db.probe(round, i) != Lands
                           || exists j :: j in probes && j < i && db.probe(round, j) == Unavailable
  {
    var chosen := ChooseProbes(entities, from, end);
    probes := chosen;
    if chosen == [] { return NoProbe, probes; }
    for k := 0 to |chosen|
      invariant forall j :: 0 <= j < k ==> db.probe(round, chosen[j]) == Refused
    {
      var answer := db.probe(round, chosen[k]);
      if answer == Unavailable {
        return Veto, probes;
      }
      if answer == Lands { return Landed(chosen[k]), probes; }
    }
    r := Veto;
  }

  // ---- Inserting ----------------------------------------------------------------------------

  /** Rows from..i and the landed probe row are each in exactly one of the two lists. */
  ghost predicate AllPlaced(stored: seq<nat>, dead: seq<nat>, from: nat, i: nat, landed: Probed) {
    forall k: nat :: multiset(stored)[k] + multiset(dead)[k] == if from <= k < i || landed == Landed(k) then 1 else 0
  }

  lemma ProbePlaced(from: nat, landed: Probed)
    ensures AllPlaced(if landed.Landed? then [landed.i] else [], [], from, from, landed)
  {}

  lemma NextPlaced(stored: seq<nat>, dead: seq<nat>, from: nat, i: nat, landed: Probed)
    requires from <= i && AllPlaced(stored, dead, from, i, landed)
    ensures landed == Landed(i) ==> AllPlaced(stored, dead, from, i + 1, landed)
    ensures landed != Landed(i) ==>
      AllPlaced(stored + [i], dead, from, i + 1, landed) && AllPlaced(stored, dead + [i], from, i + 1, landed)
  {
    assert forall k: nat :: multiset(stored + [i])[k] == multiset(stored)[k] + (if k == i then 1 else 0);
    assert forall k: nat :: multiset(dead + [i])[k] == multiset(dead)[k] + (if k == i then 1 else 0);
  }

  lemma PlacedIsOnce(w: Written, from: nat, end: nat, landed: Probed)
    requires AllPlaced(w.stored, w.dead, from, end, landed) && (landed.Landed? ==> from <= landed.i < end)
    ensures EachOnce(w, from, end)
    ensures w.stored != [] ==> w.stored[0] !in w.stored[1..]
  {
    if w.stored != [] {
      var first := w.stored[0];
      assert w.stored == [first] + w.stored[1..];
      assert multiset(w.stored)[first] == 1 + multiset(w.stored[1..])[first];
    }
  }

  /** _insert_rows_individually, once probing did not veto it. */
  method InsertRows(from: nat, end: nat, db: Database, round: nat, landed: Probed) returns (w: Written)
    requires from <= end && !landed.Veto? && (landed.Landed? ==> from <= landed.i < end)
    ensures w.done && EachOnce(w, from, end)
    ensures landed.Landed? ==> w.stored != [] && w.stored[0] == landed.i && landed.i !in w.stored[1..]
    ensures forall i :: i in w.dead ==> !db.row(round, i) && landed != Landed(i)
    ensures forall i :: i in w.stored ==> db.row(round, i) || landed == Landed(i)
  {
    hide EachOnce, AllPlaced;
    var stored: seq<nat>, dead: seq<nat> := if landed.Landed? then [landed.i] else [], [];
    assert AllPlaced(stored, dead, from, from, landed) by { ProbePlaced(from, landed); }
    for i := from to end
      invariant AllPlaced(stored, dead, from, i, landed)
      invariant landed.Landed? ==> stored != [] && stored[0] == landed.i
      invariant forall k :: k in dead ==> !db.row(round, k) && landed != Landed(k)
      invariant forall k :: k in stored ==> db.row(round, k) || landed == Landed(k)
    {
      NextPlaced(stored, dead, from, i, landed);
      if landed != Landed(i) {
        if db.row(round, i) { stored := stored + [i]; } else { dead := dead + [i]; }
      }
    }
    w := Written(stored, dead, true);
    PlacedIsOnce(w, from, end, landed);
  }

  /**
   The wrapped insert of one chunk. Each round is one poison verdict of the retry wrapper; a veto
   sends the whole chunk back to retrying, so after `rounds` of them it is simply not done yet.
   */
  method InsertChunk(entities: seq<string>, from: nat, end: nat, db: Database, rounds: nat)
    returns (w: Written, ghost probes: seq<nat>, ghost round: nat)
    requires from <= end <= |entities|
    ensures w.done ==> EachOnce(w, from, end)
    ensures !w.done ==> w.stored == [] && w.dead == [] && round == rounds
    ensures w.done ==> round < rounds
    ensures rounds > 0 && db.chunk(0, from) ==> w.done && w.dead == []
    ensures forall i :: i in w.dead ==> !db.row(round, i)
    // nothing is dropped unless a probe landed, or the chunk is too uniform to tell
    ensures w.dead != [] ==> AreProbes(entities, from, end, probes)
                             && (probes == [] ==> FewEntities(entities, from, end))
                             && (probes != [] ==> w.stored != [] && w.stored[0] in probes
                                                  && db.probe(round, w.stored[0]) == Lands
                                                  && w.stored[0] !in w.stored[1..])
    ensures (forall k: nat :: k < round ==> !db.chunk(k, from)) && (w.dead != [] ==> !db.chunk(round, from))
  {
    probes := [];
    for k := 0 to rounds
      invariant forall j: nat :: j < k ==> !db.chunk(j, from)
    {
      round := k;
      if db.chunk(k, from) {
        w := Written(Range(from, end), [], true);
        RangeIsOnce(from, end);
        return;
      }
      var r;
      r, probes := ProbeRows(entities, from, end, db, k);
      if !r.Veto? {
        w := InsertRows(from, end, db, k, r);
        return;
      }
    }
    round := rounds;
    w := Written([], [], false);
  }

  function Range(from: nat, end: nat): seq<nat>
    requires from <= end
  {
    seq(end - from, k requires 0 <= k < end - from => from + k)
  }

  lemma {:induction false} RangeIsOnce(from: nat, end: nat)
    requires from <= end
    ensures EachOnce(Written(Range(from, end), [], true), from, end)
    decreases end - from
  {
    if from < end {
      RangeIsOnce(from + 1, end);
      assert Range(from, end) == [from] + Range(from + 1, end);
      assert multiset(Range(from, end)) == multiset{from} + multiset(Range(from + 1, end));
    } else {
      assert Range(from, end) == [];
    }
  }

  lemma OnceJoins(a: Written, b: Written, from: nat, mid: nat, end: nat, done: bool)
    requires from <= mid <= end && EachOnce(a, from, mid) && EachOnce(b, mid, end)
    ensures EachOnce(Written(a.stored + b.stored, a.dead + b.dead, done), from, end)
  {
    forall i: nat
      ensures multiset(a.stored + b.stored)[i] + multiset(a.dead + b.dead)[i] == if from <= i < end then 1 else 0
    {
      assert multiset(a.stored + b.stored)[i] == multiset(a.stored)[i] + multiset(b.stored)[i];
      assert multiset(a.dead + b.dead)[i] == multiset(a.dead)[i] + multiset(b.dead)[i];
      assert multiset(a.stored)[i] + multiset(a.dead)[i] == if from <= i < mid then 1 else 0;
      assert multiset(b.stored)[i] + multiset(b.dead)[i] == if mid <= i < end then 1 else 0;
    }
  }

  /** The database refused the row on its own, at some poison verdict of the flush. */
  predicate RefusedAlone(db: Database, rounds: nat, i: nat) { exists round: nat :: round < rounds && !db.row(round, i) }

  /**
   _flush. Chunk by chunk, each retried until it is over: when the flush returns, every row of
   the buffer was stored or dead-lettered, exactly once, and only rows the database refused one
   by one were dead-lettered. A chunk still being vetoed holds up the rest, and loses nothing.
   */
  method FlushRows(entities: seq<string>, db: Database, rounds: nat) returns (w: Written, upTo: nat)
    ensures upTo <= |entities| && EachOnce(w, 0, upTo) && (w.done <==> upTo == |entities|)
    ensures upTo % Ingestion.INSERT_CHUNK_SIZE == 0 || upTo == |entities|
    ensures forall i :: i in w.dead ==> RefusedAlone(db, rounds, i)
    ensures (forall k: nat, from: nat :: k < rounds ==> db.chunk(k, from)) && rounds > 0 ==> w.done && w.dead == []
  {
    hide EachOnce, RefusedAlone;
    var stored: seq<nat>, dead: seq<nat> := [], [];
    upTo := 0;
    assert EachOnce(Written([], [], true), 0, 0) by { RangeIsOnce(0, 0); assert Range(0, 0) == []; }
    while upTo < |entities|
      invariant upTo <= |entities| && EachOnce(Written(stored, dead, true), 0, upTo)
      invariant upTo % Ingestion.INSERT_CHUNK_SIZE == 0 || upTo == |entities|
      invariant forall i :: i in dead ==> RefusedAlone(db, rounds, i)
      invariant (forall k: nat, from: nat :: k < rounds ==> db.chunk(k, from)) && rounds > 0 ==> dead == []
    {
      var end := if upTo + Ingestion.INSERT_CHUNK_SIZE <= |entities| then upTo + Ingestion.INSERT_CHUNK_SIZE
                 else |entities|;
      ghost var probes, round;
      var part;
      part, probes, round := InsertChunk(entities, upTo, end, db, rounds);
      if !part.done {
        OnceJoins(Written(stored, dead, true), Written([], [], true), 0, upTo, upTo, false) by {
          RangeIsOnce(upTo, upTo);
          assert Range(upTo, upTo) == [];
        }
        assert stored + [] == stored && dead + [] == dead;
        return Written(stored, dead, false), upTo;
      }
      OnceJoins(Written(stored, dead, true), part, 0, upTo, end, true);
      forall i | i in part.dead ensures RefusedAlone(db, rounds, i) { RefusedAt(db, rounds, round, i); }
      stored, dead := stored + part.stored, dead + part.dead;
      upTo := end;
    }
    w := Written(stored, dead, true);
  }

  lemma RefusedAt(db: Database, rounds: nat, round: nat, i: nat)
    requires round < rounds && !db.row(round, i)
    ensures RefusedAlone(db, rounds, i)
  {}
}
