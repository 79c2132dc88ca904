/**
 Merging identical versions separated by a gap that `states` contradicts: one link of
 every chain per pass, at most twenty passes.
 */
module GapMerge {
  import opened Options
  import opened Versions
  import opened Repair

  /** last_updated of the rows of `states`, by entity. */
  type StateTimes = map<Key, set<int>>

  predicate StateWithin(states: StateTimes, key: Key, a: int, b: int) {
    key in states && exists x :: x in states[key] && a <= x < b
  }

  /** payload and extra - 'modified_at' are not distinct. */
  predicate SameMetadata(a: Payload, b: Payload) { a == b.(modifiedAt := a.modifiedAt) }

  /** Row i and its successor are one version cut in half. */
  predicate Mergeable(t: Table, states: StateTimes, i: nat)
    requires i in t
  {
    var n := Next(t, i);
    && n.Some? && t[i].to.Some? && t[i].to.value < t[n.value].from
    && SameMetadata(t[i].payload, t[n.value].payload)
    && StateWithin(states, t[i].key, t[i].to.value, t[n.value].from)
  }

  /** Mergeable, and not itself the right-hand side of another mergeable pair. */
  predicate Heads(t: Table, states: StateTimes, i: nat)
    requires i in t
  {
    Mergeable(t, states, i) && forall m :: m in t && Next(t, m) == Some(i) ==> !Mergeable(t, states, m)
  }

  function Plan(t: Table, states: StateTimes): set<nat> { set i | i in t && Heads(t, states, i) }

  /** The rows a pass archives and deletes. */
  function Doomed(t: Table, states: StateTimes): set<nat> {
    set i | i in Plan(t, states) :: Next(t, i).value
  }

  /** DELETE the right-hand rows, then extend the left-hand ones to their ends. */
  function MergePass(t: Table, states: StateTimes): Table {
    map i | i in t && i !in Doomed(t, states) ::
      if Heads(t, states, i) then t[i].(to := t[Next(t, i).value].to) else t[i]
  }

  // ---- The window after a pass --------------------------------------------------------

  lemma NextIsInjective(t: Table, i: nat, j: nat)
    requires i in t && j in t && Next(t, i).Some? && Next(t, i) == Next(t, j)
    ensures i == j
  {
    BeforeIsTotal(t, i, j);
  }

  lemma DoomedIsNext(t: Table, states: StateTimes, i: nat)
    requires i in t && Heads(t, states, i)
    ensures Next(t, i).Some? && Next(t, i).value in Doomed(t, states)
    ensures i !in Doomed(t, states)
  {
    assert i in Plan(t, states);
    forall m | m in Plan(t, states) ensures Next(t, m).value != i {
    }
  }

  lemma PassKeepsOrder(t: Table, states: StateTimes, i: nat, j: nat)
    requires Clean(t) && i in MergePass(t, states) && j in MergePass(t, states)
    ensures Before(MergePass(t, states), i, j) <==> Before(t, i, j)
  {
    var t' := MergePass(t, states);
    if i != j && t[i].key == t[j].key {
      BeforeIsTotal(t, i, j);
      if Before(t, i, j) {
        HeadPrecedesStrictly(t, states, i, j);
      } else {
        HeadPrecedesStrictly(t, states, j, i);
      }
      BeforeIsTotal(t', i, j);
    }
  }

  lemma HeadPrecedesStrictly(t: Table, states: StateTimes, i: nat, j: nat)
    requires Clean(t) && i in MergePass(t, states) && j in MergePass(t, states) && Before(t, i, j)
    ensures Before(MergePass(t, states), i, j)
  {
    CleanAbuts(t, i, j);
    if Heads(t, states, i) {
      var n := Next(t, i).value;
      assert t[n].from <= t[j].from by {
        if n != j { assert Before(t, n, j); }
      }
    }
    if Heads(t, states, j) {
      EndsLater(t, states, j);
    }
  }

  lemma EndsLater(t: Table, states: StateTimes, j: nat)
    requires Clean(t) && j in t && Heads(t, states, j)
    ensures var e := t[Next(t, j).value].to; e.Some? ==> e.value > t[j].to.value >= t[j].from
  {
    assert !Inverted(t[Next(t, j).value]) && !Inverted(t[j]);
  }

  /** A head's successor becomes its successor's; every other row keeps its own. */
  lemma PassNext(t: Table, states: StateTimes, i: nat)
    requires Clean(t) && i in MergePass(t, states)
    ensures Next(MergePass(t, states), i) ==
            if Heads(t, states, i) then Next(t, Next(t, i).value) else Next(t, i)
  {
    var t' := MergePass(t, states);
    var want := if Heads(t, states, i) then Next(t, Next(t, i).value) else Next(t, i);
    if want.Some? {
      SuccessorSurvives(t, states, if Heads(t, states, i) then Next(t, i).value else i, i);
    }
    forall j | j in t' ensures Before(t', i, j) <==> Before(t, i, j) { PassKeepsOrder(t, states, i, j); }
    if want.Some? {
      var w := want.value;
      assert Before(t, i, w) by {
        if Heads(t, states, i) { BeforeIsTransitive(t, i, Next(t, i).value, w); }
      }
      forall j | Before(t', i, j) && j != w ensures Before(t', w, j) {
        assert Before(t, i, j);
        PassKeepsOrder(t, states, w, j);
      }
      IsNext(t', i, w);
    } else {
      if Heads(t, states, i) {
        DoomedIsNext(t, states, i);
      }
      assert forall j :: Before(t, i, j) ==> Heads(t, states, i) && j == Next(t, i).value;
      assert forall j :: !Before(t', i, j);
    }
  }

  lemma IsNext(t: Table, i: nat, w: nat)
    requires Before(t, i, w) && forall j :: Before(t, i, j) && j != w ==> Before(t, w, j)
    ensures Next(t, i) == Some(w)
  {
    var n := Next(t, i).value;
    if n != w {
      BeforeIsTotal(t, n, w);
    }
  }

  /** The successor of a row that is not a head, or that a head swallows, is not deleted. */
  lemma SuccessorSurvives(t: Table, states: StateTimes, k: nat, i: nat)
    requires i in t && k in t && Next(t, k).Some?
    requires (k == i && !Heads(t, states, i)) || (Heads(t, states, i) && Next(t, i) == Some(k))
    ensures Next(t, k).value !in Doomed(t, states)
  {
    var s := Next(t, k).value;
    forall m | m in Plan(t, states) ensures Next(t, m).value != s {
      if Next(t, m) == Some(s) {
        NextIsInjective(t, m, k);
      }
    }
  }

  lemma PassKeepsClean(t: Table, states: StateTimes)
    requires Clean(t)
    ensures Clean(MergePass(t, states))
  {
    hide Heads, Doomed, Mergeable, Next;
    var t' := MergePass(t, states);
    forall i | i in t' ensures !Overruns(t', i) && !Inverted(t'[i]) {
      RowStaysClean(t, states, i);
    }
  }

  lemma RowStaysClean(t: Table, states: StateTimes, i: nat)
    requires Clean(t) && i in MergePass(t, states)
    ensures var t' := MergePass(t, states); !Overruns(t', i) && !Inverted(t'[i])
  {
    hide Next, StateWithin, SameMetadata;
    PassNext(t, states, i);
    assert !Overruns(t, i) && !Inverted(t[i]);
    if Heads(t, states, i) {
      EndsLater(t, states, i);
      assert !Overruns(t, Next(t, i).value);
    }
  }

  // ---- Chains -----------------------------------------------------------------------------

  lemma AfterShrinks(t: Table, i: nat)
    requires i in t && Next(t, i).Some?
    ensures |After(t, Next(t, i).value)| < |After(t, i)|
  {
    var n := Next(t, i).value;
    assert After(t, n) <= After(t, i) - {n} by {
      forall j | j in After(t, n) ensures j in After(t, i) {
        BeforeIsTransitive(t, i, n, j);
      }
    }
    SmallerSet(After(t, n), After(t, i) - {n});
  }

  /** The number of consecutive mergeable links starting at row i. */
  function ChainLength(t: Table, states: StateTimes, i: nat): nat
    requires i in t
    decreases |After(t, i)|
  {
    if !Mergeable(t, states, i) then 0 else
      AfterShrinks(t, i);
      1 + ChainLength(t, states, Next(t, i).value)
  }

  ghost predicate IsLongest(t: Table, states: StateTimes, n: nat) {
    && (forall i :: i in t ==> ChainLength(t, states, i) <= n)
    && (n > 0 ==> exists i :: i in t && ChainLength(t, states, i) == n)
  }

  lemma LongestExists(t: Table, states: StateTimes)
    ensures exists n :: IsLongest(t, states, n)
  {
    var n: nat;
    if t.Keys == {} {
      n := 0;
    } else {
      var lengths: set<nat> := set i | i in t :: ChainLength(t, states, i);
      assert ChainLength(t, states, AnyOf(t.Keys)) in lengths;
      var more := (a: nat, b: nat) => a > b;
      n := Minimum(lengths, more);
      forall i | i in t ensures ChainLength(t, states, i) <= n {
        var c := ChainLength(t, states, i);
        assert c in lengths;
        if c != n { assert more(n, c); }
      }
    }
    assert IsLongest(t, states, n);
  }

  ghost function LongestChain(t: Table, states: StateTimes): (n: nat)
    ensures IsLongest(t, states, n)
  {
    LongestExists(t, states);
    var n :| IsLongest(t, states, n);
    n
  }

  lemma PassKeys(t: Table, states: StateTimes)
    ensures MergePass(t, states).Keys == t.Keys - Doomed(t, states)
  {
  }

  lemma PassMergeable(t: Table, states: StateTimes, i: nat)
    requires Clean(t) && i in MergePass(t, states)
    ensures Mergeable(MergePass(t, states), states, i) <==>
            if Heads(t, states, i) then Mergeable(t, states, Next(t, i).value) else Mergeable(t, states, i)
  {
    PassNext(t, states, i);
  }

  lemma ChainStep(t: Table, states: StateTimes, i: nat)
    requires i in t
    ensures Heads(t, states, i) ==> Mergeable(t, states, i)
    ensures Mergeable(t, states, i) ==>
              Next(t, i).Some? && Next(t, i).value in t
              && ChainLength(t, states, i) == 1 + ChainLength(t, states, Next(t, i).value)
    ensures !Mergeable(t, states, i) ==> ChainLength(t, states, i) == 0
  {
  }

  lemma SuccessorIsNoHead(t: Table, states: StateTimes, i: nat)
    requires Clean(t) && i in MergePass(t, states) && Mergeable(MergePass(t, states), states, i)
    ensures var w := Next(MergePass(t, states), i);
            w.Some? && w.value in MergePass(t, states) && !Heads(t, states, w.value)
  {
    PassMergeable(t, states, i);
    PassNext(t, states, i);
  }

  /** A pass takes one link off every head's chain and none off any other row's. */
  lemma {:induction false} PassChain(t: Table, states: StateTimes, i: nat)
    requires Clean(t) && i in MergePass(t, states)
    ensures ChainLength(MergePass(t, states), states, i) ==
            if Heads(t, states, i) then ChainLength(t, states, i) - 1 else ChainLength(t, states, i)
    decreases |After(MergePass(t, states), i)|
  {
    hide MergePass, Mergeable, Heads, Clean, After, Next;
    var t' := MergePass(t, states);
    PassKeys(t, states);
    PassMergeable(t, states, i);
    ChainStep(t, states, i);
    ChainStep(t', states, i);
    if Mergeable(t', states, i) {
      var w := Next(t', i).value;
      PassNext(t, states, i);
      AfterShrinks(t', i);
      SuccessorIsNoHead(t, states, i);
      PassChain(t, states, w);
      if Heads(t, states, i) {
        ChainStep(t, states, Next(t, i).value);
      }
    } else if Heads(t, states, i) {
      ChainStep(t, states, Next(t, i).value);
    }
  }

  /** The longest chain loses exactly one link; there is work while it has any. */
  lemma PassShortens(t: Table, states: StateTimes, n: nat)
    requires Clean(t) && IsLongest(t, states, n)
    ensures Plan(t, states) == {} <==> n == 0
    ensures n > 0 ==> IsLongest(MergePass(t, states), states, n - 1)
  {
    var t' := MergePass(t, states);
    if n > 0 {
      var i :| i in t && ChainLength(t, states, i) == n;
      forall m | m in t && Next(t, m) == Some(i) ensures !Mergeable(t, states, m) {
        assert ChainLength(t, states, m) <= n;
      }
      assert i in Plan(t, states);
      DoomedIsNext(t, states, i);
      PassChain(t, states, i);
      forall k | k in t' ensures ChainLength(t', states, k) <= n - 1 {
        PassChain(t, states, k);
        assert ChainLength(t, states, k) <= n;
        if Mergeable(t, states, k) && !Heads(t, states, k) {
          var m :| m in t && Next(t, m) == Some(k) && Mergeable(t, states, m);
          assert ChainLength(t, states, m) <= n;
        }
      }
    } else {
      forall i | i in t ensures !Mergeable(t, states, i) {
        assert ChainLength(t, states, i) <= 0;
      }
    }
  }

  // ---- What a pass fills and removes ------------------------------------------------------------

  /** A surviving head covers its own era, the gap and its successor's era; nothing else changes. */
  lemma PassCoverage(t: Table, states: StateTimes, i: nat, x: int)
    requires Clean(t) && i in MergePass(t, states)
    ensures Covers(MergePass(t, states)[i], x) <==>
            Covers(t[i], x)
            || (Heads(t, states, i) &&
                (t[i].to.value <= x < t[Next(t, i).value].from || Covers(t[Next(t, i).value], x)))
  {
    assert !Inverted(t[i]);
    if Heads(t, states, i) {
      EndsLater(t, states, i);
      assert !Inverted(t[Next(t, i).value]);
    }
  }

  /** Row i of the merged table takes over the era of row j: same id, same metadata, all its instants. */
  ghost predicate TakesOver(t: Table, merged: Table, i: nat, j: nat) {
    && i in t && j in t && i in merged && merged[i].key == t[j].key
    && SameMetadata(merged[i].payload, t[j].payload)
    && forall x :: Covers(t[j], x) ==> Covers(merged[i], x)
  }

  /** Every deleted row's era is taken over by the head it is merged into. */
  lemma DeletedIsCovered(t: Table, states: StateTimes, j: nat)
    requires j in t && j !in MergePass(t, states)
    ensures exists i :: TakesOver(t, MergePass(t, states), i, j) && Heads(t, states, i) && Next(t, i) == Some(j)
  {
    hide Heads, TakesOver, Next;
    DoomedHasHead(t, states, j);
    var i :| i in Plan(t, states) && Next(t, i) == Some(j);
    HeadTakesOver(t, states, i);
  }

  lemma DoomedHasHead(t: Table, states: StateTimes, j: nat)
    requires j in Doomed(t, states)
    ensures exists i :: i in t && i in Plan(t, states) && Next(t, i) == Some(j)
  {
    hide Next;
    var i :| i in Plan(t, states) && Next(t, i).value == j;
    assert Next(t, i) == Some(j);
  }

  lemma HeadTakesOver(t: Table, states: StateTimes, i: nat)
    requires i in Plan(t, states)
    ensures Next(t, i).Some? && TakesOver(t, MergePass(t, states), i, Next(t, i).value)
  {
    hide Mergeable, Next;
    HeadIsLikeNext(t, states, i);
    DoomedIsNext(t, states, i);
  }

  lemma HeadIsLikeNext(t: Table, states: StateTimes, i: nat)
    requires i in t && Heads(t, states, i)
    ensures var n := Next(t, i);
            n.Some? && t[n.value].key == t[i].key && t[i].from <= t[n.value].from
            && SameMetadata(t[i].payload, t[n.value].payload)
  {}

  lemma {:induction false} DoomedCount(t: Table, states: StateTimes, plan: set<nat>)
    requires forall i :: i in plan ==> i in t && Next(t, i).Some?
    ensures |set i | i in plan :: Next(t, i).value| == |plan|
    decreases |plan|
  {
    var image := set i | i in plan :: Next(t, i).value;
    if plan != {} {
      var i: nat := AnyOf(plan);
      var rest := plan - {i};
      var rests := set k | k in rest :: Next(t, k).value;
      DoomedCount(t, states, rest);
      forall k | k in rest ensures Next(t, k).value != Next(t, i).value {
        if Next(t, k) == Next(t, i) { NextIsInjective(t, k, i); }
      }
      assert image == rests + {Next(t, i).value};
    }
  }

  lemma DoomedSize(t: Table, states: StateTimes)
    ensures Doomed(t, states) <= t.Keys && |Doomed(t, states)| == |Plan(t, states)|
  {
    hide Mergeable;
    forall i | i in Plan(t, states) ensures Next(t, i).Some? { ChainStep(t, states, i); }
    DoomedCount(t, states, Plan(t, states));
  }

  lemma PassCount(t: Table, states: StateTimes)
    ensures |MergePass(t, states)| == |t| - |Plan(t, states)|
  {
    hide MergePass, Doomed, Plan;
    DoomedSize(t, states);
    PassKeys(t, states);
    var t', kept := MergePass(t, states), t.Keys - Doomed(t, states);
    assert |kept| == |t.Keys| - |Doomed(t, states)|;
    assert |t'.Keys| == |t'|;
  }

  // ---- What the passes lead to ------------------------------------------------------------------

  /** Row j is the second of a mergeable pair. */
  predicate RightHand(t: Table, states: StateTimes, j: nat) {
    exists m :: m in t && Next(t, m) == Some(j) && Mergeable(t, states, m)
  }

  /** The end of the last version of row i's chain. */
  function EndOf(t: Table, states: StateTimes, i: nat): Option<int>
    requires i in t
    decreases |After(t, i)|
  {
    if !Mergeable(t, states, i) then t[i].to else
      AfterShrinks(t, i);
      EndOf(t, states, Next(t, i).value)
  }

  /** One version for each chain, from its first version's start to its last version's end. */
  function Merged(t: Table, states: StateTimes): Table {
    map i | i in t && !RightHand(t, states, i) :: t[i].(to := EndOf(t, states, i))
  }

  lemma EndStep(t: Table, states: StateTimes, i: nat)
    requires i in t
    ensures Mergeable(t, states, i) ==>
              Next(t, i).Some? && Next(t, i).value in t
              && EndOf(t, states, i) == EndOf(t, states, Next(t, i).value)
    ensures !Mergeable(t, states, i) ==> EndOf(t, states, i) == t[i].to
  {
  }

  lemma PassRow(t: Table, states: StateTimes, i: nat)
    requires i in MergePass(t, states)
    ensures i in t && Heads(t, states, i) ==> Next(t, i).Some? && Next(t, i).value in t && Mergeable(t, states, i)
    ensures MergePass(t, states)[i] == if Heads(t, states, i) then t[i].(to := t[Next(t, i).value].to) else t[i]
  {
    hide Mergeable, Next;
    ChainStep(t, states, i);
  }

  lemma {:induction false} PassEnd(t: Table, states: StateTimes, i: nat)
    requires Clean(t) && i in MergePass(t, states)
    ensures EndOf(MergePass(t, states), states, i) == EndOf(t, states, i)
    decreases |After(MergePass(t, states), i)|
  {
    hide MergePass, Mergeable, Heads, Clean, After, Next, EndOf;
    var t' := MergePass(t, states);
    PassKeys(t, states);
    PassMergeable(t, states, i);
    PassRow(t, states, i);
    EndStep(t, states, i);
    EndStep(t', states, i);
    if Heads(t, states, i) { EndStep(t, states, Next(t, i).value); }
    if Mergeable(t', states, i) {
      PassNext(t, states, i);
      AfterShrinks(t', i);
      PassEnd(t, states, Next(t', i).value);
    }
  }

  /** A pair left over from before the pass: its left-hand row, or the head that row was merged into. */
  lemma LeftHandAfter(t: Table, states: StateTimes, m: nat) returns (h: nat)
    requires Clean(t) && m in t && Mergeable(t, states, m) && !Heads(t, states, m)
    ensures var t' := MergePass(t, states);
            && h in t' && Mergeable(t', states, h) && Next(t', h) == Next(t, m)
            && t'[h].to == t[m].to && t'[h].key == t[m].key
  {
    hide MergePass, Mergeable, Heads, Clean, Doomed, Plan, Next;
    PassKeys(t, states);
    h := m;
    if m in Doomed(t, states) {
      DoomedHasHead(t, states, m);
      h :| h in t && h in Plan(t, states) && Next(t, h) == Some(m);
      assert h in t && Heads(t, states, h) && t[h].key == t[m].key by { PlannedRow(t, states, h); }
      DoomedIsNext(t, states, h);
    }
    PassRow(t, states, h);
    PassMergeable(t, states, h);
    PassNext(t, states, h);
  }

  lemma PlannedRow(t: Table, states: StateTimes, h: nat)
    requires h in Plan(t, states)
    ensures h in t && Heads(t, states, h) && Next(t, h).Some? && t[Next(t, h).value].key == t[h].key
  {}

  /** And one after the pass comes from one before it, with the same gap. */
  lemma LeftHandBefore(t: Table, states: StateTimes, h: nat) returns (m: nat)
    requires Clean(t) && h in MergePass(t, states) && Mergeable(MergePass(t, states), states, h)
    ensures var t' := MergePass(t, states);
            && m in t && Mergeable(t, states, m) && Next(t', h) == Next(t, m)
            && t'[h].to == t[m].to && t'[h].key == t[m].key
  {
    hide MergePass, Mergeable, Heads, Clean, Doomed, Plan, Next;
    PassKeys(t, states);
    PassRow(t, states, h);
    PassMergeable(t, states, h);
    PassNext(t, states, h);
    m := h;
    if Heads(t, states, h) {
      m := Next(t, h).value;
      assert t[m].key == t[h].key;
    }
  }

  lemma PassRightHand(t: Table, states: StateTimes, j: nat)
    requires Clean(t) && j in MergePass(t, states)
    ensures RightHand(MergePass(t, states), states, j) <==> RightHand(t, states, j)
  {
    hide MergePass, Mergeable, Heads, Clean, Doomed, Next;
    var t' := MergePass(t, states);
    if RightHand(t, states, j) {
      var m :| m in t && Next(t, m) == Some(j) && Mergeable(t, states, m);
      if Heads(t, states, m) {
        PassKeys(t, states);
        DoomedIsNext(t, states, m);
      } else {
        var h := LeftHandAfter(t, states, m);
      }
    }
    if RightHand(t', states, j) {
      var h :| h in t' && Next(t', h) == Some(j) && Mergeable(t', states, h);
      var m := LeftHandBefore(t, states, h);
    }
  }

  lemma HeadIsFirst(t: Table, states: StateTimes, i: nat)
    requires i in t
    ensures Heads(t, states, i) <==> Mergeable(t, states, i) && !RightHand(t, states, i)
  {}

  lemma DoomedIsRightHand(t: Table, states: StateTimes, j: nat)
    requires j in Doomed(t, states)
    ensures j in t && RightHand(t, states, j)
  {
    hide Next;
    DoomedHasHead(t, states, j);
    var i :| i in Plan(t, states) && Next(t, i) == Some(j);
    PlannedRow(t, states, i);
    DoomedSize(t, states);
  }

  /** A pass brings the table nearer to its merged form and does not change that form. */
  lemma PassKeepsMerged(t: Table, states: StateTimes)
    requires Clean(t)
    ensures Merged(MergePass(t, states), states) == Merged(t, states)
  {
    hide MergePass, Mergeable, Heads, Clean, Doomed, Next, EndOf, RightHand;
    var t' := MergePass(t, states);
    PassKeys(t, states);
    forall i | i in t' ensures RightHand(t', states, i) <==> RightHand(t, states, i) { PassRightHand(t, states, i); }
    forall i | i in Doomed(t, states) ensures RightHand(t, states, i) { DoomedIsRightHand(t, states, i); }
    forall i | i in t'
      ensures t'[i].(to := EndOf(t', states, i)) == t[i].(to := EndOf(t, states, i))
    {
      PassEnd(t, states, i);
      PassRow(t, states, i);
    }
  }

  lemma NothingToMerge(t: Table, states: StateTimes)
    requires forall i :: i in t ==> !Mergeable(t, states, i)
    ensures Merged(t, states) == t
  {
    hide Mergeable, Next;
    forall i | i in t ensures EndOf(t, states, i) == t[i].to { EndStep(t, states, i); }
  }

  // ---- What the merged form covers ------------------------------------------------------------------

  /** Some version of the id is valid at x. */
  ghost predicate Recorded(t: Table, key: Key, x: int) { exists i :: i in t && t[i].key == key && Covers(t[i], x) }

  /** x lies in the gap after row i, and merging fills that gap. */
  predicate GapAt(t: Table, states: StateTimes, i: nat, x: int)
    requires i in t
  {
    Mergeable(t, states, i) && t[i].to.value <= x < t[Next(t, i).value].from
  }

  /** x lies in a gap of the id that merging fills. */
  ghost predicate InMergeableGap(t: Table, states: StateTimes, key: Key, x: int) {
    exists i :: i in t && t[i].key == key && GapAt(t, states, i, x)
  }

  lemma PassKeepsFrom(t: Table, states: StateTimes, w: nat)
    requires w in MergePass(t, states)
    ensures w in t && MergePass(t, states)[w].from == t[w].from && MergePass(t, states)[w].key == t[w].key
  {}

  lemma NextSurvives(t: Table, states: StateTimes, h: nat)
    requires h in MergePass(t, states) && Mergeable(MergePass(t, states), states, h)
    ensures Next(MergePass(t, states), h).Some? && Next(MergePass(t, states), h).value in MergePass(t, states)
  {}

  lemma SameGap(t: Table, states: StateTimes, h: nat, m: nat, x: int)
    requires var t' := MergePass(t, states);
             && h in t' && m in t && Mergeable(t', states, h) && Mergeable(t, states, m)
             && Next(t', h) == Next(t, m) && t'[h].to == t[m].to
    ensures GapAt(MergePass(t, states), states, h, x) <==> GapAt(t, states, m, x)
  {
    hide StateWithin, SameMetadata;
    NextSurvives(t, states, h);
    PassKeepsFrom(t, states, Next(t, m).value);
  }

  lemma HeadFillsGap(t: Table, states: StateTimes, m: nat, x: int)
    requires Clean(t) && m in t && Heads(t, states, m) && GapAt(t, states, m, x)
    ensures m in MergePass(t, states) && Covers(MergePass(t, states)[m], x)
  {
    hide StateWithin, SameMetadata;
    DoomedIsNext(t, states, m);
    PassCoverage(t, states, m, x);
  }

  lemma PassGaps(t: Table, states: StateTimes, key: Key, x: int)
    requires Clean(t)
    ensures InMergeableGap(MergePass(t, states), states, key, x) ==> InMergeableGap(t, states, key, x)
    ensures InMergeableGap(t, states, key, x) ==>
              InMergeableGap(MergePass(t, states), states, key, x) || Recorded(MergePass(t, states), key, x)
  {
    hide MergePass, Mergeable, Heads, Clean, Doomed, Next, Covers, GapAt;
    var t' := MergePass(t, states);
    if InMergeableGap(t', states, key, x) {
      var h :| h in t' && t'[h].key == key && GapAt(t', states, h, x);
      assert Mergeable(t', states, h) by { GapIsMergeable(t', states, h, x); }
      var m := LeftHandBefore(t, states, h);
      SameGap(t, states, h, m, x);
    }
    if InMergeableGap(t, states, key, x) {
      var m :| m in t && t[m].key == key && GapAt(t, states, m, x);
      assert Mergeable(t, states, m) by { GapIsMergeable(t, states, m, x); }
      if Heads(t, states, m) {
        HeadFillsGap(t, states, m, x);
        PassKeepsFrom(t, states, m);
      } else {
        var h := LeftHandAfter(t, states, m);
        SameGap(t, states, h, m, x);
      }
    }
  }

  lemma GapIsMergeable(t: Table, states: StateTimes, i: nat, x: int)
    requires i in t && GapAt(t, states, i, x)
    ensures Mergeable(t, states, i)
  {}

  lemma PassRecords(t: Table, states: StateTimes, key: Key, x: int)
    requires Clean(t)
    ensures Recorded(t, key, x) ==> Recorded(MergePass(t, states), key, x)
    ensures Recorded(MergePass(t, states), key, x) ==> Recorded(t, key, x) || InMergeableGap(t, states, key, x)
  {
    hide MergePass, Mergeable, Heads, Clean, Doomed, Next, Covers;
    var t' := MergePass(t, states);
    if Recorded(t, key, x) {
      var i :| i in t && t[i].key == key && Covers(t[i], x);
      if i in t' {
        PassCoverage(t, states, i, x);
        PassKeepsFrom(t, states, i);
      } else {
        DeletedIsCovered(t, states, i);
        var h :| TakesOver(t, t', h, i) && Heads(t, states, h) && Next(t, h) == Some(i);
      }
    }
    if Recorded(t', key, x) {
      var i :| i in t' && t'[i].key == key && Covers(t'[i], x);
      PassCoverage(t, states, i, x);
      PassKeepsFrom(t, states, i);
      PassRow(t, states, i);
      if Heads(t, states, i) && Covers(t[Next(t, i).value], x) {
        assert t[Next(t, i).value].key == key by { HeadIsLikeNext(t, states, i); }
      }
    }
  }

  /** The merged form is valid where the table was and in its mergeable gaps, and nowhere else. */
  lemma {:induction false} MergedCoverage(t: Table, states: StateTimes, key: Key, x: int)
    requires Clean(t)
    ensures Recorded(Merged(t, states), key, x) <==> Recorded(t, key, x) || InMergeableGap(t, states, key, x)
    decreases |t|
  {
    hide MergePass, Plan, Clean, Recorded, IsLongest, Merged;
    var n := LongestChain(t, states);
    PassShortens(t, states, n);
    if Plan(t, states) == {} {
      NothingMergeable(t, states);
      NothingToMerge(t, states);
      assert !InMergeableGap(t, states, key, x);
    } else {
      hide InMergeableGap;
      PassCount(t, states);
      PassKeepsClean(t, states);
      PassKeepsMerged(t, states);
      PassGaps(t, states, key, x);
      PassRecords(t, states, key, x);
      MergedCoverage(MergePass(t, states), states, key, x);
    }
  }

  lemma NothingMergeable(t: Table, states: StateTimes)
    requires IsLongest(t, states, 0)
    ensures forall i :: i in t ==> !Mergeable(t, states, i)
  {
    forall i | i in t ensures !Mergeable(t, states, i) {
      assert ChainLength(t, states, i) <= 0;
    }
  }

  // ---- The pass loop -------------------------------------------------------------------------------

  const MAX_PASSES := 20

  /** Every row that is still to be deleted is as it was at first. */
  ghost predicate UntouchedRight(t: Table, now: Table, states: StateTimes) {
    forall j :: j in now && RightHand(now, states, j) ==> j in t && now[j] == t[j]
  }

  lemma PassKeepsRight(t: Table, now: Table, states: StateTimes)
    requires Clean(now) && UntouchedRight(t, now, states)
    ensures UntouchedRight(t, MergePass(now, states), states)
  {
    hide Clean, RightHand, Heads, Mergeable, Next;
    forall j | j in MergePass(now, states) && RightHand(MergePass(now, states), states, j)
      ensures j in t && MergePass(now, states)[j] == t[j]
    {
      PassRightHand(now, states, j);
      HeadIsFirst(now, states, j);
    }
  }

  /** What one pass archives, by row id. */
  function Archive(t: Table, states: StateTimes): Table { map j | j in t && j in Doomed(t, states) :: t[j] }

  /** The rows of t that are no longer there. */
  function Gone(t: Table, now: Table): Table { map j | j in t && j !in now :: t[j] }

  lemma PassArchives(t: Table, now: Table, states: StateTimes)
    requires UntouchedRight(t, now, states) && now.Keys <= t.Keys
    ensures Gone(t, now) + Archive(now, states) == Gone(t, MergePass(now, states))
    ensures MergePass(now, states).Keys <= t.Keys
  {
    hide MergePass, RightHand, Doomed;
    PassKeys(now, states);
    forall j | j in Doomed(now, states) ensures j in now && RightHand(now, states, j) {
      DoomedIsRightHand(now, states, j);
    }
  }

  /**
   merge_identical_gaps. The transaction commits if and only if the longest chain has at most nineteen
   links; otherwise it raises and both table and archive are as they were. When it commits, each chain
   is one version, and the archive has exactly the deleted rows, each as it was at first.
   */
  method MergeIdenticalGaps(t: Table, states: StateTimes)
    returns (result: Table, archive: Table, merged: nat, raised: bool)
    requires Clean(t)
    ensures raised <==> LongestChain(t, states) >= MAX_PASSES
    ensures raised ==> result == t && archive == map[]
    ensures !raised ==>
              && result == Merged(t, states) && archive == Gone(t, result) && merged == |t| - |result|
              && Clean(result) && (forall i :: i in result ==> !Mergeable(result, states, i))
              && (forall key, x :: Recorded(result, key, x) <==>
                    Recorded(t, key, x) || InMergeableGap(t, states, key, x))
  {
    hide MergePass, IsLongest, Plan, Clean, Mergeable, Heads, Doomed, LongestChain, Merged, Archive, Gone, Recorded;
    hide InMergeableGap, UntouchedRight;
    result, archive, merged, raised := t, map[], 0, true;
    ghost var longest := LongestChain(t, states);
    assert Gone(t, t) == map[] && UntouchedRight(t, t, states) by { NothingGone(t, states); }
    for pass := 0 to MAX_PASSES
      invariant raised && Clean(result) && pass <= longest
      invariant Merged(result, states) == Merged(t, states)
      invariant IsLongest(result, states, longest - pass)
      invariant merged == |t| - |result| && result.Keys <= t.Keys
      invariant UntouchedRight(t, result, states) && archive == Gone(t, result)
    {
      PassShortens(result, states, longest - pass);
      PassCount(result, states);
      var pending := |Plan(result, states)|;
      if pending == 0 {
        raised := false;
        NothingMergeable(result, states);
        NothingToMerge(result, states);
        break;
      }
      PassKeepsClean(result, states);
      PassKeepsMerged(result, states);
      PassArchives(t, result, states);
      PassKeepsRight(t, result, states);
      archive := archive + Archive(result, states);
      merged := merged + pending;
      result := MergePass(result, states);
    }
    if raised {
      result, archive := t, map[];
    } else {
      forall key, x ensures Recorded(result, key, x) <==> Recorded(t, key, x) || InMergeableGap(t, states, key, x) {
        MergedCoverage(t, states, key, x);
      }
    }
  }

  lemma NothingGone(t: Table, states: StateTimes)
    ensures Gone(t, t) == map[] && UntouchedRight(t, t, states)
  {}
}
