/**
 A merge pass moves the rows it extends to new ctids, so the next pass may see another window order. It
 does not: an extended row is never empty, and only empty versions tie.
 */
module MergeRenumbering {
  import opened Options
  import opened Versions
  import opened Repair
  import opened GapMerge
  import opened Renumbering

  /** A renumbering that keeps the window order. */
  ghost predicate KeepsOrder(t: Table, u: Table, f: map<nat, nat>) {
    && Renumbers(t, u, f)
    && forall i, j :: i in t && j in t ==> (Before(u, f[i], f[j]) <==> Before(t, i, j))
  }

  /** On a clean table, rows that are not empty can move anywhere. */
  lemma FullRowsMoveFreely(t: Table, u: Table, f: map<nat, nat>)
    requires Clean(t) && Renumbers(t, u, f)
    requires forall i :: i in t && Empty(t[i]) ==> f[i] == i
    ensures KeepsOrder(t, u, f)
  {
    hide SequenceClean;
    forall i, j | i in t && j in t ensures Before(u, f[i], f[j]) <==> Before(t, i, j) {
      if i != j && t[i].key == t[j].key && t[i].from == t[j].from && t[i].to == t[j].to {
        BeforeIsTotal(t, i, j);
        if Before(t, i, j) { CleanAbuts(t, i, j); } else { CleanAbuts(t, j, i); }
      }
    }
  }

  lemma OrderOf(t: Table, u: Table, f: map<nat, nat>, i: nat, j: nat)
    requires KeepsOrder(t, u, f) && i in t && j in t
    ensures Before(u, f[i], f[j]) <==> Before(t, i, j)
  {}

  lemma NextFollows(t: Table, u: Table, f: map<nat, nat>, i: nat)
    requires KeepsOrder(t, u, f) && i in t
    ensures f.Keys == t.Keys && f[i] in u && u[f[i]] == t[i]
    ensures Next(t, i).Some? ==> Next(t, i).value in t
    ensures Next(u, f[i]) == if Next(t, i).None? then Option.None else Some(f[Next(t, i).value])
  {
    hide KeepsOrder, Renumbers, Before, Next;
    assert f.Keys == t.Keys && Renumbers(t, u, f) by { KeepsOrderMeans(t, u, f); }
    RowFollows(t, u, f, i);
    BeforeIsInTable(t, i);
    BeforeIsInTable(u, f[i]);
    forall k | Before(u, f[i], k) ensures exists j :: Before(t, i, j) && f[j] == k {
      var j := Preimage(t, u, f, k);
      OrderOf(t, u, f, i, j);
    }
    if Next(t, i).Some? {
      var n := Next(t, i).value;
      OrderOf(t, u, f, i, n);
      forall k | Before(u, f[i], k) && k != f[n] ensures Before(u, f[n], k) {
        var j := Preimage(t, u, f, k);
        OrderOf(t, u, f, i, j);
        OrderOf(t, u, f, n, j);
      }
      IsNext(u, f[i], f[n]);
    }
  }

  lemma BeforeIsInTable(t: Table, i: nat)
    requires i in t
    ensures forall j :: Before(t, i, j) ==> j in t
  {}

  lemma KeepsOrderMeans(t: Table, u: Table, f: map<nat, nat>)
    requires KeepsOrder(t, u, f)
    ensures Renumbers(t, u, f) && f.Keys == t.Keys
  {}

  lemma MergeableFollows(t: Table, u: Table, f: map<nat, nat>, states: StateTimes, i: nat)
    requires KeepsOrder(t, u, f) && i in t
    ensures i in f && f[i] in u
    ensures Mergeable(u, states, f[i]) <==> Mergeable(t, states, i)
  {
    hide KeepsOrder, Next, StateWithin, SameMetadata;
    NextFollows(t, u, f, i);
    if Next(t, i).Some? { NextFollows(t, u, f, Next(t, i).value); }
  }

  lemma RightHandFollows(t: Table, u: Table, f: map<nat, nat>, states: StateTimes, j: nat)
    requires KeepsOrder(t, u, f) && j in t
    ensures j in f && f[j] in u
    ensures RightHand(u, states, f[j]) <==> RightHand(t, states, j)
  {
    hide KeepsOrder, Renumbers, Mergeable, Next;
    KeepsOrderMeans(t, u, f);
    RowFollows(t, u, f, j);
    if RightHand(t, states, j) {
      var m :| m in t && Next(t, m) == Some(j) && Mergeable(t, states, m);
      NextFollows(t, u, f, m);
      MergeableFollows(t, u, f, states, m);
    }
    if RightHand(u, states, f[j]) {
      var k :| k in u && Next(u, k) == Some(f[j]) && Mergeable(u, states, k);
      var m := Preimage(t, u, f, k);
      NextFollows(t, u, f, m);
      MergeableFollows(t, u, f, states, m);
      Injective(t, u, f, Next(t, m).value, j);
    }
  }

  /** A chain keeps its length and its end. */
  lemma {:induction false} ChainFollows(t: Table, u: Table, f: map<nat, nat>, states: StateTimes, i: nat)
    requires KeepsOrder(t, u, f) && i in t
    ensures i in f && f[i] in u
    ensures ChainLength(u, states, f[i]) == ChainLength(t, states, i) && EndOf(u, states, f[i]) == EndOf(t, states, i)
    decreases |After(t, i)|
  {
    hide KeepsOrder, Mergeable, Next, ChainLength, EndOf, After;
    NextFollows(t, u, f, i);
    MergeableFollows(t, u, f, states, i);
    ChainStep(t, states, i);
    ChainStep(u, states, f[i]);
    EndStep(t, states, i);
    EndStep(u, states, f[i]);
    if Mergeable(t, states, i) {
      AfterShrinks(t, i);
      ChainFollows(t, u, f, states, Next(t, i).value);
    }
  }

  function Restrict(f: map<nat, nat>, keys: set<nat>): map<nat, nat> { map i | i in f && i in keys :: f[i] }

  lemma MergedFollows(t: Table, u: Table, f: map<nat, nat>, states: StateTimes)
    requires KeepsOrder(t, u, f)
    ensures Renumbers(Merged(t, states), Merged(u, states), Restrict(f, Merged(t, states).Keys))
  {
    hide KeepsOrder, Renumbers, RightHand, EndOf, Mergeable, Next;
    var m, m' := Merged(t, states), Merged(u, states);
    var g := Restrict(f, m.Keys);
    KeepsOrderMeans(t, u, f);
    forall i | i in m ensures i in g && g[i] == f[i] && g[i] in m' && m'[g[i]] == m[i] {
      RowFollows(t, u, f, i);
      RightHandFollows(t, u, f, states, i);
      ChainFollows(t, u, f, states, i);
    }
    forall i, j | i in m && j in m && g[i] == g[j] ensures i == j { Injective(t, u, f, i, j); }
    forall k | k in m' ensures exists i :: i in m && g[i] == k {
      var i := Preimage(t, u, f, k);
      RightHandFollows(t, u, f, states, i);
      assert g[i] == k;
    }
    RenumbersIs(m, m', g);
  }

  lemma LongestFollows(t: Table, u: Table, f: map<nat, nat>, states: StateTimes, n: nat)
    requires KeepsOrder(t, u, f) && IsLongest(t, states, n)
    ensures IsLongest(u, states, n)
  {
    hide KeepsOrder, Renumbers, ChainLength;
    KeepsOrderMeans(t, u, f);
    forall k | k in u ensures ChainLength(u, states, k) <= n {
      var i := Preimage(t, u, f, k);
      ChainFollows(t, u, f, states, i);
    }
    if n > 0 {
      var i :| i in t && ChainLength(t, states, i) == n;
      ChainFollows(t, u, f, states, i);
    }
  }

  // ---- The loop under PostgreSQL's numbering -----------------------------------------------------

  /** A pass, and then new ctids for the rows it extended. */
  ghost predicate PassAndMove(t: Table, u: Table, states: StateTimes, f: map<nat, nat>) {
    && Renumbers(MergePass(t, states), u, f)
    && forall i :: i in MergePass(t, states) && !Heads(t, states, i) ==> f[i] == i
  }

  ghost predicate PassesTo(t: Table, u: Table, states: StateTimes, n: nat)
    decreases n
  {
    if n == 0 then u == t else exists v, f :: PassesTo(t, v, states, n - 1) && PassAndMove(v, u, states, f)
  }

  lemma PassKeepsOrder(t: Table, u: Table, states: StateTimes, f: map<nat, nat>)
    requires Clean(t) && PassAndMove(t, u, states, f)
    ensures Clean(MergePass(t, states)) && KeepsOrder(MergePass(t, states), u, f)
  {
    assert f.Keys == MergePass(t, states).Keys;
    hide Clean, Renumbers, KeepsOrder, Mergeable, Next, Heads;
    PassKeepsClean(t, states);
    forall i | i in MergePass(t, states) && Empty(MergePass(t, states)[i]) ensures f[i] == i {
      if Heads(t, states, i) { HeadIsFull(t, states, i); }
    }
    FullRowsMoveFreely(MergePass(t, states), u, f);
  }

  lemma HeadIsFull(t: Table, states: StateTimes, i: nat)
    requires Clean(t) && i in MergePass(t, states) && Heads(t, states, i)
    ensures !Empty(MergePass(t, states)[i])
  {
    hide SequenceClean, Next;
    PassRow(t, states, i);
    EndsLater(t, states, i);
  }

  lemma RightStaysUntouched(t: Table, v: Table, u: Table, states: StateTimes, f: map<nat, nat>)
    requires Clean(v) && UntouchedRight(t, v, states) && PassAndMove(v, u, states, f)
    ensures UntouchedRight(t, u, states)
  {
    hide Clean, Renumbers, KeepsOrder, Mergeable, Next, Heads, RightHand, MergePass;
    var w := MergePass(v, states);
    PassKeepsOrder(v, u, states, f);
    PassKeepsRight(t, v, states);
    forall k | k in u && RightHand(u, states, k) ensures k in t && u[k] == t[k] {
      var j := Preimage(w, u, f, k);
      RightHandFollows(w, u, f, states, j);
      PassRightHand(v, states, j);
      assert j in v by { PassKeys(v, states); }
      HeadIsFirst(v, states, j);
      RowFollows(w, u, f, j);
    }
  }

  lemma OnePass(v: Table, u: Table, states: StateTimes, f: map<nat, nat>, n: nat)
    requires Clean(v) && IsLongest(v, states, n + 1) && PassAndMove(v, u, states, f)
    ensures Clean(u) && IsLongest(u, states, n) && Alike(Merged(v, states), Merged(u, states))
  {
    hide Clean, Renumbers, KeepsOrder, IsLongest, MergePass, Merged, Heads;
    var w := MergePass(v, states);
    PassKeepsOrder(v, u, states, f);
    CleanFollows(w, u, f);
    PassShortens(v, states, n + 1);
    LongestFollows(w, u, f, states, n);
    PassKeepsMerged(v, states);
    MergedFollows(w, u, f, states);
    assert Renumbers(Merged(v, states), Merged(u, states), Restrict(f, Merged(w, states).Keys));
  }

  /**
   However PostgreSQL numbers the rows it extends, the merge plans something for as many passes as the
   longest chain is long, archives rows only as they were at first, and ends with the merged form.
   */
  lemma {:induction false} MergeIgnoresCtid(t: Table, u: Table, states: StateTimes, n: nat)
    requires Clean(t) && n <= LongestChain(t, states) && PassesTo(t, u, states, n)
    ensures Clean(u) && UntouchedRight(t, u, states) && Alike(Merged(t, states), Merged(u, states))
    ensures IsLongest(u, states, LongestChain(t, states) - n)
    ensures n == LongestChain(t, states) ==>
              Alike(Merged(t, states), u) && forall i :: i in u ==> !Mergeable(u, states, i)
    ensures n < LongestChain(t, states) ==> Plan(u, states) != {}
    decreases n
  {
    hide Clean, IsLongest, Merged, PassAndMove, UntouchedRight, Alike, Mergeable, Plan, LongestChain, ChainLength;
    if n == 0 {
      NothingGone(t, states);
      AlikeItself(Merged(t, states));
    } else {
      var v, f :| PassesTo(t, v, states, n - 1) && PassAndMove(v, u, states, f);
      MergeIgnoresCtid(t, v, states, n - 1);
      OnePass(v, u, states, f, LongestChain(t, states) - n);
      AlikeTwice(Merged(t, states), Merged(v, states), Merged(u, states));
      RightStaysUntouched(t, v, u, states, f);
    }
    PassShortens(u, states, LongestChain(t, states) - n);
    if n == LongestChain(t, states) {
      NothingMergeable(u, states);
      NothingToMerge(u, states);
    }
  }
}
