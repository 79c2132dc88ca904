/** What the wrapper's history guarantees its callers. */
module RetryLaws {
  import opened Options
  import opened Retry

  /** The default schedule, saturating at its last entry. */
  function Backoff(k: nat): nat {
    if k == 0 then 1_000_000 else if k == 1 then 5_000_000 else if k == 2 then 10_000_000
    else if k == 3 then 30_000_000 else 60_000_000
  }

  /** Each sleep lasts at least its backoff. */
  predicate Waits(a: seq<Attempt>) { forall k :: 0 <= k < |a| - 1 ==> a[k + 1].at - a[k].at >= Backoff(k) }

  /** At most six non-transient failures in a row before on_poison is asked, and the sixth is. */
  lemma AtMostSixInARow(a: seq<Attempt>, c: Call, j: nat, i: nat)
    requires Follows(a, DEFAULT, c) && Waits(a)
    requires i < c.used && Streak(a, c.asked, j, i)
    ensures i - j + 1 <= 6 && (i - j + 1 == 6 ==> i in c.asked)
  {
    if i - j >= 5 {
      var k := j + 5;
      assert a[j + 1].at - a[j].at >= Backoff(j) && a[j + 2].at - a[j + 1].at >= Backoff(j + 1);
      assert a[j + 3].at - a[j + 2].at >= Backoff(j + 2) && a[j + 4].at - a[j + 3].at >= Backoff(j + 3);
      assert a[k].at - a[j + 4].at >= Backoff(j + 4) == 60_000_000;
      assert Streak(a, c.asked, j, k);
      assert Poisonous(a, c.asked, DEFAULT, k);
      assert Counts(a, k);
      assert k in c.asked;
    }
  }

  /** The backoffs really are needed: five failures in a row can span less than the minute. */
  lemma FiveCanBeTooFew() returns (a: seq<Attempt>)
    ensures |a| == 5 && Waits(a) && (forall i: nat :: i < 5 ==> Counts(a, i))
    ensures Follows(a, DEFAULT, Call(5, {}, Option.None, Option.None, false, Retrying))
  {
    var e := Some(OtherError);
    a := [Attempt(e, 0, false, false), Attempt(e, 1_000_000, false, false), Attempt(e, 6_000_000, false, false),
          Attempt(e, 16_000_000, false, false), Attempt(e, 46_000_000, false, false)];
  }

  /** Without the hook nothing is ever given up on. */
  lemma WithoutHookNothingIsDropped(a: seq<Attempt>, p: Policy, c: Call)
    requires Follows(a, p, c) && !p.onPoison
    ensures c.asked == {} && c.exit != GaveUp
  {
    assert forall k: nat :: k !in c.asked;
  }

  /** A transient error is never what on_poison is asked about, and it starts the count afresh. */
  lemma TransientStartsAfresh(a: seq<Attempt>, p: Policy, c: Call, t: nat, i: nat)
    requires Monotonic(a) && Follows(a, p, c) && t < i && i in c.asked && (!Counts(a, t) || t in c.asked)
    ensures i < c.used && i - t >= p.maxAttempts && a[i].at - a[t + 1].at >= p.minUs
  {
    assert i < c.used && Poisonous(a, c.asked, p, i);
    var j :| 0 <= j <= i && Streak(a, c.asked, j, i) && i - j + 1 >= p.maxAttempts && a[i].at - a[j].at >= p.minUs;
    assert !Streak(a, c.asked, t, i);
    assert j > t;
  }

  /** An input given up on, without a veto on the way, was never reported as a stall. */
  lemma PoisonIsNotAStall(a: seq<Attempt>, p: Policy, c: Call)
    requires Follows(a, p, c) && p.onPoison && forall i: nat :: i < c.used ==> Counts(a, i)
    requires forall i: nat :: i < Slept(c) ==> i !in c.asked
    ensures c.stall.None? && !c.recovered
  {
    assert forall k: nat :: k < Slept(c) ==> VerdictPending(a, c.asked, p, k);
  }

  /** Without failures of the counting kind, a stall is reported at exactly the threshold. */
  lemma OutageStallsAtThreshold(a: seq<Attempt>, p: Policy, c: Call)
    requires Follows(a, p, c) && p.stallThreshold > 0
    requires forall i: nat :: i < Slept(c) ==> !Counts(a, i)
    ensures c.stall == if Slept(c) >= p.stallThreshold then Some(p.stallThreshold - 1) else Option.None
  {
    if Slept(c) >= p.stallThreshold {
      assert Stalls(a, c.asked, p, p.stallThreshold - 1);
    }
  }

  // ---- The history is determined ----------------------------------------------------------------

  lemma {:induction false} SameAsked(a: seq<Attempt>, p: Policy, c: Call, d: Call, i: nat)
    requires Follows(a, p, c) && Follows(a, p, d) && i < c.used && i < d.used
    ensures forall k: nat :: k <= i ==> (k in c.asked <==> k in d.asked)
    decreases i
  {
    if i > 0 { SameAsked(a, p, c, d, i - 1); }
    assert forall j :: 0 <= j <= i ==> (Streak(a, c.asked, j, i) <==> Streak(a, d.asked, j, i));
    assert Poisonous(a, c.asked, p, i) <==> Poisonous(a, d.asked, p, i);
  }

  /** The attempt ended the call. */
  predicate Ends(a: seq<Attempt>, asked: set<nat>, i: nat)
    requires i < |a|
  {
    !Failed(a, i) || (i in asked && !a[i].veto) || a[i].stop
  }

  lemma EndsAtTheLast(a: seq<Attempt>, p: Policy, c: Call, i: nat)
    requires Follows(a, p, c) && i < c.used
    ensures i < |a| && (Ends(a, c.asked, i) <==> i == c.used - 1 && !c.exit.Retrying?)
    ensures c.exit.Retrying? ==> c.used == |a|
  {
    assert WentOn(a, c.asked, c.used - 1) || c.exit.Retrying?;
  }

  lemma SameLength(a: seq<Attempt>, p: Policy, c: Call, d: Call)
    requires Follows(a, p, c) && Follows(a, p, d)
    ensures c.used >= d.used
  {
    if c.used > 0 && d.used > 0 {
      var i := Min(c.used, d.used) - 1;
      SameAsked(a, p, c, d, i);
      EndsAtTheLast(a, p, c, i);
      EndsAtTheLast(a, p, d, i);
    }
  }

  /** The outcomes, the clock and the policy determine everything the wrapper does. */
  lemma HistoryIsDetermined(a: seq<Attempt>, p: Policy, c: Call, d: Call)
    requires Follows(a, p, c) && Follows(a, p, d)
    ensures c == d
  {
    SameLength(a, p, c, d);
    SameLength(a, p, d, c);
    if c.used > 0 { SameAsked(a, p, c, d, c.used - 1); }
    assert c.asked == d.asked;
    SameExit(a, p, c, d);
    SameNotices(a, p, c, d);
  }

  lemma SameExit(a: seq<Attempt>, p: Policy, c: Call, d: Call)
    requires Follows(a, p, c) && Follows(a, p, d) && c.used == d.used && c.asked == d.asked
    ensures c.exit == d.exit
  {
    if c.used > 0 {
      var i := c.used - 1;
      assert WentOn(a, c.asked, c.used) ==> Failed(a, i) && !(i in c.asked && !a[i].veto) && !a[i].stop;
      assert i in c.asked ==> Counts(a, i);
    }
  }

  lemma SameNotices(a: seq<Attempt>, p: Policy, c: Call, d: Call)
    requires Follows(a, p, c) && Follows(a, p, d) && c.used == d.used && c.asked == d.asked && c.exit == d.exit
    ensures c.stall == d.stall && c.sustained == d.sustained && c.recovered == d.recovered
  {}
}
